/**
 Proofs a light client checks against nothing but a state root (state/proof.go): one for
 an account, and one for a storage slot chained through the storage root the first proves.
 */
module StateProof {
  import opened Core
  import opened State
  import opened Codec
  import T = Tree
  import opened Merkle
  import opened NodeStore
  import opened MptState

  type Tree = T.Tree

  datatype AccountProof = AccountProof(account: Account, proof: Proof)
  datatype StorageProof = StorageProof(accountProof: AccountProof, slotProof: Proof, value: Hash)

  function GenerateAccountProof(sum: Bytes -> Hash, nodes: map<Hash, Bytes>, stateRoot: Hash, addr: Address): Option<AccountProof>
    requires Progress(nodes, MAX_PATH)
  {
    var (proof, value) := GenProof(nodes, stateRoot, PathOf(sum, addr));
    if value.None? then None else Some(AccountProof(DecodeAccount(value.value), proof))
  }

  predicate VerifyAccountProof(sum: Bytes -> Hash, stateRoot: Hash, addr: Address, ap: AccountProof) {
    Accepts(sum, stateRoot, PathOf(sum, addr), EncodeAccount(ap.account), ap.proof)
  }

  function GenerateStorageProof(sum: Bytes -> Hash, nodes: map<Hash, Bytes>, stateRoot: Hash, addr: Address, key: Hash)
    : Option<StorageProof>
    requires Progress(nodes, MAX_PATH)
  {
    var ap := GenerateAccountProof(sum, nodes, stateRoot, addr);
    if ap.None? || ap.value.account.storageRoot == ZERO_HASH then None else
    var (slotProof, value) := GenProof(nodes, ap.value.account.storageRoot, PathOf(sum, key));
    if value.None? then None else Some(StorageProof(ap.value, slotProof, CopyWord(value.value)))
  }

  predicate VerifyStorageProof(sum: Bytes -> Hash, stateRoot: Hash, addr: Address, key: Hash, sp: StorageProof) {
    && VerifyAccountProof(sum, stateRoot, addr, sp.accountProof)
    && Accepts(sum, sp.accountProof.account.storageRoot, PathOf(sum, key), sp.value, sp.slotProof)
  }

  ghost function Elements(proof: Proof): set<Bytes> {
    set e | e in proof
  }

  /** An accepted proof element is one of the stored nodes, or it would collide with one. */
  lemma AcceptedIsHeld(sum: Bytes -> Hash, t: Tree, n: set<Bytes>, p: Path, v: Bytes, proof: Proof)
    requires Fits(t, KEY_LEN) && InPlay(sum, t, n) && NoCollision(sum, n + Elements(proof))
    requires Accepts(sum, Root(sum, t), p, v, proof)
    ensures T.Get(t, p) == Some(v)
  {
    hide Encode, Decode;
    InPlayMore(sum, t, n, n + Elements(proof));
    ProofSound(sum, t, n + Elements(proof), p, v, proof, KEY_LEN);
  }

  lemma HeldIsAccepted(sum: Bytes -> Hash, nodes: map<Hash, Bytes>, n: set<Bytes>, t: Tree, p: Path)
    requires Fits(t, KEY_LEN) && InPlay(sum, t, n) && NoCollision(sum, n)
    requires Backed(sum, nodes, n) && Progress(nodes, MAX_PATH)
    ensures var (proof, v) := GenProof(nodes, Root(sum, t), p);
            v == T.Get(t, p) && (v.Some? ==> Accepts(sum, Root(sum, t), p, v.value, proof))
  {
    hide Encode, Decode;
    LookupIsGet(sum, nodes, n, t, p, KEY_LEN);
    ProofComplete(sum, nodes, Root(sum, t), p);
  }

  /** An account proof is found exactly for the addresses that hold something, and it verifies. */
  lemma AccountProofComplete(sum: Bytes -> Hash, nodes: map<Hash, Bytes>, n: set<Bytes>, h: set<Bytes>, sh: Shadow, addr: Address)
    requires Sound(sum, n, h, sh) && Backed(sum, nodes, n) && Progress(nodes, MAX_PATH)
    requires NoCollision(sum, n + h + {addr})
    ensures var ap := GenerateAccountProof(sum, nodes, Root(sum, sh.world), addr);
            && (ap.Some? <==> addr in sh.view)
            && (ap.Some? ==> ap.value.account == AccountOf(sum, sh.view[addr], sh.stores[addr])
                             && VerifyAccountProof(sum, Root(sum, sh.world), addr, ap.value))
  {
    hide Encode, Decode, Mirrors, Fits, InPlay, EncodeAccount, DecodeAccount, SoundStore, AccountOf, GenProof, Accepts;
    NoCollisionLess(sum, n, n + h + {addr});
    HeldIsAccepted(sum, nodes, n, sh.world, PathOf(sum, addr));
    var m := Records(sum, n, h, sh);
    assert Distinct(sum, m, addr);
    MirrorsGet(sum, sh.world, m, addr);
    if addr in sh.view { AccountRoundTrip(AccountOf(sum, sh.view[addr], sh.stores[addr])); }
  }

  /** A verified account proof states the true account. */
  lemma AccountProofSound(sum: Bytes -> Hash, n: set<Bytes>, h: set<Bytes>, sh: Shadow, addr: Address, ap: AccountProof)
    requires Sound(sum, n, h, sh) && NoCollision(sum, n + Elements(ap.proof) + h + {addr})
    requires VerifyAccountProof(sum, Root(sum, sh.world), addr, ap)
    ensures addr in sh.view && ap.account == AccountOf(sum, sh.view[addr], sh.stores[addr])
  {
    hide Encode, Decode, Mirrors, Fits, InPlay, EncodeAccount, DecodeAccount, SoundStore, AccountOf;
    NoCollisionLess(sum, n + Elements(ap.proof), n + Elements(ap.proof) + h + {addr});
    AcceptedIsHeld(sum, sh.world, n, PathOf(sum, addr), EncodeAccount(ap.account), ap.proof);
    var m := Records(sum, n, h, sh);
    assert Distinct(sum, m, addr);
    MirrorsGet(sum, sh.world, m, addr);
    AccountRoundTrip(ap.account);
    AccountRoundTrip(AccountOf(sum, sh.view[addr], sh.stores[addr]));
  }

  /** A storage proof is found exactly for the written slots, carries their word, and verifies. */
  lemma StorageProofComplete(sum: Bytes -> Hash, nodes: map<Hash, Bytes>, n: set<Bytes>, h: set<Bytes>, sh: Shadow,
                             addr: Address, key: Hash)
    requires Sound(sum, n, h, sh) && Backed(sum, nodes, n) && Progress(nodes, MAX_PATH)
    requires NoCollision(sum, n + h + {addr} + {key})
    ensures var sp := GenerateStorageProof(sum, nodes, Root(sum, sh.world), addr, key);
            && (sp.Some? <==> key in Read(sh.view, addr).storage)
            && (sp.Some? ==> sp.value.value == Read(sh.view, addr).storage[key]
                             && VerifyStorageProof(sum, Root(sum, sh.world), addr, key, sp.value))
  {
    hide Encode, Decode, NoCollision, Mirrors, Fits, InPlay, EncodeAccount, DecodeAccount, SoundStore, Backed, Progress, GenProof,
         Accepts, GenerateAccountProof, VerifyAccountProof;
    NoCollisionLess(sum, n + h + {addr}, n + h + {addr} + {key});
    NoCollisionLess(sum, n + h + {key}, n + h + {addr} + {key});
    NoCollisionLess(sum, n, n + h + {addr} + {key});
    AccountProofComplete(sum, nodes, n, h, sh, addr);
    if addr in sh.view {
      var x, st := sh.view[addr], sh.stores[addr];
      StoreRead(sum, n, h, x, st, key);
      HeldIsAccepted(sum, nodes, n, st, PathOf(sum, key));
    }
  }

  /** A verified storage proof states the true word of the slot: the chain cannot be cut. */
  lemma StorageProofSound(sum: Bytes -> Hash, n: set<Bytes>, h: set<Bytes>, sh: Shadow, addr: Address, key: Hash, sp: StorageProof)
    requires Sound(sum, n, h, sh)
    requires NoCollision(sum, n + Elements(sp.accountProof.proof) + Elements(sp.slotProof) + h + {addr} + {key})
    requires VerifyStorageProof(sum, Root(sum, sh.world), addr, key, sp)
    ensures key in Read(sh.view, addr).storage && sp.value == Read(sh.view, addr).storage[key]
  {
    hide Encode, Decode, NoCollision, Mirrors, Fits, InPlay, EncodeAccount, DecodeAccount, SoundStore, Elements, Accepts;
    var a, b := Elements(sp.accountProof.proof), Elements(sp.slotProof);
    var all := n + a + b + h + {addr} + {key};
    NoCollisionLess(sum, n + a + h + {addr}, all);
    NoCollisionLess(sum, n + h + {key}, all);
    NoCollisionLess(sum, n + b, all);
    AccountProofSound(sum, n, h, sh, addr, sp.accountProof);
    var x, st := sh.view[addr], sh.stores[addr];
    StoreRead(sum, n, h, x, st, key);
    AcceptedIsHeld(sum, st, n, PathOf(sum, key), sp.value, sp.slotProof);
  }
}
