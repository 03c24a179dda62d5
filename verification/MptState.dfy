/**
 The production state database (state/mpt.go): a world trie of accounts over per-account
 storage tries, refined to plain balances, nonces, code and storage maps, with the
 chained inclusion proofs of state/proof.go.
 */
module MptState {
  import opened Core
  import opened State
  import opened Codec
  import T = Tree
  import opened Merkle
  import opened NodeStore

  type Tree = T.Tree

  // Account records

  function EncodeAccount(a: Account): (b: Bytes)
    ensures |b| == 80
  {
    BigEndian(a.balance, 8) + BigEndian(a.nonce, 8) + a.codeHash + a.storageRoot
  }

  function DecodeAccount(b: Bytes): Account {
    if |b| < 80 then EMPTY_ACCOUNT
    else Account(Word64(b[..8]), Word64(b[8..16]), b[16..48], b[48..80])
  }

  lemma AccountRoundTrip(a: Account)
    ensures DecodeAccount(EncodeAccount(a)) == a
  {
    hide BigEndian, FromBigEndian;
    WordWidth();
    BigEndianRoundTrip(a.balance, 8);
    BigEndianRoundTrip(a.nonce, 8);
    var b := EncodeAccount(a);
    assert b[..8] == BigEndian(a.balance, 8);
    assert b[8..16] == BigEndian(a.nonce, 8);
    assert b[16..48] == a.codeHash;
    assert b[48..80] == a.storageRoot;
  }

  // The plain state

  /** What an address means to a reader: its balance, nonce, code, and non-zero storage words. */
  datatype Plain = Plain(balance: uint64, nonce: uint64, code: Bytes, storage: map<Hash, Hash>)

  const NOTHING := Plain(0, 0, [], map[])

  type View = map<Address, Plain>

  function Read(v: View, a: Address): Plain {
    if a in v then v[a] else NOTHING
  }

  /** Writing "nothing" and never having written are the same state. */
  function Write(v: View, a: Address, x: Plain): View {
    if x == NOTHING then v - {a} else v[a := x]
  }

  /** What becomes of a plain account when a record is set: all zero removes it, any other keeps code and storage. */
  function Replaced(x: Plain, acct: Account): Plain {
    if acct == EMPTY_ACCOUNT then NOTHING else x.(balance := acct.balance, nonce := acct.nonce)
  }

  function WriteSlot(s: map<Hash, Hash>, k: Hash, v: Hash): map<Hash, Hash> {
    if v == ZERO_HASH then s - {k} else s[k := v]
  }

  // A trie that mirrors a map

  function PathOf(sum: Bytes -> Hash, key: Bytes): Path {
    Nibbles(sum(key))
  }

  ghost predicate Distinct(sum: Bytes -> Hash, m: map<Bytes, Bytes>, k: Bytes) {
    forall k' | k' in m && sum(k') == sum(k) :: k' == k
  }

  /** The canonical trie whose entries are exactly those of `m`, at their hashed keys. */
  ghost predicate Mirrors(sum: Bytes -> Hash, t: Tree, m: map<Bytes, Bytes>) {
    && T.Canonical(t)
    && (forall k | k in m :: T.Get(t, PathOf(sum, k)) == Some(m[k]))
    && (forall p | T.Get(t, p).Some? :: exists k :: k in m && PathOf(sum, k) == p)
  }

  lemma MirrorsGet(sum: Bytes -> Hash, t: Tree, m: map<Bytes, Bytes>, k: Bytes)
    requires Mirrors(sum, t, m) && Distinct(sum, m, k)
    ensures T.Get(t, PathOf(sum, k)) == if k in m then Some(m[k]) else None
  {
    if T.Get(t, PathOf(sum, k)).Some? {
      var k' :| k' in m && PathOf(sum, k') == PathOf(sum, k);
      NibblesInjective(sum(k'), sum(k));
    }
  }

  lemma PathsApart(sum: Bytes -> Hash, m: map<Bytes, Bytes>, k: Bytes, k': Bytes)
    requires Distinct(sum, m, k) && k' in m && k' != k
    ensures PathOf(sum, k') != PathOf(sum, k)
  {
    NibblesInjective(sum(k'), sum(k));
  }

  lemma MirrorsPut(sum: Bytes -> Hash, t: Tree, m: map<Bytes, Bytes>, k: Bytes, v: Bytes)
    requires Mirrors(sum, t, m) && Distinct(sum, m, k)
    ensures Mirrors(sum, T.Put(t, PathOf(sum, k), v), m[k := v])
  {
    var p := PathOf(sum, k);
    T.PutCanonical(t, p, v);
    var t', m' := T.Put(t, p, v), m[k := v];
    forall q ensures T.Get(t', q) == if q == p then Some(v) else T.Get(t, q) { T.PutGet(t, p, v, q); }
    forall k' | k' in m' ensures T.Get(t', PathOf(sum, k')) == Some(m'[k']) {
      if k' != k { PathsApart(sum, m, k, k'); }
    }
    forall q | T.Get(t', q).Some? ensures exists k' :: k' in m' && PathOf(sum, k') == q {
      if q == p {
        assert k in m';
      } else {
        var k' :| k' in m && PathOf(sum, k') == q;
        assert k' in m';
      }
    }
  }

  lemma MirrorsDel(sum: Bytes -> Hash, t: Tree, m: map<Bytes, Bytes>, k: Bytes)
    requires Mirrors(sum, t, m) && Distinct(sum, m, k)
    ensures Mirrors(sum, T.Del(t, PathOf(sum, k)), m - {k})
  {
    var p := PathOf(sum, k);
    T.DelCanonical(t, p);
    var t', m' := T.Del(t, p), m - {k};
    forall q ensures T.Get(t', q) == if q == p then None else T.Get(t, q) { T.DelGet(t, p, q); }
    forall k' | k' in m' ensures T.Get(t', PathOf(sum, k')) == Some(m'[k']) {
      PathsApart(sum, m, k, k');
    }
    forall q | T.Get(t', q).Some? ensures exists k' :: k' in m' && PathOf(sum, k') == q {
      var k' :| k' in m && PathOf(sum, k') == q;
      assert k' in m';
    }
  }

  lemma MirrorsUnique(sum: Bytes -> Hash, t: Tree, t': Tree, m: map<Bytes, Bytes>)
    requires Mirrors(sum, t, m) && Mirrors(sum, t', m)
    ensures t == t'
  {
    forall p ensures T.Get(t, p) == T.Get(t', p) {
      if T.Get(t, p).Some? { MirrorsAgree(sum, t, t', m, p); }
      if T.Get(t', p).Some? { MirrorsAgree(sum, t', t, m, p); }
    }
    T.Unique(t, t');
  }

  lemma MirrorsAgree(sum: Bytes -> Hash, t: Tree, t': Tree, m: map<Bytes, Bytes>, p: Path)
    requires Mirrors(sum, t, m) && Mirrors(sum, t', m) && T.Get(t, p).Some?
    ensures T.Get(t', p) == T.Get(t, p)
  {
  }

  /** Two maps with the same mirror are the same map, their keys being told apart by their hashes. */
  lemma MirrorsInjective(sum: Bytes -> Hash, t: Tree, m: map<Bytes, Bytes>, m': map<Bytes, Bytes>)
    requires Mirrors(sum, t, m) && Mirrors(sum, t, m') && NoCollision(sum, m.Keys + m'.Keys)
    ensures m == m'
  {
    forall k | k in m.Keys + m'.Keys ensures k in m && k in m' && m[k] == m'[k] {
      MirrorsGet(sum, t, m, k);
      MirrorsGet(sum, t, m', k);
    }
  }

  lemma MirrorsEmpty(sum: Bytes -> Hash, t: Tree, m: map<Bytes, Bytes>)
    requires Mirrors(sum, t, m)
    ensures t.Empty? <==> m == map[]
  {
    if k :| k in m { assert T.Get(t, PathOf(sum, k)) == Some(m[k]); }
    if !t.Empty? {
      var p := T.SomeKey(t);
    }
  }

  /** Go's copy of a value into a 32-byte array: short values are zero-padded, long ones cut. */
  function CopyWord(b: Bytes): (h: Hash)
    ensures |b| == 32 ==> h == b
  {
    if |b| >= 32 then b[..32] else b + ZERO_HASH[|b|..]
  }

  // Two levels of tries

  /** The account record that stands for `x` when its storage trie is `st`. */
  function AccountOf(sum: Bytes -> Hash, x: Plain, st: Tree): Account
    requires T.Shaped(st)
  {
    Account(x.balance, x.nonce, if |x.code| == 0 then ZERO_HASH else sum(x.code), Root(sum, st))
  }

  /** Ghost state of the database: its plain view, its world trie and its storage tries. */
  datatype Shadow = Shadow(view: View, world: Tree, stores: map<Address, Tree>)

  ghost predicate SoundStore(sum: Bytes -> Hash, n: set<Bytes>, h: set<Bytes>, x: Plain, st: Tree)
    ensures SoundStore(sum, n, h, x, st) ==> T.Shaped(st)
  {
    && Mirrors(sum, st, x.storage) && Fits(st, KEY_LEN) && InPlay(sum, st, n)
    && (forall k | k in x.storage :: k in h && x.storage[k] != ZERO_HASH)
    && (|x.code| > 0 ==> x.code in h)
  }

  ghost predicate SoundStores(sum: Bytes -> Hash, n: set<Bytes>, h: set<Bytes>, sh: Shadow) {
    && sh.stores.Keys == sh.view.Keys
    && forall a | a in sh.view :: a in h && sh.view[a] != NOTHING && SoundStore(sum, n, h, sh.view[a], sh.stores[a])
  }

  ghost function Records(sum: Bytes -> Hash, n: set<Bytes>, h: set<Bytes>, sh: Shadow): map<Bytes, Bytes>
    requires SoundStores(sum, n, h, sh)
  {
    map a | a in sh.view :: EncodeAccount(AccountOf(sum, sh.view[a], sh.stores[a]))
  }

  /** The tries hold exactly the view; the nodes are among `n`, the other hashed strings among `h`. */
  ghost predicate Sound(sum: Bytes -> Hash, n: set<Bytes>, h: set<Bytes>, sh: Shadow)
    ensures Sound(sum, n, h, sh) ==> T.Shaped(sh.world)
  {
    && SoundStores(sum, n, h, sh)
    && Mirrors(sum, sh.world, Records(sum, n, h, sh)) && Fits(sh.world, KEY_LEN) && InPlay(sum, sh.world, n)
  }

  lemma SoundMore(sum: Bytes -> Hash, n: set<Bytes>, h: set<Bytes>, n': set<Bytes>, h': set<Bytes>, sh: Shadow)
    requires Sound(sum, n, h, sh) && n <= n' && h <= h'
    ensures Sound(sum, n', h', sh) && Records(sum, n', h', sh) == Records(sum, n, h, sh)
  {
    hide Encode, Mirrors, Fits;
    forall a | a in sh.view ensures SoundStore(sum, n', h', sh.view[a], sh.stores[a]) {
      InPlayMore(sum, sh.stores[a], n, n');
    }
    InPlayMore(sum, sh.world, n, n');
  }

  /** A record is all zero exactly when the address means nothing. */
  lemma EmptyRecord(sum: Bytes -> Hash, n: set<Bytes>, h: set<Bytes>, x: Plain, st: Tree)
    requires SoundStore(sum, n, h, x, st) && NoCollision(sum, n + h)
    ensures AccountOf(sum, x, st) == EMPTY_ACCOUNT <==> x == NOTHING
  {
    hide Encode;
    MirrorsEmpty(sum, st, x.storage);
  }

  function Restore(stores: map<Address, Tree>, a: Address, x: Plain, st: Tree): map<Address, Tree> {
    if x == NOTHING then stores - {a} else stores[a := st]
  }

  ghost function WorldAfter(sum: Bytes -> Hash, world: Tree, a: Address, x: Plain, st: Tree): Tree
    requires T.Shaped(world) && T.Shaped(st)
  {
    if x == NOTHING then DelShaped(world, PathOf(sum, a))
    else PutShaped(world, PathOf(sum, a), EncodeAccount(AccountOf(sum, x, st)))
  }

  lemma RecordsWrite(sum: Bytes -> Hash, n: set<Bytes>, h: set<Bytes>, sh: Shadow, world: Tree, a: Address, x: Plain, st: Tree)
    requires SoundStores(sum, n, h, sh) && a in h && SoundStore(sum, n, h, x, st)
    ensures var sh' := Shadow(Write(sh.view, a, x), world, Restore(sh.stores, a, x, st));
            && SoundStores(sum, n, h, sh')
            && Records(sum, n, h, sh') ==
               if x == NOTHING then Records(sum, n, h, sh) - {a}
               else Records(sum, n, h, sh)[a := EncodeAccount(AccountOf(sum, x, st))]
  {
    hide EncodeAccount, SoundStore, AccountOf;
  }

  /** Replacing one account keeps the two levels in step with the view. */
  lemma SoundWrite(sum: Bytes -> Hash, n: set<Bytes>, h: set<Bytes>, sh: Shadow, a: Address, x: Plain, st: Tree)
    requires Sound(sum, n, h, sh) && NoCollision(sum, n + h) && a in h && SoundStore(sum, n, h, x, st)
    requires var world := WorldAfter(sum, sh.world, a, x, st); Fits(world, KEY_LEN) && InPlay(sum, world, n)
    ensures Sound(sum, n, h, Shadow(Write(sh.view, a, x), WorldAfter(sum, sh.world, a, x, st), Restore(sh.stores, a, x, st)))
  {
    hide Encode, Fits, InPlay, Mirrors, EncodeAccount, SoundStore, AccountOf, Write, Restore, T.Put, T.Del;
    RecordsWrite(sum, n, h, sh, WorldAfter(sum, sh.world, a, x, st), a, x, st);
    var m := Records(sum, n, h, sh);
    assert Distinct(sum, m, a);
    if x == NOTHING {
      MirrorsDel(sum, sh.world, m, a);
    } else {
      MirrorsPut(sum, sh.world, m, a, EncodeAccount(AccountOf(sum, x, st)));
    }
  }

  lemma SameViewSameRoot(sum: Bytes -> Hash, n: set<Bytes>, h: set<Bytes>, sh: Shadow, sh': Shadow)
    requires Sound(sum, n, h, sh) && Sound(sum, n, h, sh') && sh.view == sh'.view
    ensures sh.world == sh'.world
  {
    hide Encode, Fits, InPlay, Mirrors, SoundStore, EncodeAccount, AccountOf;
    forall a | a in sh.view ensures sh.stores[a] == sh'.stores[a] {
      SameStore(sum, n, h, sh.view[a], sh.stores[a], sh'.stores[a]);
    }
    assert Records(sum, n, h, sh) == Records(sum, n, h, sh');
    MirrorsUnique(sum, sh.world, sh'.world, Records(sum, n, h, sh));
  }

  lemma SameStore(sum: Bytes -> Hash, n: set<Bytes>, h: set<Bytes>, x: Plain, st: Tree, st': Tree)
    requires SoundStore(sum, n, h, x, st) && SoundStore(sum, n, h, x, st')
    ensures st == st'
  {
    hide Fits, InPlay, Mirrors;
    MirrorsUnique(sum, st, st', x.storage);
  }

  lemma SameRootSameView(sum: Bytes -> Hash, n: set<Bytes>, h: set<Bytes>, sh: Shadow, sh': Shadow)
    requires Sound(sum, n, h, sh) && Sound(sum, n, h, sh') && NoCollision(sum, n + h) && sh.world == sh'.world
    ensures sh.view == sh'.view
  {
    hide Encode, Fits, InPlay, Mirrors, SoundStore, EncodeAccount, AccountOf;
    var m, m' := Records(sum, n, h, sh), Records(sum, n, h, sh');
    assert m.Keys + m'.Keys <= h;
    NoCollisionLess(sum, m.Keys + m'.Keys, n + h);
    MirrorsInjective(sum, sh.world, m, m');
    assert sh.view.Keys == m.Keys == m'.Keys == sh'.view.Keys;
    forall a | a in sh.view ensures sh.view[a] == sh'.view[a] {
      assert m[a] == m'[a];
      SameRecord(sum, n, h, sh.view[a], sh.stores[a], sh'.view[a], sh'.stores[a]);
    }
  }

  /** Two databases have the same state root exactly when they mean the same plain state. */
  lemma RootsDecideViews(sum: Bytes -> Hash, n: set<Bytes>, h: set<Bytes>, sh: Shadow,
                         n': set<Bytes>, h': set<Bytes>, sh': Shadow)
    requires Sound(sum, n, h, sh) && Sound(sum, n', h', sh')
    requires NoCollision(sum, (n + n') + (h + h'))
    ensures Root(sum, sh.world) == Root(sum, sh'.world) <==> sh.view == sh'.view
  {
    hide Encode, SoundStores, Mirrors, Fits, InPlay;
    SoundMore(sum, n, h, n + n', h + h', sh);
    SoundMore(sum, n', h', n + n', h + h', sh');
    NoCollisionLess(sum, n + n', (n + n') + (h + h'));
    RootInjective(sum, sh.world, sh'.world, n + n', KEY_LEN, KEY_LEN);
    if sh.view == sh'.view {
      SameViewSameRoot(sum, n + n', h + h', sh, sh');
    } else if sh.world == sh'.world {
      SameRootSameView(sum, n + n', h + h', sh, sh');
    }
  }

  lemma SameRecord(sum: Bytes -> Hash, n: set<Bytes>, h: set<Bytes>, x: Plain, st: Tree, x': Plain, st': Tree)
    requires SoundStore(sum, n, h, x, st) && SoundStore(sum, n, h, x', st') && NoCollision(sum, n + h)
    requires EncodeAccount(AccountOf(sum, x, st)) == EncodeAccount(AccountOf(sum, x', st'))
    ensures x == x'
  {
    hide Encode, Fits, InPlay, Mirrors, EncodeAccount, DecodeAccount;
    AccountRoundTrip(AccountOf(sum, x, st));
    AccountRoundTrip(AccountOf(sum, x', st'));
    assert AccountOf(sum, x, st) == AccountOf(sum, x', st');
    NoCollisionLess(sum, n, n + h);
    RootInjective(sum, st, st', n, KEY_LEN, KEY_LEN);
    MirrorsInjective(sum, st, x.storage, x'.storage);
  }

  // Updates

  /** One update as callers make it: a record read, changed in balance and nonce and written back, or removed, code set, a word set. */
  datatype Update =
    | Rebalanced(at: Address, balance: uint64, nonce: uint64)
    | Removed(at: Address)
    | Coded(at: Address, code: Bytes)
    | Stored(at: Address, key: Hash, word: Hash)

  function Changed(x: Plain, u: Update): Plain {
    match u
    case Rebalanced(_, b, n) => x.(balance := b, nonce := n)
    case Removed(_) => NOTHING
    case Coded(_, c) => x.(code := c)
    case Stored(_, k, v) => x.(storage := WriteSlot(x.storage, k, v))
  }

  ghost predicate ShapedShadow(sh: Shadow) {
    T.Shaped(sh.world) && forall a | a in sh.stores :: T.Shaped(sh.stores[a])
  }

  ghost function StoreAt(sh: Shadow, a: Address): (st: Tree)
    ensures ShapedShadow(sh) ==> T.Shaped(st)
  {
    if a in sh.stores then sh.stores[a] else T.Empty
  }

  ghost function StoreAfter(sum: Bytes -> Hash, st: Tree, u: Update): (st': Tree)
    requires T.Shaped(st)
    ensures T.Shaped(st')
  {
    match u
    case Rebalanced(_, _, _) => st
    case Removed(_) => T.Empty
    case Coded(_, _) => st
    case Stored(_, k, v) => SlotTree(sum, st, k, v)
  }

  /** What one account written over another makes of both levels. */
  ghost function Rewritten(sum: Bytes -> Hash, sh: Shadow, a: Address, x: Plain, st: Tree): (sh': Shadow)
    requires ShapedShadow(sh) && T.Shaped(st)
    ensures ShapedShadow(sh')
  {
    Shadow(Write(sh.view, a, x), WorldAfter(sum, sh.world, a, x, st), Restore(sh.stores, a, x, st))
  }

  ghost function Step(sum: Bytes -> Hash, sh: Shadow, u: Update): (sh': Shadow)
    requires ShapedShadow(sh)
    ensures ShapedShadow(sh')
  {
    Rewritten(sum, sh, u.at, Changed(Read(sh.view, u.at), u), StoreAfter(sum, StoreAt(sh, u.at), u))
  }

  /** The address, code and storage key that an update hashes. */
  function Keys(u: Update): set<Bytes> {
    {u.at} + (if u.Coded? then {u.code} else {}) + (if u.Stored? then {u.key} else {})
  }

  /** The nodes that writing one entry may store. */
  ghost function EntryTrail(sum: Bytes -> Hash, t: Tree, key: Bytes, v: Option<Bytes>): set<Bytes>
    requires T.Shaped(t)
  {
    match v
    case None => Trail(sum, t, PathOf(sum, key))
    case Some(b) => Encodings(sum, PutShaped(t, PathOf(sum, key), b))
  }

  ghost function WorldTrail(sum: Bytes -> Hash, world: Tree, a: Address, x: Plain, st: Tree): set<Bytes>
    requires T.Shaped(world) && T.Shaped(st)
  {
    EntryTrail(sum, world, a, if x == NOTHING then None else Some(EncodeAccount(AccountOf(sum, x, st))))
  }

  ghost function SlotTrail(sum: Bytes -> Hash, st: Tree, u: Update): set<Bytes>
    requires T.Shaped(st)
  {
    if u.Stored? then EntryTrail(sum, st, u.key, if u.word == ZERO_HASH then None else Some(u.word)) else {}
  }

  /** The nodes that an update may store. */
  ghost function Nodes(sum: Bytes -> Hash, sh: Shadow, u: Update): set<Bytes>
    requires ShapedShadow(sh)
  {
    var st := StoreAt(sh, u.at);
    SlotTrail(sum, st, u) + WorldTrail(sum, sh.world, u.at, Changed(Read(sh.view, u.at), u), StoreAfter(sum, st, u))
  }

  /** Every string that an update puts through the hash. */
  ghost function Fresh(sum: Bytes -> Hash, sh: Shadow, u: Update): set<Bytes>
    requires ShapedShadow(sh)
  {
    Nodes(sum, sh, u) + Keys(u)
  }

  // The database

  /** The code map holds, under its own hash, the code of every account that has some. */
  ghost predicate CodeKept(sum: Bytes -> Hash, h: set<Bytes>, code: map<Hash, Bytes>, v: View) {
    && (forall d | d in code :: code[d] in h && sum(code[d]) == d && |code[d]| > 0)
    && (forall a | a in v && |v[a].code| > 0 :: sum(v[a].code) in code)
  }

  lemma CodeKeptWrite(sum: Bytes -> Hash, h: set<Bytes>, h': set<Bytes>, code: map<Hash, Bytes>, v: View, a: Address, x: Plain)
    requires CodeKept(sum, h, code, v) && h <= h' && (|x.code| > 0 ==> sum(x.code) in code)
    ensures CodeKept(sum, h', code, Write(v, a, x))
  {
  }

  lemma CodeKeptRead(sum: Bytes -> Hash, h: set<Bytes>, code: map<Hash, Bytes>, v: View, a: Address)
    requires CodeKept(sum, h, code, v)
    ensures |Read(v, a).code| > 0 ==> sum(Read(v, a).code) in code
  {
  }

  function AddCode(sum: Bytes -> Hash, code: map<Hash, Bytes>, c: Bytes): map<Hash, Bytes> {
    if |c| == 0 || sum(c) in code then code else code[sum(c) := c]
  }

  lemma CodeKeptAdd(sum: Bytes -> Hash, h: set<Bytes>, code: map<Hash, Bytes>, v: View, c: Bytes)
    requires CodeKept(sum, h, code, v)
    ensures CodeKept(sum, h + {c}, AddCode(sum, code, c), v)
  {
  }

  class MptStateDB {
    const store: NodeStore
    var code: map<Hash, Bytes>
    var root: Hash
    ghost var shadow: Shadow
    /** Addresses, storage keys and code blobs hashed so far. */
    ghost var hashed: set<Bytes>

    /** Every byte string this database has put through the hash. */
    ghost function InUse(): set<Bytes>
      reads this, store
    {
      store.written + hashed
    }

    /** While nothing in use collides, the tries, the code map and the root stand for the view. */
    ghost predicate Valid()
      reads this, store
    {
      && store.Valid() && ShapedShadow(shadow)
      && (NoCollision(store.sum, InUse()) ==>
            && Sound(store.sum, store.written, hashed, shadow) && root == Root(store.sum, shadow.world)
            && Progress(store.nodes, KEY_LEN) && CodeKept(store.sum, hashed, code, shadow.view))
    }

    ghost function View(): View
      reads this
    {
      shadow.view
    }

    ghost function StoreOf(a: Address): (st: Tree)
      reads this
    {
      StoreAt(shadow, a)
    }

    constructor (sum: Bytes -> Hash)
      ensures Valid() && fresh(store) && store.sum == sum && shadow == Shadow(map[], T.Empty, map[]) && InUse() == {}
    {
      store := new NodeStore(sum);
      code := map[];
      root := ZERO_HASH;
      shadow := Shadow(map[], T.Empty, map[]);
      hashed := {};
    }

    method GetAccount(addr: Address) returns (acct: Account)
      requires Valid() && NoCollision(store.sum, InUse())
      ensures NoCollision(store.sum, InUse() + {addr}) ==>
                && SoundStore(store.sum, store.written, hashed, Read(View(), addr), StoreOf(addr))
                && acct == AccountOf(store.sum, Read(View(), addr), StoreOf(addr))
    {
      hide Encode, Decode, NoCollision, Mirrors, Fits, InPlay, EncodeAccount, DecodeAccount;
      SoundRead(store.sum, store.written, hashed, shadow, addr);
      NoCollisionLess(store.sum, store.written, InUse());
      var val := store.Get(root, addr, Some(shadow.world));
      if val.None? {
        acct := EMPTY_ACCOUNT;
      } else {
        acct := DecodeAccount(val.value);
      }
    }

    /** The record now stored for `a`. */
    ghost function Current(a: Address): Account
      requires Valid() && NoCollision(store.sum, InUse())
      reads this, store
    {
      SoundRead(store.sum, store.written, hashed, shadow, a);
      AccountOf(store.sum, Read(View(), a), StoreOf(a))
    }

    method GetCode(addr: Address) returns (c: Bytes)
      requires Valid() && NoCollision(store.sum, InUse())
      ensures NoCollision(store.sum, InUse() + {addr}) ==> c == Read(View(), addr).code
    {
      hide Encode, Decode, Mirrors, Fits, InPlay;
      var acct := GetAccount(addr);
      if acct.codeHash == ZERO_HASH || acct.codeHash !in code {
        return [];
      }
      c := code[acct.codeHash];
    }

    method GetStorage(addr: Address, key: Hash) returns (v: Hash)
      requires Valid() && NoCollision(store.sum, InUse())
      ensures NoCollision(store.sum, InUse() + {addr} + {key}) ==> v == Slot(Read(View(), addr).storage, key)
    {
      hide Encode, Decode, NoCollision, Sound, SoundStore, Mirrors, Progress, CodeKept;
      var acct := GetAccount(addr);
      NoCollisionLess(store.sum, InUse() + {addr}, InUse() + {addr} + {key});
      NoCollisionLess(store.sum, InUse() + {key}, InUse() + {addr} + {key});
      NoCollisionLess(store.sum, store.written, InUse());
      ghost var sure := NoCollision(store.sum, InUse() + {addr} + {key});
      if sure {
        StoreRead(store.sum, store.written, hashed, Read(View(), addr), StoreOf(addr), key);
      }
      if acct.storageRoot == ZERO_HASH {
        return ZERO_HASH;
      }
      ProgressMore(store.nodes, KEY_LEN, MAX_PATH);
      var val := store.Get(acct.storageRoot, key, if sure then Some(StoreOf(addr)) else None);
      if val.None? {
        return ZERO_HASH;
      }
      v := CopyWord(val.value);
    }

    /** The state a mutator leaves, given that nothing in use collides. */
    ghost predicate InStep(sh: Shadow)
      reads this, store
    {
      NoCollision(store.sum, InUse()) ==>
        && Sound(store.sum, store.written, hashed, sh) && root == Root(store.sum, sh.world)
        && Progress(store.nodes, KEY_LEN)
    }

    /** Stores the record at `addr`, or deletes it when it is all zero; it may stand for the plain account `x`. */
    method PutAccount(addr: Address, acct: Account, ghost x: Plain, ghost st: Tree, ghost means: bool, ghost k: int, ghost u: set<Bytes>)
      requires store.Valid() && addr in hashed && InStep(shadow) && ShapedShadow(shadow) && T.Shaped(st)
      requires KEY_LEN <= k <= MAX_PATH && Progress(store.nodes, k)
      requires means && NoCollision(store.sum, InUse()) ==>
                 SoundStore(store.sum, store.written, hashed, x, st) && acct == AccountOf(store.sum, x, st)
      modifies this`root, this`shadow, store
      ensures store.Valid() && old(store.written) <= store.written
      ensures NoCollision(store.sum, InUse()) ==>
                NoCollision(store.sum, old(InUse())) && root == Root(store.sum, WithRecord(store.sum, old(shadow).world, addr, acct))
      ensures means ==> InStep(shadow) && shadow == Rewritten(store.sum, old(shadow), addr, x, st)
      ensures means && old(InUse()) <= u && NoCollision(store.sum, u) && WorldTrail(store.sum, old(shadow).world, addr, x, st) <= u ==>
                store.written <= u
    {
      hide Encode, Decode, NoCollision, Sound, SoundStore, Mirrors, Progress, Fits, InPlay, AccountOf, Write, EncodeAccount,
           Backed, Restore, Trail, Encodings, TrailInPlay;
      ghost var n, sh := store.written, shadow;
      ghost var sure := NoCollision(store.sum, InUse());
      ghost var k' := if Progress(store.nodes, KEY_LEN) then KEY_LEN else k;
      if InUse() <= u { NoCollisionLess(store.sum, InUse(), u); }
      if sure {
        WorldFacts(store.sum, n, hashed, sh);
        NoCollisionLess(store.sum, n, InUse());
        if means { EmptyRecord(store.sum, n, hashed, x, st); }
      }
      if acct == EMPTY_ACCOUNT {
        TrailIsInPlay(store.sum, sh.world, PathOf(store.sum, addr), u);
        root := store.Delete(root, addr, if sure then Some(sh.world) else None, k', u);
      } else {
        EncodingsInPlay(store.sum, PutShaped(sh.world, PathOf(store.sum, addr), EncodeAccount(acct)), u);
        root := store.Put(root, addr, EncodeAccount(acct), if sure then Some(sh.world) else None, k', u);
      }
      NoCollisionLess(store.sum, n + hashed, InUse());
      NoCollisionLess(store.sum, store.written, InUse());
      if means {
        shadow := Rewritten(store.sum, sh, addr, x, st);
        if NoCollision(store.sum, InUse()) {
          SoundMore(store.sum, n, hashed, store.written, hashed, sh);
          StoreMore(store.sum, n, store.written, hashed, x, st);
          SoundWrite(store.sum, store.written, hashed, sh, addr, x, st);
        }
      }
    }

    /** The database after the update `u`, and all that it has hashed. */
    twostate predicate Performed(u: Update)
      requires ShapedShadow(old(shadow))
      reads this, store
    {
      && shadow == Step(store.sum, old(shadow), u) && hashed == old(hashed) + Keys(u) && old(store.written) <= store.written
      && var all := old(InUse()) + Fresh(store.sum, old(shadow), u);
         NoCollision(store.sum, all) ==> InUse() <= all
    }

    /** The record is all zero, or has the code hash and storage root now stored for `a`. */
    ghost predicate Meant(a: Address, acct: Account)
      requires Valid() && NoCollision(store.sum, InUse())
      reads this, store
    {
      acct == EMPTY_ACCOUNT || (acct.codeHash == Current(a).codeHash && acct.storageRoot == Current(a).storageRoot)
    }

    /**
     The record replaces the one in the world trie. A balance and nonce update, where the caller hands back the
     code hash and storage root it read, and a removal, where it hands in the all-zero record and the account goes
     with its code and storage, keep the database in step with a plain view.
     */
    method SetAccount(addr: Address, acct: Account)
      requires Valid() && NoCollision(store.sum, InUse())
      modifies this, store
      ensures NoCollision(store.sum, InUse()) ==>
                root == Root(store.sum, WithRecord(store.sum, old(shadow).world, addr, acct))
      ensures old(Meant(addr, acct)) ==>
                Valid() && Performed(if acct == EMPTY_ACCOUNT then Removed(addr) else Rebalanced(addr, acct.balance, acct.nonce))
      ensures old(Meant(addr, acct)) ==> View() == Write(old(View()), addr, Replaced(Read(old(View()), addr), acct))
    {
      hide Encode, Decode, NoCollision, Sound, SoundStore, Mirrors, Progress, Fits, InPlay, CodeKept, Read, Write, WorldTrail;
      ghost var h, y, st, means := hashed, Read(View(), addr), StoreOf(addr), Meant(addr, acct);
      ghost var x, st' := Replaced(y, acct), if acct == EMPTY_ACCOUNT then T.Empty else st;
      ghost var all := InUse() + Fresh(store.sum, shadow, if acct == EMPTY_ACCOUNT then Removed(addr) else Rebalanced(addr, acct.balance, acct.nonce));
      SoundRead(store.sum, store.written, h, shadow, addr);
      CodeKeptRead(store.sum, h, code, View(), addr);
      hashed := hashed + {addr};
      assert InUse() == old(InUse()) + {addr};
      SoundMore(store.sum, store.written, h, store.written, hashed, shadow);
      CodeKeptWrite(store.sum, h, hashed, code, View(), addr, x);
      if NoCollision(store.sum, InUse()) && means {
        ReplacedSound(store.sum, store.written, h, hashed, y, st, acct);
      }
      PutAccount(addr, acct, x, st', means, KEY_LEN, all);
    }

    method SetCode(addr: Address, newCode: Bytes)
      requires Valid() && NoCollision(store.sum, InUse())
      modifies this, store
      ensures Valid() && Performed(Coded(addr, newCode))
      ensures View() == Write(old(View()), addr, Read(old(View()), addr).(code := newCode))
    {
      hide Encode, Decode, NoCollision, Sound, SoundStore, Mirrors, Progress, Fits, InPlay, CodeKept, Read, Write, WorldTrail,
           EntryTrail, Backed, Root, T.Shaped, AccountOf;
      ghost var h := hashed;
      ghost var y := Read(View(), addr);
      ghost var x := y.(code := newCode);
      ghost var all := InUse() + Fresh(store.sum, shadow, Coded(addr, newCode));
      var acct := GetAccount(addr);
      SoundRead(store.sum, store.written, h, shadow, addr);
      CodeKeptAdd(store.sum, h, code, View(), newCode);
      hashed := hashed + {addr, newCode};
      SoundMore(store.sum, store.written, h, store.written, hashed, shadow);
      NoCollisionLess(store.sum, old(InUse()) + {addr}, InUse());
      if |newCode| == 0 {
        acct := acct.(codeHash := ZERO_HASH);
      } else {
        var d := store.sum(newCode);
        acct := acct.(codeHash := d);
        if d !in code {
          code := code[d := newCode];
        }
      }
      assert code == AddCode(store.sum, old(code), newCode);
      CodeKeptWrite(store.sum, h + {newCode}, hashed, code, View(), addr, x);
      if NoCollision(store.sum, InUse()) {
        RecodedSound(store.sum, store.written, h, hashed, y, x, StoreOf(addr));
        CodeRecord(store.sum, y, newCode, StoreOf(addr));
      }
      PutAccount(addr, acct, x, StoreOf(addr), true, KEY_LEN, all);
    }

    /** The storage trie first, then the account record that carries its new root. */
    method SetStorage(addr: Address, key: Hash, val: Hash)
      requires Valid() && NoCollision(store.sum, InUse())
      modifies this, store
      ensures Valid() && Performed(Stored(addr, key, val))
      ensures var x := Read(old(View()), addr);
              View() == Write(old(View()), addr, x.(storage := WriteSlot(x.storage, key, val)))
    {
      hide Encode, Decode, NoCollision, Sound, SoundStore, Mirrors, Progress, Fits, InPlay, CodeKept, Read, Write,
           WriteSlot, AccountOf, SlotTree, Backed, Root, T.Shaped, WorldTrail, EntryTrail;
      ghost var h, x, st := hashed, Read(View(), addr), StoreOf(addr);
      ghost var x' := x.(storage := WriteSlot(x.storage, key, val));
      ghost var all := InUse() + Fresh(store.sum, shadow, Stored(addr, key, val));
      var acct := GetAccount(addr);
      SoundRead(store.sum, store.written, h, shadow, addr);
      CodeKeptRead(store.sum, h, code, View(), addr);
      hashed := hashed + {addr, key};
      SoundMore(store.sum, store.written, h, store.written, hashed, shadow);
      CodeKeptWrite(store.sum, h, hashed, code, View(), addr, x');
      NoCollisionLess(store.sum, old(InUse()) + {addr}, InUse());
      if NoCollision(store.sum, InUse()) {
        StoreGrown(store.sum, store.written, h, hashed, x, st);
        StoreRecord(store.sum, x, st, x.storage, st);
      }
      var r := WriteTrie(acct.storageRoot, key, val, x, st, all);
      if NoCollision(store.sum, InUse()) {
        StoreRecord(store.sum, x, st, WriteSlot(x.storage, key, val), SlotTree(store.sum, st, key, val));
      }
      PutAccount(addr, acct.(storageRoot := r), x', SlotTree(store.sum, st, key, val), true, 2 * KEY_LEN + 1, all);
    }

    /** Writes or clears one slot of the storage trie `st` below `storageRoot`. */
    method WriteTrie(storageRoot: Hash, key: Hash, val: Hash, ghost x: Plain, ghost st: Tree, ghost u: set<Bytes>) returns (r: Hash)
      requires store.Valid() && Progress(store.nodes, KEY_LEN) && key in hashed && InStep(shadow) && T.Shaped(st)
      requires NoCollision(store.sum, InUse()) ==>
                 SoundStore(store.sum, store.written, hashed, x, st) && storageRoot == Root(store.sum, st)
      modifies store
      ensures store.Valid() && Progress(store.nodes, 2 * KEY_LEN + 1) && old(store.written) <= store.written && InStep(shadow)
      ensures NoCollision(store.sum, InUse()) ==> NoCollision(store.sum, old(InUse()))
      ensures NoCollision(store.sum, InUse()) ==>
                && r == Root(store.sum, SlotTree(store.sum, st, key, val))
                && SoundStore(store.sum, store.written, hashed, x.(storage := WriteSlot(x.storage, key, val)),
                              SlotTree(store.sum, st, key, val))
      ensures var v := if val == ZERO_HASH then None else Some(val);
              old(InUse()) <= u && NoCollision(store.sum, u) && EntryTrail(store.sum, st, key, v) <= u ==> store.written <= u
    {
      hide Encode, Decode, NoCollision, Sound, SoundStore, Mirrors, Progress, Fits, InPlay, WriteSlot, EntryTrail, SlotTree, Backed;
      ghost var n := store.written;
      ghost var sure := NoCollision(store.sum, InUse());
      if InUse() <= u { NoCollisionLess(store.sum, InUse(), u); }
      if sure {
        assert n + hashed == n + hashed + {key};
        StoreRead(store.sum, n, hashed, x, st, key);
      }
      r := WriteEntry(storageRoot, key, val, st, sure, u);
      NoCollisionLess(store.sum, n + hashed, InUse());
      NoCollisionLess(store.sum, store.written, InUse());
      if NoCollision(store.sum, InUse()) {
        SoundMore(store.sum, n, hashed, store.written, hashed, shadow);
        StoreMore(store.sum, n, store.written, hashed, x, st);
        StoreWrite(store.sum, store.written, hashed, x, st, key, val);
      }
    }

    /** Writes or clears one entry below a root that, when `known`, names `st`. */
    method WriteEntry(storageRoot: Hash, key: Hash, val: Hash, ghost st: Tree, ghost known: bool, ghost u: set<Bytes>)
      returns (r: Hash)
      requires store.Valid() && Progress(store.nodes, KEY_LEN) && T.Shaped(st)
      requires known ==> store.Known(Some(st), storageRoot)
      modifies store
      ensures store.Valid() && Progress(store.nodes, 2 * KEY_LEN + 1) && old(store.written) <= store.written
      ensures known && NoCollision(store.sum, store.written) ==>
                Progress(store.nodes, KEY_LEN) && store.Known(Some(SlotTree(store.sum, st, key, val)), r)
      ensures var v := if val == ZERO_HASH then None else Some(val);
              known && old(store.written) <= u && NoCollision(store.sum, u) && EntryTrail(store.sum, st, key, v) <= u ==> store.written <= u
    {
      hide Encode, Decode, NoCollision, Progress, Fits, InPlay, Trail, TrailInPlay, Encodings, Backed, T.Shaped, Root;
      if val == ZERO_HASH {
        TrailIsInPlay(store.sum, st, PathOf(store.sum, key), u);
        r := store.Delete(storageRoot, key, if known then Some(st) else None, KEY_LEN, u);
      } else {
        EncodingsInPlay(store.sum, PutShaped(st, PathOf(store.sum, key), val), u);
        r := store.Put(storageRoot, key, val, if known then Some(st) else None, KEY_LEN, u);
        ProgressMore(store.nodes, KEY_LEN, 2 * KEY_LEN + 1);
      }
    }
  }

  /** A storage slot reads as zero until written. */
  function Slot(s: map<Hash, Hash>, k: Hash): Hash {
    if k in s then s[k] else ZERO_HASH
  }

  lemma WorldFacts(sum: Bytes -> Hash, n: set<Bytes>, h: set<Bytes>, sh: Shadow)
    requires Sound(sum, n, h, sh)
    ensures Fits(sh.world, KEY_LEN) && InPlay(sum, sh.world, n)
  {
  }

  /** The world trie with one record replaced, or deleted when it is all zero. */
  ghost function WithRecord(sum: Bytes -> Hash, world: Tree, a: Address, acct: Account): (world': Tree)
    requires T.Shaped(world)
    ensures T.Shaped(world')
  {
    if acct == EMPTY_ACCOUNT then DelShaped(world, PathOf(sum, a)) else PutShaped(world, PathOf(sum, a), EncodeAccount(acct))
  }

  lemma StoreMore(sum: Bytes -> Hash, n: set<Bytes>, n': set<Bytes>, h: set<Bytes>, x: Plain, st: Tree)
    requires SoundStore(sum, n, h, x, st) && n <= n'
    ensures SoundStore(sum, n', h, x, st)
  {
    InPlayMore(sum, st, n, n');
  }

  lemma StoreGrown(sum: Bytes -> Hash, n: set<Bytes>, h: set<Bytes>, h': set<Bytes>, x: Plain, st: Tree)
    requires SoundStore(sum, n, h, x, st) && h <= h'
    ensures SoundStore(sum, n, h', x, st)
  {
  }

  /** A record with the stored hashes, or the all-zero one, stands for the plain account it leaves. */
  lemma ReplacedSound(sum: Bytes -> Hash, n: set<Bytes>, h: set<Bytes>, h': set<Bytes>, x: Plain, st: Tree, acct: Account)
    requires SoundStore(sum, n, h, x, st) && h <= h'
    requires acct == EMPTY_ACCOUNT
          || acct == AccountOf(sum, x, st).(balance := acct.balance, nonce := acct.nonce)
    ensures var st' := if acct == EMPTY_ACCOUNT then T.Empty else st;
            SoundStore(sum, n, h', Replaced(x, acct), st') && acct == AccountOf(sum, Replaced(x, acct), st')
  {
    hide Mirrors, Fits, InPlay;
    NothingSound(sum, n, h');
  }

  lemma RecodedSound(sum: Bytes -> Hash, n: set<Bytes>, h: set<Bytes>, h': set<Bytes>, x: Plain, x': Plain, st: Tree)
    requires SoundStore(sum, n, h, x, st) && h <= h' && x'.code in h' && x'.storage == x.storage
    ensures SoundStore(sum, n, h', x', st)
  {
  }

  ghost function SlotTree(sum: Bytes -> Hash, st: Tree, k: Hash, v: Hash): (st': Tree)
    requires T.Shaped(st)
    ensures T.Shaped(st')
  {
    if v == ZERO_HASH then DelShaped(st, PathOf(sum, k)) else PutShaped(st, PathOf(sum, k), v)
  }

  /** Writing a slot keeps the storage trie in step with the storage map. */
  lemma StoreWrite(sum: Bytes -> Hash, n: set<Bytes>, h: set<Bytes>, x: Plain, st: Tree, k: Hash, v: Hash)
    requires SoundStore(sum, n, h, x, st) && NoCollision(sum, n + h) && k in h
    requires Fits(SlotTree(sum, st, k, v), KEY_LEN) && InPlay(sum, SlotTree(sum, st, k, v), n)
    ensures SoundStore(sum, n, h, x.(storage := WriteSlot(x.storage, k, v)), SlotTree(sum, st, k, v))
  {
    hide Encode, Mirrors, Fits, InPlay;
    assert Distinct(sum, x.storage, k);
    if v == ZERO_HASH {
      MirrorsDel(sum, st, x.storage, k);
    } else {
      MirrorsPut(sum, st, x.storage, k, v);
    }
  }

  lemma CodeRecord(sum: Bytes -> Hash, x: Plain, c: Bytes, st: Tree)
    requires T.Shaped(st)
    ensures AccountOf(sum, x.(code := c), st) == AccountOf(sum, x, st).(codeHash := if |c| == 0 then ZERO_HASH else sum(c))
  {
  }

  lemma StoreRecord(sum: Bytes -> Hash, x: Plain, st: Tree, s: map<Hash, Hash>, st': Tree)
    requires T.Shaped(st) && T.Shaped(st')
    ensures AccountOf(sum, x.(storage := s), st') == AccountOf(sum, x, st).(storageRoot := Root(sum, st'))
  {
  }

  lemma StoreRead(sum: Bytes -> Hash, n: set<Bytes>, h: set<Bytes>, x: Plain, st: Tree, k: Hash)
    requires SoundStore(sum, n, h, x, st) && NoCollision(sum, n + h + {k})
    ensures Fits(st, KEY_LEN) && InPlay(sum, st, n)
    ensures T.Get(st, PathOf(sum, k)) == if k in x.storage then Some(x.storage[k]) else None
    ensures Root(sum, st) == ZERO_HASH <==> x.storage == map[]
  {
    hide Encode, Mirrors, Fits;
    assert Distinct(sum, x.storage, k);
    MirrorsGet(sum, st, x.storage, k);
    MirrorsEmpty(sum, st, x.storage);
  }

  /** What a reader of the world trie finds at `a`. */
  lemma SoundRead(sum: Bytes -> Hash, n: set<Bytes>, h: set<Bytes>, sh: Shadow, a: Address)
    requires Sound(sum, n, h, sh)
    ensures var x, st := Read(sh.view, a), if a in sh.stores then sh.stores[a] else T.Empty;
            && T.Shaped(st)
            && (NoCollision(sum, n + h + {a}) ==>
                  && SoundStore(sum, n, h, x, st)
                  && (AccountOf(sum, x, st) ==
                        match T.Get(sh.world, PathOf(sum, a)) case None => EMPTY_ACCOUNT case Some(v) => DecodeAccount(v)))
  {
    hide Encode, Decode, Fits, InPlay, Mirrors, EncodeAccount, DecodeAccount;
    if NoCollision(sum, n + h + {a}) {
      assert Distinct(sum, Records(sum, n, h, sh), a);
      MirrorsGet(sum, sh.world, Records(sum, n, h, sh), a);
      if a in sh.view {
        AccountRoundTrip(AccountOf(sum, sh.view[a], sh.stores[a]));
      } else {
        NothingSound(sum, n, h);
      }
    }
  }

  lemma NothingSound(sum: Bytes -> Hash, n: set<Bytes>, h: set<Bytes>)
    ensures SoundStore(sum, n, h, NOTHING, T.Empty)
  {
  }
}
