/**
 The trie-backed database and the plain one hold the same balances, nonces, code and storage after every run
 that removes no account with code or storage (state/mpt.go, state/statedb.go). State roots of accepted blocks
 therefore decide what the plain states of the engine's model say.
 */
module OneView {
  import opened Core
  import opened Merkle
  import opened NodeStore
  import opened State
  import opened MptState
  import opened StateRuns
  import ChainLog
  import ChainLaws

  /** The plain world reads at every account and slot as the trie's view does. */
  ghost predicate Agrees(v: View, w: World) {
    forall a :: AgreesAt(Read(v, a), w, a)
  }

  ghost predicate AgreesAt(x: Plain, w: World, a: Address) {
    && x.balance == AccountAt(w, a).balance && x.nonce == AccountAt(w, a).nonce && x.code == CodeAt(w, a)
    && forall k :: Slot(x.storage, k) == WordAt(w, a, k)
  }

  lemma ReadWritten(v: View, a: Address, x: Plain, b: Address)
    ensures Read(Write(v, a, x), b) == if b == a then x else Read(v, b)
  {
  }

  lemma EmptyAgrees()
    ensures Agrees(map[], World(map[], map[], map[]))
  {
  }

  /** A change at one account that agrees there and leaves the other accounts alone keeps the two in one view. */
  lemma AgreesAfter(v: View, w: World, a: Address, x: Plain, w': World)
    requires Agrees(v, w)
    requires forall b | b != a :: AccountAt(w', b) == AccountAt(w, b) && CodeAt(w', b) == CodeAt(w, b)
    requires forall b, k | b != a :: WordAt(w', b, k) == WordAt(w, b, k)
    ensures Agrees(Write(v, a, x), w') <==> AgreesAt(x, w', a)
  {
    hide Read, Write, AccountAt, CodeAt, WordAt, Slot;
    forall b
      ensures b != a ==> AgreesAt(Read(Write(v, a, x), b), w', b)
    {
      ReadWritten(v, a, x, b);
      assert AgreesAt(Read(v, b), w, b);
    }
    ReadWritten(v, a, x, a);
    if Agrees(Write(v, a, x), w') { assert AgreesAt(Read(Write(v, a, x), a), w', a); }
  }

  ghost predicate Bare(w: World, a: Address) {
    CodeAt(w, a) == [] && forall k :: WordAt(w, a, k) == ZERO_HASH
  }

  /** Records of equal balance and nonce keep the view, exactly unless an all-zero one removes code or storage from the trie. */
  lemma AccountInStep(v: View, w: World, a: Address, acct: Account, acct': Account)
    requires Agrees(v, w) && acct.balance == acct'.balance && acct.nonce == acct'.nonce
    ensures Agrees(Write(v, a, Replaced(Read(v, a), acct)), WithAccount(w, a, acct')) <==> (acct == EMPTY_ACCOUNT ==> Bare(w, a))
  {
    hide Agrees, Read, Write;
    assert AgreesAt(Read(v, a), w, a) by { Observed(v, w, a); }
    var w' := WithAccount(w, a, acct');
    AgreesAfter(v, w, a, Replaced(Read(v, a), acct), w');
    assert forall k :: WordAt(w', a, k) == WordAt(w, a, k);
  }

  lemma Observed(v: View, w: World, a: Address)
    requires Agrees(v, w)
    ensures AgreesAt(Read(v, a), w, a)
  {
    hide AgreesAt, Read;
  }

  lemma CodeInStep(v: View, w: World, a: Address, c: Bytes)
    requires Agrees(v, w)
    ensures Agrees(Write(v, a, Read(v, a).(code := c)), WithCode(w, a, c))
  {
    hide Agrees, Read, Write;
    Observed(v, w, a);
    var w' := WithCode(w, a, c);
    AgreesAfter(v, w, a, Read(v, a).(code := c), w');
    assert forall k :: WordAt(w', a, k) == WordAt(w, a, k);
  }

  lemma WordInStep(v: View, w: World, a: Address, k: Hash, x: Hash)
    requires Agrees(v, w)
    ensures Agrees(Write(v, a, Read(v, a).(storage := WriteSlot(Read(v, a).storage, k, x))), WithWord(w, a, k, x))
  {
    hide Agrees, Read, Write;
    Observed(v, w, a);
    var w' := WithWord(w, a, k, x);
    AgreesAfter(v, w, a, Read(v, a).(storage := WriteSlot(Read(v, a).storage, k, x)), w');
    forall j
      ensures Slot(WriteSlot(Read(v, a).storage, k, x), j) == WordAt(w', a, j)
    {
      assert Slot(Read(v, a).storage, j) == WordAt(w, a, j);
    }
  }

  // Runs

  function OnWorld(w: World, u: Update): World {
    match u
    case Rebalanced(a, b, n) => WithAccount(w, a, AccountAt(w, a).(balance := b, nonce := n))
    case Removed(a) => WithAccount(w, a, EMPTY_ACCOUNT)
    case Coded(a, c) => WithCode(w, a, c)
    case Stored(a, k, y) => WithWord(w, a, k, y)
  }

  /** The plain database after a run of updates. */
  function WorldOf(us: seq<Update>): World {
    if us == [] then World(map[], map[], map[]) else OnWorld(WorldOf(us[..|us| - 1]), us[|us| - 1])
  }

  /** Only accounts without code and storage are ever removed. */
  ghost predicate Tame(us: seq<Update>) {
    forall i | 0 <= i < |us| && us[i].Removed? :: Bare(WorldOf(us[..i]), us[i].at)
  }

  lemma UpdateInStep(v: View, w: World, u: Update)
    requires Agrees(v, w)
    ensures Agrees(Write(v, u.at, Changed(Read(v, u.at), u)), OnWorld(w, u)) <==> (u.Removed? ==> Bare(w, u.at))
  {
    hide Agrees, Read, Write, WriteSlot, WithCode, WithWord, Bare;
    match u
    case Rebalanced(a, b, n) =>
      assert AgreesAt(Read(v, a), w, a) by { Observed(v, w, a); }
      var w' := OnWorld(w, u);
      AgreesAfter(v, w, a, Read(v, a).(balance := b, nonce := n), w');
      assert forall k :: WordAt(w', a, k) == WordAt(w, a, k);
    case Removed(a) => AccountInStep(v, w, a, EMPTY_ACCOUNT, EMPTY_ACCOUNT);
    case Coded(a, c) => CodeInStep(v, w, a, c);
    case Stored(a, k, y) => WordInStep(v, w, a, k, y);
  }

  lemma {:induction false} TameAgrees(us: seq<Update>)
    requires Tame(us)
    ensures Agrees(ViewAfter(us), WorldOf(us))
  {
    hide Agrees, OnWorld, Changed, Bare;
    if us == [] {
      EmptyAgrees();
    } else {
      var us' := us[..|us| - 1];
      assert forall i | 0 <= i < |us'| :: us'[..i] == us[..i];
      TameAgrees(us');
      UpdateInStep(ViewAfter(us'), WorldOf(us'), us[|us| - 1]);
    }
  }

  lemma AgreesTame(us: seq<Update>, i: nat)
    requires i < |us| && us[i].Removed?
    requires Agrees(ViewAfter(us[..i]), WorldOf(us[..i])) && Agrees(ViewAfter(us[..i + 1]), WorldOf(us[..i + 1]))
    ensures Bare(WorldOf(us[..i]), us[i].at)
  {
    hide Agrees, OnWorld, Changed, Bare;
    assert us[..i + 1][..i] == us[..i];
    UpdateInStep(ViewAfter(us[..i]), WorldOf(us[..i]), us[i]);
  }

  ghost predicate AgreeThroughout(us: seq<Update>) {
    forall i | 0 <= i <= |us| :: Agrees(ViewAfter(us[..i]), WorldOf(us[..i]))
  }

  /** Trie-backed and plain database agree at every point of a run if and only if it removes no account with code or storage. */
  lemma RunsAgreeExactly(us: seq<Update>)
    ensures AgreeThroughout(us) <==> Tame(us)
  {
    hide Agrees, Bare, ViewAfter, WorldOf;
    if AgreeThroughout(us) {
      forall i | 0 <= i < |us| && us[i].Removed?
        ensures Bare(WorldOf(us[..i]), us[i].at)
      {
        AgreesTame(us, i);
      }
    }
    if Tame(us) {
      forall i | 0 <= i <= |us|
        ensures Agrees(ViewAfter(us[..i]), WorldOf(us[..i]))
      {
        assert forall j | 0 <= j < i :: us[..i][..j] == us[..j];
        TameAgrees(us[..i]);
      }
    }
  }

  // Roots

  /** Two worlds with the same balances, nonces, code and storage. */
  ghost predicate SamePlain(w: World, w': World) {
    && (forall a :: AccountAt(w, a).balance == AccountAt(w', a).balance && AccountAt(w, a).nonce == AccountAt(w', a).nonce)
    && (forall a :: CodeAt(w, a) == CodeAt(w', a))
    && (forall a, k :: WordAt(w, a, k) == WordAt(w', a, k))
  }

  ghost predicate NoZeroWords(x: Plain) { forall k | k in x.storage :: x.storage[k] != ZERO_HASH }

  lemma SamePlainAccount(x: Plain, y: Plain)
    requires NoZeroWords(x) && NoZeroWords(y) && x.balance == y.balance && x.nonce == y.nonce && x.code == y.code
    requires forall k :: Slot(x.storage, k) == Slot(y.storage, k)
    ensures x == y
  {
    forall k | k in x.storage || k in y.storage
      ensures k in x.storage && k in y.storage && x.storage[k] == y.storage[k]
    {
      assert Slot(x.storage, k) == Slot(y.storage, k);
    }
    assert x.storage == y.storage;
  }

  lemma SoundReads(sum: Bytes -> Hash, n: set<Bytes>, h: set<Bytes>, sh: Shadow, a: Address)
    requires SoundStores(sum, n, h, sh)
    ensures NoZeroWords(Read(sh.view, a)) && (a in sh.view <==> Read(sh.view, a) != NOTHING)
  {
  }

  /** A view has no more in it than it shows. */
  lemma ViewsEqual(sum: Bytes -> Hash, n: set<Bytes>, h: set<Bytes>, sh: Shadow, n': set<Bytes>, h': set<Bytes>, sh': Shadow)
    requires SoundStores(sum, n, h, sh) && SoundStores(sum, n', h', sh')
    requires forall a :: Read(sh.view, a) == Read(sh'.view, a)
    ensures sh.view == sh'.view
  {
    hide SoundStores;
    forall a
      ensures a in sh.view <==> a in sh'.view
      ensures a in sh.view ==> sh.view[a] == sh'.view[a]
    {
      SoundReads(sum, n, h, sh, a);
      SoundReads(sum, n', h', sh', a);
      assert Read(sh.view, a) == Read(sh'.view, a);
    }
  }

  /** The roots of two trie states are equal if and only if the plain worlds in one view with them are the same. */
  lemma RootsDecideWorlds(sum: Bytes -> Hash, n: set<Bytes>, h: set<Bytes>, sh: Shadow, w: World,
                          n': set<Bytes>, h': set<Bytes>, sh': Shadow, w': World)
    requires Sound(sum, n, h, sh) && Sound(sum, n', h', sh') && NoCollision(sum, (n + n') + (h + h'))
    requires Agrees(sh.view, w) && Agrees(sh'.view, w')
    ensures Root(sum, sh.world) == Root(sum, sh'.world) <==> SamePlain(w, w')
  {
    RootsDecideViews(sum, n, h, sh, n', h', sh');
    assert SoundStores(sum, n, h, sh) && SoundStores(sum, n', h', sh');
    hide Sound, SoundStores, NoCollision, Read, AccountAt, CodeAt, WordAt, Slot;
    if sh.view == sh'.view {
      forall a
        ensures AgreesAt(Read(sh.view, a), w, a) && AgreesAt(Read(sh.view, a), w', a)
      {
      }
      SameView(sh.view, w, w');
    }
    if SamePlain(w, w') {
      forall a
        ensures Read(sh.view, a) == Read(sh'.view, a)
      {
        SameAt(sum, n, h, sh, w, n', h', sh', w', a);
      }
      ViewsEqual(sum, n, h, sh, n', h', sh');
    }
  }

  lemma SameView(v: View, w: World, w': World)
    requires Agrees(v, w) && Agrees(v, w')
    ensures SamePlain(w, w')
  {
    hide Read, AccountAt, CodeAt, WordAt, Slot;
    forall a
      ensures AccountAt(w, a).balance == AccountAt(w', a).balance && AccountAt(w, a).nonce == AccountAt(w', a).nonce
      ensures CodeAt(w, a) == CodeAt(w', a)
    {
      Observed(v, w, a);
      Observed(v, w', a);
    }
    forall a, k
      ensures WordAt(w, a, k) == WordAt(w', a, k)
    {
      Observed(v, w, a);
      Observed(v, w', a);
      assert Slot(Read(v, a).storage, k) == WordAt(w, a, k);
    }
  }

  lemma SameAt(sum: Bytes -> Hash, n: set<Bytes>, h: set<Bytes>, sh: Shadow, w: World,
               n': set<Bytes>, h': set<Bytes>, sh': Shadow, w': World, a: Address)
    requires SoundStores(sum, n, h, sh) && SoundStores(sum, n', h', sh')
    requires Agrees(sh.view, w) && Agrees(sh'.view, w') && SamePlain(w, w')
    ensures Read(sh.view, a) == Read(sh'.view, a)
  {
    hide SoundStores, Read, AccountAt, CodeAt, WordAt, Slot, NoZeroWords;
    SoundReads(sum, n, h, sh, a);
    SoundReads(sum, n', h', sh', a);
    Observed(sh.view, w, a);
    Observed(sh'.view, w', a);
    forall k
      ensures Slot(Read(sh.view, a).storage, k) == Slot(Read(sh'.view, a).storage, k)
    {
      assert Slot(Read(sh.view, a).storage, k) == WordAt(w, a, k) == WordAt(w', a, k);
    }
    SamePlainAccount(Read(sh.view, a), Read(sh'.view, a));
  }

  /** Two tame runs end in the same state root exactly when the plain databases after them read the same. */
  lemma RootsOfWorlds(sum: Bytes -> Hash, us: seq<Update>, us': seq<Update>)
    requires NoCollision(sum, After(sum, us).All() + After(sum, us').All()) && Tame(us) && Tame(us')
    ensures Root(sum, After(sum, us).sh.world) == Root(sum, After(sum, us').sh.world) <==> SamePlain(WorldOf(us), WorldOf(us'))
  {
    hide NoCollision, Sound, Agrees, After, ViewAfter, WorldOf, Tame, SamePlain;
    var t, t' := After(sum, us), After(sum, us');
    NoCollisionLess(sum, t.All(), t.All() + t'.All());
    NoCollisionLess(sum, t'.All(), t.All() + t'.All());
    RunSound(sum, us);
    RunSound(sum, us');
    TameAgrees(us);
    TameAgrees(us');
    assert (t.nodes + t'.nodes) + (t.keys + t'.keys) == t.All() + t'.All();
    RootsDecideWorlds(sum, t.nodes, t.keys, t.sh, WorldOf(us), t'.nodes, t'.keys, t'.sh, WorldOf(us'));
  }

  ghost predicate ReadsAlike(w: World, w': World, a: Address, k: Hash) {
    && AccountAt(w, a).balance == AccountAt(w', a).balance && AccountAt(w, a).nonce == AccountAt(w', a).nonce
    && CodeAt(w, a) == CodeAt(w', a) && WordAt(w, a, k) == WordAt(w', a, k)
  }

  lemma AlikeIsSame(w: World, w': World)
    requires forall a, k :: ReadsAlike(w, w', a, k)
    ensures SamePlain(w, w')
  {
    hide AccountAt, CodeAt, WordAt;
    forall a
      ensures AccountAt(w, a).balance == AccountAt(w', a).balance && AccountAt(w, a).nonce == AccountAt(w', a).nonce
      ensures CodeAt(w, a) == CodeAt(w', a)
    {
      assert ReadsAlike(w, w', a, ZERO_HASH);
    }
    forall a, k
      ensures WordAt(w, a, k) == WordAt(w', a, k)
    {
      assert ReadsAlike(w, w', a, k);
    }
  }

  lemma UpdateReads(w: World, u: Update, a: Address, k: Hash)
    requires !u.Removed?
    ensures var acct, acct' := AccountAt(w, a), AccountAt(OnWorld(w, u), a);
            if u.Rebalanced? && u.at == a then acct'.balance == u.balance && acct'.nonce == u.nonce else acct' == acct
    ensures CodeAt(OnWorld(w, u), a) == if u.Coded? && u.at == a then u.code else CodeAt(w, a)
    ensures WordAt(OnWorld(w, u), a, k) == if u.Stored? && u.at == a && u.key == k then u.word else WordAt(w, a, k)
  {
  }

  lemma SameOn(w: World, w': World, u: Update)
    requires SamePlain(w, w') && !u.Removed?
    ensures SamePlain(OnWorld(w, u), OnWorld(w', u))
  {
    hide OnWorld, AccountAt, CodeAt, WordAt;
    forall a, k
      ensures ReadsAlike(OnWorld(w, u), OnWorld(w', u), a, k)
    {
      UpdateReads(w, u, a, k);
      UpdateReads(w', u, a, k);
    }
    AlikeIsSame(OnWorld(w, u), OnWorld(w', u));
  }

  /** A world without the entry that `u` then writes. */
  ghost predicate Lacks(w': World, u: Update, w: World) {
    match u
    case Rebalanced(a, b, n) =>
      a in w.accounts && w.accounts[a].balance == b && w.accounts[a].nonce == n && w' == w.(accounts := w.accounts - {a})
    case Removed(_) => false
    case Coded(a, c) => a in w.code && w.code[a] == c && w' == w.(code := w.code - {a})
    case Stored(a, k, v) => (a, k) in w.storage && w.storage[(a, k)] == v && w' == w.(storage := w.storage - {(a, k)})
  }

  lemma LackReads(w': World, u: Update, w: World, a: Address, k: Hash)
    requires Lacks(w', u, w)
    ensures ReadsAlike(OnWorld(w', u), w, a, k)
  {
    hide OnWorld;
    UpdateReads(w', u, a, k);
  }

  lemma LackSmaller(w': World, u: Update, w: World)
    requires Lacks(w', u, w)
    ensures |w'.accounts| + |w'.code| + |w'.storage| < |w.accounts| + |w.code| + |w.storage|
  {
    match u
    case Rebalanced(a, b, n) => assert w'.accounts.Keys == w.accounts.Keys - {a};
    case Coded(a, c) => assert w'.code.Keys == w.code.Keys - {a};
    case Stored(a, k, v) => assert w'.storage.Keys == w.storage.Keys - {(a, k)};
  }

  lemma LackWritten(w': World, u: Update, w: World)
    requires Lacks(w', u, w)
    ensures SamePlain(OnWorld(w', u), w)
  {
    hide OnWorld, AccountAt, CodeAt, WordAt, Lacks, ReadsAlike, SamePlain;
    forall a, k
      ensures ReadsAlike(OnWorld(w', u), w, a, k)
    {
      LackReads(w', u, w, a, k);
    }
    AlikeIsSame(OnWorld(w', u), w);
  }

  lemma Appended(us: seq<Update>, u: Update, w': World, w: World)
    requires Tame(us) && SamePlain(WorldOf(us), w') && !u.Removed? && SamePlain(OnWorld(w', u), w)
    ensures Tame(us + [u]) && SamePlain(WorldOf(us + [u]), w)
  {
    hide Bare, OnWorld, AccountAt, CodeAt, WordAt;
    assert (us + [u])[..|us|] == us;
    assert forall i | 0 <= i < |us| :: (us + [u])[..i] == us[..i];
    SameOn(WorldOf(us), w', u);
  }

  /** Every plain state is built by some run that removes nothing. */
  lemma {:induction false} EveryWorldIsBuilt(w: World) returns (us: seq<Update>)
    ensures Tame(us) && SamePlain(WorldOf(us), w)
    decreases |w.accounts| + |w.code| + |w.storage|
  {
    hide Tame, SamePlain, OnWorld;
    var w', u := w, Removed(ZERO_ADDRESS);
    if e :| e in w.storage {
      w', u := w.(storage := w.storage - {e}), Stored(e.0, e.1, w.storage[e]);
    } else if a :| a in w.code {
      w', u := w.(code := w.code - {a}), Coded(a, w.code[a]);
    } else if a :| a in w.accounts {
      w', u := w.(accounts := w.accounts - {a}), Rebalanced(a, w.accounts[a].balance, w.accounts[a].nonce);
    } else {
      NothingBuilt(w);
      return [];
    }
    LackSmaller(w', u, w);
    LackWritten(w', u, w);
    us := EveryWorldIsBuilt(w');
    Appended(us, u, w', w);
    us := us + [u];
  }

  lemma NothingBuilt(w: World)
    requires w.accounts == map[] && w.code == map[] && w.storage == map[]
    ensures Tame([]) && SamePlain(WorldOf([]), w)
  {
  }

  /** The tries were built by `us`, and their root is what the chain takes for the state root of `w`. */
  ghost predicate BuiltBy(sum: Bytes -> Hash, us: seq<Update>, w: World, root: Hash) {
    Tame(us) && SamePlain(WorldOf(us), w) && root == Root(sum, After(sum, us).sh.world)
  }

  /** With roots computed by the trie, accepted blocks declare equal state roots if and only if their states are the same. */
  lemma AcceptedRootsDecide(cfg: ChainLog.Config, log: ChainLog.Log, i: nat, j: nat, sum: Bytes -> Hash,
                            us: seq<Update>, us': seq<Update>)
    requires ChainLog.Accepted(cfg, log) && 0 < i < |log| && 0 < j < |log|
    requires NoCollision(sum, After(sum, us).All() + After(sum, us').All())
    requires var w := ChainLog.Replay(cfg, log, i); w.Ok? ==> BuiltBy(sum, us, w.value, cfg.stateRoot(w.value))
    requires var w := ChainLog.Replay(cfg, log, j); w.Ok? ==> BuiltBy(sum, us', w.value, cfg.stateRoot(w.value))
    ensures ChainLog.Replay(cfg, log, i).Ok? && ChainLog.Replay(cfg, log, j).Ok?
    ensures log[i].block.stateRoot == log[j].block.stateRoot
       <==> SamePlain(ChainLog.Replay(cfg, log, i).value, ChainLog.Replay(cfg, log, j).value)
  {
    hide ChainLog.Accepted, ChainLog.Replay, NoCollision, Tame, SamePlain, After, WorldOf;
    ChainLaws.AcceptedIsChecked(cfg, log, i);
    ChainLaws.AcceptedIsChecked(cfg, log, j);
    RootsOfWorlds(sum, us, us');
    SameThrough(WorldOf(us), WorldOf(us'), ChainLog.Replay(cfg, log, i).value, ChainLog.Replay(cfg, log, j).value);
  }

  lemma SameThrough(u: World, u': World, w: World, w': World)
    requires SamePlain(u, w) && SamePlain(u', w')
    ensures SamePlain(u, u') <==> SamePlain(w, w')
  {
    hide AccountAt, CodeAt, WordAt;
  }
}
