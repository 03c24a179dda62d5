/**
 Whole runs of the trie-backed database (state/mpt.go). Whatever the sequence of updates, the two levels of
 tries hold exactly the plain maps that the updates make, and the root decides those maps.
 */
module StateRuns {
  import opened Core
  import opened State
  import T = Tree
  import opened Merkle
  import opened NodeStore
  import opened MptState

  type Tree = T.Tree

  const START := Shadow(map[], T.Empty, map[])

  /** Where a run of updates leads: both levels of tries, and the nodes and other strings hashed on the way. */
  datatype Trace = Trace(sh: Shadow, nodes: set<Bytes>, keys: set<Bytes>) {
    ghost function All(): set<Bytes> { nodes + keys }
  }

  ghost function After(sum: Bytes -> Hash, us: seq<Update>): (t: Trace)
    ensures ShapedShadow(t.sh)
  {
    if us == [] then Trace(START, {}, {})
    else
      var t, u := After(sum, us[..|us| - 1]), us[|us| - 1];
      Trace(Step(sum, t.sh, u), t.nodes + Nodes(sum, t.sh, u), t.keys + Keys(u))
  }

  /** The plain maps that a run of updates makes. */
  function ViewAfter(us: seq<Update>): View {
    if us == [] then map[]
    else
      var v, u := ViewAfter(us[..|us| - 1]), us[|us| - 1];
      Write(v, u.at, Changed(Read(v, u.at), u))
  }

  lemma {:induction false} AllGrows(sum: Bytes -> Hash, us: seq<Update>, i: nat)
    requires i <= |us|
    ensures After(sum, us[..i]).All() <= After(sum, us).All()
    decreases |us|
  {
    if i == |us| {
      assert us[..i] == us;
    } else {
      var us' := us[..|us| - 1];
      AllGrows(sum, us', i);
      assert us'[..i] == us[..i];
    }
  }

  // Soundness of runs

  lemma EntryStored(sum: Bytes -> Hash, t: Tree, key: Bytes, v: Option<Bytes>, n: set<Bytes>)
    requires Fits(t, KEY_LEN) && EntryTrail(sum, t, key, v) <= n && (v.Some? ==> |v.value| < 0x1_0000_0000)
    ensures var t' := match v case None => DelShaped(t, PathOf(sum, key)) case Some(b) => PutShaped(t, PathOf(sum, key), b);
            Fits(t', KEY_LEN) && InPlay(sum, t', n)
  {
    hide Fits, InPlay, Encodings;
    var p := PathOf(sum, key);
    match v
    case None =>
      DelFits(t, p, KEY_LEN);
      EncodingsInPlay(sum, DelShaped(t, p), n);
    case Some(b) =>
      PutFits(t, p, b, KEY_LEN);
      EncodingsInPlay(sum, PutShaped(t, p, b), n);
  }

  lemma StoreStep(sum: Bytes -> Hash, n: set<Bytes>, h: set<Bytes>, x: Plain, st: Tree, u: Update)
    requires SoundStore(sum, n, h, x, st) && NoCollision(sum, n + h) && Keys(u) <= h && SlotTrail(sum, st, u) <= n
    ensures SoundStore(sum, n, h, Changed(x, u), StoreAfter(sum, st, u))
  {
    hide Mirrors, NoCollision, InPlay, EntryTrail;
    match u
    case Rebalanced(_, _, _) =>
    case Removed(_) => NothingSound(sum, n, h);
    case Coded(_, c) => RecodedSound(sum, n, h, h, x, Changed(x, u), st);
    case Stored(_, k, v) =>
      EntryStored(sum, st, k, if v == ZERO_HASH then None else Some(v), n);
      StoreWrite(sum, n, h, x, st, k, v);
  }

  /** One update keeps both levels in step with the plain maps. */
  lemma SoundStep(sum: Bytes -> Hash, n: set<Bytes>, h: set<Bytes>, sh: Shadow, u: Update)
    requires Sound(sum, n, h, sh) && ShapedShadow(sh)
    requires NoCollision(sum, (n + Nodes(sum, sh, u)) + (h + Keys(u)))
    ensures Sound(sum, n + Nodes(sum, sh, u), h + Keys(u), Step(sum, sh, u))
  {
    hide Sound, SoundStore, NoCollision, Fits, InPlay, EntryTrail, SlotTrail, Changed, StoreAfter, EncodeAccount, AccountOf;
    var n', h' := n + Nodes(sum, sh, u), h + Keys(u);
    var x, st := Read(sh.view, u.at), StoreAt(sh, u.at);
    SoundMore(sum, n, h, n', h', sh);
    SoundRead(sum, n', h', sh, u.at);
    assert n' + h' + {u.at} == n' + h';
    StoreStep(sum, n', h', x, st, u);
    WorldFacts(sum, n', h', sh);
    var x', st' := Changed(x, u), StoreAfter(sum, st, u);
    EntryStored(sum, sh.world, u.at, if x' == NOTHING then None else Some(EncodeAccount(AccountOf(sum, x', st'))), n');
    SoundWrite(sum, n', h', sh, u.at, x', st');
  }

  /** After any run of updates the tries hold exactly the plain maps. */
  lemma {:induction false} RunSound(sum: Bytes -> Hash, us: seq<Update>)
    requires NoCollision(sum, After(sum, us).All())
    ensures var t := After(sum, us); Sound(sum, t.nodes, t.keys, t.sh) && t.sh.view == ViewAfter(us)
  {
    hide NoCollision, Step, Nodes, Keys;
    if us == [] {
      assert After(sum, us) == Trace(START, {}, {});
      StartSound(sum);
    } else {
      hide Sound;
      var us' := us[..|us| - 1];
      AllGrows(sum, us, |us| - 1);
      NoCollisionLess(sum, After(sum, us').All(), After(sum, us).All());
      RunSound(sum, us');
      SoundStep(sum, After(sum, us').nodes, After(sum, us').keys, After(sum, us').sh, us[|us| - 1]);
      StepView(sum, After(sum, us').sh, us[|us| - 1]);
    }
  }

  lemma StartSound(sum: Bytes -> Hash)
    ensures Sound(sum, {}, {}, START)
  {
  }

  lemma StepView(sum: Bytes -> Hash, sh: Shadow, u: Update)
    requires ShapedShadow(sh)
    ensures Step(sum, sh, u).view == Write(sh.view, u.at, Changed(Read(sh.view, u.at), u))
  {
  }

  /** Two runs end in the same root exactly when they make the same plain maps. */
  lemma RootsOfRuns(sum: Bytes -> Hash, us: seq<Update>, us': seq<Update>)
    requires NoCollision(sum, After(sum, us).All() + After(sum, us').All())
    ensures Root(sum, After(sum, us).sh.world) == Root(sum, After(sum, us').sh.world) <==> ViewAfter(us) == ViewAfter(us')
  {
    hide NoCollision, Sound, After, ViewAfter;
    var t, t' := After(sum, us), After(sum, us');
    NoCollisionLess(sum, t.All(), t.All() + t'.All());
    NoCollisionLess(sum, t'.All(), t.All() + t'.All());
    RunSound(sum, us);
    RunSound(sum, us');
    assert (t.nodes + t'.nodes) + (t.keys + t'.keys) == t.All() + t'.All();
    RootsDecideViews(sum, t.nodes, t.keys, t.sh, t'.nodes, t'.keys, t'.sh);
  }

  // The same runs, on the database

  /** One update through the methods of the database. */
  method Perform(db: MptStateDB, u: Update)
    requires db.Valid() && NoCollision(db.store.sum, db.InUse() + Fresh(db.store.sum, db.shadow, u))
    modifies db, db.store
    ensures db.Valid() && db.shadow == Step(db.store.sum, old(db.shadow), u)
    ensures db.InUse() <= old(db.InUse()) + Fresh(db.store.sum, old(db.shadow), u)
  {
    hide NoCollision, Sound, Step, Nodes, CodeKept;
    ghost var sum, sh, all := db.store.sum, db.shadow, db.InUse() + Fresh(db.store.sum, db.shadow, u);
    NoCollisionLess(sum, db.InUse(), all);
    NoCollisionLess(sum, db.InUse() + {u.at}, all);
    match u
    case Rebalanced(a, b, n) =>
      var acct := db.GetAccount(a);
      acct := acct.(balance := b, nonce := n);
      if acct == EMPTY_ACCOUNT {
        ZeroedIsRemoved(sum, db.store.written, db.hashed, sh, a);
      }
      db.SetAccount(a, acct);
    case Removed(a) => db.SetAccount(a, EMPTY_ACCOUNT);
    case Coded(a, c) => db.SetCode(a, c);
    case Stored(a, k, v) => db.SetStorage(a, k, v);
  }

  /** Zeroing balance and nonce of an account without code and storage removes it. */
  lemma ZeroedIsRemoved(sum: Bytes -> Hash, n: set<Bytes>, h: set<Bytes>, sh: Shadow, a: Address)
    requires Sound(sum, n, h, sh) && ShapedShadow(sh) && NoCollision(sum, n + h + {a})
    requires var acct := AccountOf(sum, Read(sh.view, a), StoreAt(sh, a));
             acct.codeHash == ZERO_HASH && acct.storageRoot == ZERO_HASH
    ensures Step(sum, sh, Rebalanced(a, 0, 0)) == Step(sum, sh, Removed(a))
    ensures Fresh(sum, sh, Rebalanced(a, 0, 0)) == Fresh(sum, sh, Removed(a))
  {
    hide Sound, Fits, InPlay, Mirrors, Encodings, Trail;
    var x, st := Read(sh.view, a), StoreAt(sh, a);
    SoundRead(sum, n, h, sh, a);
    NoCollisionLess(sum, n + h, n + h + {a});
    var x' := Changed(x, Rebalanced(a, 0, 0));
    assert SoundStore(sum, n, h, x', st);
    EmptyRecord(sum, n, h, x', st);
    assert x' == NOTHING;
  }

  /** A new database after any run of calls holds the plain maps, and its root is that of the tries. */
  method PerformAll(sum: Bytes -> Hash, us: seq<Update>) returns (db: MptStateDB)
    requires NoCollision(sum, After(sum, us).All())
    ensures fresh(db) && fresh(db.store) && db.store.sum == sum && db.Valid()
    ensures db.View() == ViewAfter(us) && db.root == Root(sum, After(sum, us).sh.world)
    ensures db.InUse() <= After(sum, us).All()
  {
    hide NoCollision, Sound, Step, Nodes, Keys, CodeKept;
    db := new MptStateDB(sum);
    for i := 0 to |us|
      invariant fresh(db) && fresh(db.store) && db.store.sum == sum && db.Valid()
      invariant db.shadow == After(sum, us[..i]).sh && db.InUse() <= After(sum, us[..i]).All()
    {
      assert us[..i + 1][..i] == us[..i];
      AllGrows(sum, us, i + 1);
      NoCollisionLess(sum, db.InUse() + Fresh(sum, db.shadow, us[i]), After(sum, us).All());
      Perform(db, us[i]);
    }
    assert us[..|us|] == us;
    RunSound(sum, us);
    NoCollisionLess(sum, db.InUse(), After(sum, us).All());
  }
}
