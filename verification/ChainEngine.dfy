/**
 The chain engine itself (chain/chain.go): maps and fields updated in place. Its one ghost field
 is the log, and `Valid` says that every real field is what the log determines.
 */
module ChainEngine {
  import opened Core
  import opened State
  import opened FeeMarket
  import opened Transition
  import opened Pos
  import opened Votes
  import opened ChainLog
  import opened ChainLaws

  /** The block store holds exactly the blocks of the log, with their total difficulties. */
  ghost predicate Stored(cfg: Config, log: Log, blocks: map<Hash, Block>, td: map<Hash, uint64>)
    requires Tree(log)
  {
    && (forall i | 0 <= i < |log| :: Holds(cfg, log, i, blocks, td))
    && (forall h | h in blocks :: Index(cfg, log, h).Some?)
    && td.Keys == blocks.Keys
  }

  ghost predicate Holds(cfg: Config, log: Log, i: nat, blocks: map<Hash, Block>, td: map<Hash, uint64>)
    requires Tree(log) && i < |log|
  {
    var h := cfg.hash(log[i].block);
    h in blocks && blocks[h] == log[i].block && h in td && td[h] == Td(cfg, log, i)
  }

  /** Looking a hash up in the store is looking it up in the log. */
  lemma Known(cfg: Config, log: Log, blocks: map<Hash, Block>, td: map<Hash, uint64>, h: Hash)
    requires Tree(log) && Stored(cfg, log, blocks, td)
    ensures h in blocks <==> Index(cfg, log, h).Some?
    ensures h in blocks ==> var i := Index(cfg, log, h).value;
                            blocks[h] == log[i].block && h in td && td[h] == Td(cfg, log, i)
  {
    hide Td;
    var r := Index(cfg, log, h);
    if r.Some? { assert Holds(cfg, log, r.value, blocks, td); }
  }

  lemma AcceptedExtends(cfg: Config, log: Log, b: Block)
    requires Accepted(cfg, log) && Verdict(cfg, log, b).Ok?
    ensures Accepted(cfg, Extended(cfg, log, b))
  {
    hide Verdict, Index;
    var log' := Extended(cfg, log, b);
    assert log'[..|log|] == log;
    Linked(cfg, log, b);
    forall i | 0 < i < |log'|
      ensures Follows(cfg, log', i)
    {
      if i < |log| {
        assert Follows(cfg, log, i);
        assert log'[..i] == log[..i];
      }
    }
  }

  lemma StoredExtends(cfg: Config, log: Log, b: Block, blocks: map<Hash, Block>, td: map<Hash, uint64>)
    requires Accepted(cfg, log) && Verdict(cfg, log, b).Ok? && Stored(cfg, log, blocks, td)
    requires b.prev in td
    ensures var h := cfg.hash(b);
            Stored(cfg, Extended(cfg, log, b), blocks[h := b], td[h := Add64(td[b.prev], Weight(cfg, b))])
  {
    hide Accepted, Verdict, Weight, Replay, Path, Holds, Td, Index, Add64;
    var h, log' := cfg.hash(b), Extended(cfg, log, b);
    Linked(cfg, log, b);
    TdExtends(cfg, log, b);
    Known(cfg, log, blocks, td, b.prev);
    var blocks', td' := blocks[h := b], td[h := Add64(td[b.prev], Weight(cfg, b))];
    HoldsNew(cfg, log', |log|, blocks', td');
    forall i | 0 <= i < |log|
      ensures Holds(cfg, log', i, blocks', td')
    {
      assert log'[..|log|] == log;
      Frozen(cfg, log', |log|, i);
      HoldsStill(cfg, log, log', i, blocks, td, h, b, td'[h]);
    }
    forall x | x in blocks'
      ensures Index(cfg, log', x).Some?
    {
      Findable(cfg, log, log', x);
    }
  }

  /** A longer log knows every hash the shorter one did, and that of its last block. */
  lemma Findable(cfg: Config, log: Log, log': Log, h: Hash)
    requires |log'| == |log| + 1 && log'[..|log|] == log
    ensures Index(cfg, log, h).Some? || h == cfg.hash(log'[|log|].block) ==> Index(cfg, log', h).Some?
  {
  }

  lemma TdExtends(cfg: Config, log: Log, b: Block)
    requires Accepted(cfg, log) && Verdict(cfg, log, b).Ok?
    ensures var p := Index(cfg, log, b.prev).value;
            Td(cfg, Extended(cfg, log, b), |log|) == Add64(Td(cfg, log, p), Weight(cfg, b))
  {
    hide Accepted, Verdict, Weight, Replay, Path, Index, Add64;
    var log' := Extended(cfg, log, b);
    Linked(cfg, log, b);
    assert log'[..|log|] == log;
    Frozen(cfg, log', |log|, Index(cfg, log, b.prev).value);
  }

  lemma HoldsNew(cfg: Config, log: Log, i: nat, blocks: map<Hash, Block>, td: map<Hash, uint64>)
    requires Tree(log) && i < |log|
    ensures var h := cfg.hash(log[i].block);
            h in blocks && h in td && blocks[h] == log[i].block && td[h] == Td(cfg, log, i) ==> Holds(cfg, log, i, blocks, td)
  {
  }

  lemma HoldsStill(cfg: Config, log: Log, log': Log, i: nat, blocks: map<Hash, Block>, td: map<Hash, uint64>, h: Hash, b: Block, d: uint64)
    requires Tree(log) && Tree(log') && i < |log| && i < |log'| && log[i] == log'[i] && Td(cfg, log, i) == Td(cfg, log', i)
    requires Holds(cfg, log, i, blocks, td) && cfg.hash(log[i].block) != h
    ensures Holds(cfg, log', i, blocks[h := b], td[h := d])
  {
  }

  ghost function BlocksOn(log: Log, p: seq<nat>): seq<Block>
    requires forall k | 0 <= k < |p| :: p[k] < |log|
  {
    seq(|p|, k requires 0 <= k < |p| => log[p[k]].block)
  }

  ghost function Reversed<T>(s: seq<T>): seq<T> {
    seq(|s|, k requires 0 <= k < |s| => s[|s| - 1 - k])
  }

  /** Consecutive positions of a path are parent and child. */
  lemma {:induction false} PathLinks(log: Log, i: nat, k: nat)
    requires Tree(log) && i < |log| && 0 < k < |Path(log, i)|
    ensures var p := Path(log, i); 0 < p[k] && log[p[k]].parent == p[k - 1]
    decreases i
  {
    if k < |Path(log, i)| - 1 { PathLinks(log, log[i].parent, k); }
  }

  method ReverseInPlace(s: seq<Block>) returns (r: seq<Block>)
    ensures r == Reversed(s)
  {
    r := s;
    var i, j := 0, |s| - 1;
    while i < j
      invariant 0 <= i <= j + 1 && i + j == |s| - 1 && |r| == |s|
      invariant forall k | 0 <= k < i :: r[k] == s[|s| - 1 - k] && r[|s| - 1 - k] == s[k]
      invariant forall k | i <= k <= j :: r[k] == s[k]
    {
      r := r[i := r[j]][j := r[i]];
      i, j := i + 1, j - 1;
    }
    forall k | 0 <= k < |s|
      ensures r[k] == s[|s| - 1 - k]
    {
      if k > j { assert r[|s| - 1 - (|s| - 1 - k)] == s[|s| - 1 - k]; }
    }
  }

  lemma NothingReversed(s: seq<Block>)
    ensures s + Reversed<Block>([]) == s
  {
  }

  lemma OneReversed(s: seq<Block>, b: Block)
    ensures forall t: seq<Block> :: t + Reversed(s + [b]) == (t + [b]) + Reversed(s)
    ensures [b] + Reversed(s) == Reversed(s + [b])
  {
  }

  lemma PathStep(log: Log, i: nat)
    requires Tree(log) && i < |log|
    ensures i == 0 ==> BlocksOn(log, Path(log, i)) == [log[0].block]
    ensures i > 0 ==> BlocksOn(log, Path(log, i)) == BlocksOn(log, Path(log, log[i].parent)) + [log[i].block]
  {
  }

  lemma JustGenesis(cfg: Config)
    ensures var log := [Entry(cfg.genesis, 0)];
            && Accepted(cfg, log) && Head(cfg, log) == 0 && Path(log, 0) == [0]
            && Replay(cfg, log, 0) == Ok(cfg.genesisWorld) && Ballots(cfg, log) == NoVotes()
            && HeightIndex(cfg, log, [0]) == map[cfg.genesis.height := cfg.hash(cfg.genesis)]
            && Stored(cfg, log, map[cfg.hash(cfg.genesis) := cfg.genesis], map[cfg.hash(cfg.genesis) := cfg.genesis.difficulty as uint64])
  {
  }

  lemma TotalKnown(cfg: Config)
    requires Sane(cfg) && cfg.pos
    ensures StakeSum(cfg.validators) < U64
  {
  }

  lemma LinkKnown(cfg: Config, log: Log, b: Block)
    requires Tree(log) && LinkError(cfg, log, b).None?
    ensures Index(cfg, log, b.prev).Some?
  {
  }

  lemma VotesGrown(cfg: Config, log: Log, b: Block)
    requires Tree(log) && Verdict(cfg, log, b).Ok?
    ensures Ballots(cfg, Extended(cfg, log, b)) == Counting(cfg, Ballots(cfg, log), b)
  {
  }

  /** The new block replays to the state its verdict computed. */
  lemma ReplayGrown(cfg: Config, log: Log, b: Block)
    requires Accepted(cfg, log) && Verdict(cfg, log, b).Ok?
    ensures Replay(cfg, Extended(cfg, log, b), |log|) == Ok(Verdict(cfg, log, b).value)
  {
    hide Accepted, Index, LinkError, SealError, Ballots, ApplyBlock, Path, Td;
    var log' := Extended(cfg, log, b);
    assert log'[..|log|] == log;
    Linked(cfg, log, b);
    Frozen(cfg, log', |log|, Index(cfg, log, b.prev).value);
  }

  /** The old head is still what it was, and is compared with the newcomer. */
  lemma HeadGrown(cfg: Config, log: Log)
    requires Tree(log) && |log| > 1
    ensures var n := |log| - 1;
            var before, h := log[..n], Head(cfg, log[..n]);
            && Tree(before) && before[h] == log[h]
            && Replay(cfg, log, h) == Replay(cfg, before, h)
            && HeightIndex(cfg, log, Path(log, h)) == HeightIndex(cfg, before, Path(before, h))
            && Head(cfg, log) == if Td(cfg, log, n) > Td(cfg, log, h) then n else h
  {
    hide Path, Td, HeightIndex, Replay;
    var n := |log| - 1;
    var h := Head(cfg, log[..n]);
    Frozen(cfg, log, n, h);
    SameIndex(cfg, log[..n], log, Path(log, h));
  }

  lemma {:induction false} SameIndex(cfg: Config, log: Log, log': Log, p: seq<nat>)
    requires log <= log' && forall k | 0 <= k < |p| :: p[k] < |log|
    ensures HeightIndex(cfg, log', p) == HeightIndex(cfg, log, p)
  {
    if |p| > 0 { SameIndex(cfg, log, log', p[..|p| - 1]); }
  }

  lemma RecordStep(vs: seq<Validator>, s: Votes, txs: seq<Tx>, i: nat)
    requires i < |txs|
    ensures RecordAll(vs, s, txs, i + 1) == Record(vs, RecordAll(vs, s, txs, i), txs[i])
  {
  }

  lemma TotalFits(vs: seq<Validator>, jailed: set<Address>)
    requires StakeSum(vs) < U64
    ensures StakeSum(Active(vs, jailed)) % U64 == StakeSum(Active(vs, jailed))
  {
    ActiveSound(vs, jailed);
  }

  /** A fresh database holding the genesis allocation. */
  method FundGenesis(w: World) returns (st: StateDB)
    ensures fresh(st) && st.View() == w
  {
    st := new StateDB();
    st.accounts, st.code, st.storage := w.accounts, w.code, w.storage;
  }

  class Engine {
    const cfg: Config
    var blocks: map<Hash, Block>
    var td: map<Hash, uint64>
    var head: Hash
    var headState: StateDB
    var heightIndex: map<uint64, Hash>
    var attested: Ballot
    var stake: map<Hash, uint64>
    var finalHash: Hash
    var finalHeight: uint64
    var jailed: set<Address>
    var proposed: map<(Hash, Address), Hash>
    ghost var log: Log

    ghost function Tallies(): Votes
      reads this
    {
      Votes(attested, stake, finalHash, finalHeight, jailed, proposed)
    }

    ghost predicate Rooted()
      reads this
    {
      Sane(cfg) && Accepted(cfg, log) && Stored(cfg, log, blocks, td)
    }

    ghost predicate HeadRight()
      requires Tree(log)
      reads this, headState
    {
      var h := Head(cfg, log);
      && head == cfg.hash(log[h].block)
      && Replay(cfg, log, h) == Ok(headState.View())
      && heightIndex == HeightIndex(cfg, log, Path(log, h))
    }

    ghost predicate Valid()
      reads this, headState
    {
      Rooted() && HeadRight() && Tallies() == Ballots(cfg, log)
    }

    constructor (cfg: Config)
      requires Sane(cfg)
      ensures Valid() && this.cfg == cfg && log == [Entry(cfg.genesis, 0)] && fresh(headState)
    {
      hide Accepted, Stored, Replay, Path, Head, HeightIndex, Ballots, ValidSet;
      JustGenesis(cfg);
      var st := FundGenesis(cfg.genesisWorld);
      var gh := cfg.hash(cfg.genesis);
      this.cfg := cfg;
      blocks := map[gh := cfg.genesis];
      td := map[gh := cfg.genesis.difficulty as uint64];
      head := gh;
      headState := st;
      heightIndex := map[cfg.genesis.height := gh];
      attested, stake, finalHash, finalHeight, jailed, proposed := map[], map[], ZERO_HASH, 0, {}, map[];
      log := [Entry(cfg.genesis, 0)];
    }

    /** The ancestors of a block, genesis first. */
    method ChainTo(hash: Hash) returns (path: seq<Block>, ok: bool)
      requires Rooted()
      ensures ok <==> Index(cfg, log, hash).Some?
      ensures ok ==> path == BlocksOn(log, Path(log, Index(cfg, log, hash).value))
    {
      hide Accepted, Stored, Td, ValidSet, Path, Reversed, BlocksOn;
      Known(cfg, log, blocks, td, hash);
      GenesisFirst(cfg, log);
      IndexOf(cfg, log, 0);
      ghost var end := if hash in blocks then Index(cfg, log, hash).value else 0;
      ghost var i: nat := end;
      var h, rev: seq<Block> := hash, [];
      NothingReversed(BlocksOn(log, Path(log, end)));
      while true
        invariant i < |log| && if hash in blocks then h == cfg.hash(log[i].block) else h == hash
        invariant BlocksOn(log, Path(log, end)) == BlocksOn(log, Path(log, i)) + Reversed(rev)
        decreases i
      {
        IndexOf(cfg, log, i);
        Known(cfg, log, blocks, td, h);
        if h !in blocks {
          return [], false;
        }
        var b := blocks[h];
        OneReversed(rev, b);
        PathStep(log, i);
        rev := rev + [b];
        if h == cfg.hash(cfg.genesis) {
          break;
        }
        Child(cfg, log, i);
        h := b.prev;
        i := log[i].parent;
      }
      path := ReverseInPlace(rev);
      ok := true;
    }

    /** A fresh database with the state after a stored block, its ancestors replayed from genesis. */
    method DeriveState(hash: Hash) returns (r: Result<StateDB, ChainError>)
      requires Rooted()
      ensures r.Ok? <==> Index(cfg, log, hash).Some?
      ensures r.Ok? ==> fresh(r.value) && Replay(cfg, log, Index(cfg, log, hash).value) == Ok(r.value.View())
      ensures r.Err? ==> r.error == UnknownParent
    {
      hide Accepted, Stored, ValidSet, ApplyBlock, Index, Path;
      var path, ok := ChainTo(hash);
      if !ok {
        return Err(UnknownParent);
      }
      ghost var end := Index(cfg, log, hash).value;
      ghost var p := Path(log, end);
      var st := FundGenesis(cfg.genesisWorld);
      for k := 1 to |path|
        invariant fresh(st) && Replay(cfg, log, p[k - 1]) == Ok(st.View())
      {
        PathLinks(log, end, k);
        Replays(cfg, log, p[k]);
        var b := path[k];
        var e := ApplyBlockRewarded(cfg.rules, st, b.txs, b.height, b.coinbase, b.baseFee);
        assert e.Ok?; // what was accepted replays
      }
      r := Ok(st);
    }

    method ChainIdsMatch(txs: seq<Tx>) returns (ok: bool)
      ensures ok <==> forall i | 0 <= i < |txs| :: txs[i].chainId == cfg.chainId
    {
      for i := 0 to |txs|
        invariant forall k | 0 <= k < i :: txs[k].chainId == cfg.chainId
      {
        if txs[i].chainId != cfg.chainId {
          return false;
        }
      }
      ok := true;
    }

    /** Walks down from the parent to the finalised height. */
    method RespectsFinality(b: Block) returns (e: Option<ChainError>)
      requires Rooted()
      ensures !cfg.pos || finalHash == ZERO_HASH ==> e.None?
      ensures cfg.pos && finalHash != ZERO_HASH ==>
              var p := Index(cfg, log, b.prev);
              e == if p.None? then Some(UnknownParent)
                   else if PassesThrough(cfg, log, p.value, finalHash, finalHeight) then None
                   else Some(ConflictsWithFinalized)
    {
      hide Accepted, Stored, Td, ValidSet, Index;
      if !cfg.pos || finalHash == ZERO_HASH {
        return None;
      }
      Known(cfg, log, blocks, td, b.prev);
      GenesisFirst(cfg, log);
      IndexOf(cfg, log, 0);
      ghost var start := if b.prev in blocks then Index(cfg, log, b.prev).value else 0;
      ghost var i: nat := start;
      var h := b.prev;
      while true
        invariant i < |log| && if b.prev in blocks then h == cfg.hash(log[i].block) else h == b.prev
        invariant PassesThrough(cfg, log, start, finalHash, finalHeight) == PassesThrough(cfg, log, i, finalHash, finalHeight)
        decreases i
      {
        IndexOf(cfg, log, i);
        Known(cfg, log, blocks, td, h);
        if h !in blocks {
          return Some(UnknownParent);
        }
        var blk := blocks[h];
        if blk.height == finalHeight {
          return if h != finalHash then Some(ConflictsWithFinalized) else None;
        }
        if blk.height < finalHeight {
          return Some(ConflictsWithFinalized);
        }
        Child(cfg, log, i);
        h := blk.prev;
        i := log[i].parent;
      }
    }

    method AttestationsVerify(b: Block) returns (ok: bool)
      ensures ok <==> forall i | 0 <= i < |b.txs| :: AttestationOk(cfg, b.txs[i], b.height)
    {
      for i := 0 to |b.txs|
        invariant forall k | 0 <= k < i :: AttestationOk(cfg, b.txs[k], b.height)
      {
        var tx := b.txs[i];
        if !IsAttestation(tx) {
          continue;
        }
        var a := DecodeAttest(tx.data);
        if a.None? || a.value.height % CHECKPOINT_INTERVAL != 0 || a.value.height >= b.height {
          return false;
        }
        var v := ByAddress(cfg.validators, tx.from);
        if v.None? || !cfg.verifyBls(v.value.pubKey, a.value.target, a.value.sig) {
          return false;
        }
      }
      ok := true;
    }

    /** Proposer and attestations under proof of stake, the target otherwise. */
    method CheckSeal(b: Block, hash: Hash) returns (e: Option<ChainError>)
      requires Sane(cfg) && hash == cfg.hash(b)
      ensures e == SealError(cfg, Tallies(), b)
    {
      hide AttestationOk, StakeSum, Active, Select;
      if !cfg.pos {
        return if cfg.meetsTarget(hash, b.difficulty) then None else Some(BadPoW);
      }
      var active, total := EffectiveStake(cfg.validators, jailed);
      var selected := SelectProposer(active, total, cfg.seed(b.prev, b.height));
      if selected.None? {
        return Some(NoActiveValidators);
      }
      if b.coinbase != selected.value.address {
        return Some(WrongProposer);
      }
      if !cfg.verifyBls(selected.value.pubKey, cfg.signingHash(b), b.proposerSig) {
        return Some(BadProposerSig);
      }
      var ok := AttestationsVerify(b);
      e := if ok then None else Some(BadAttestation);
    }

    /** Tallies a block's votes, finalising and jailing as it goes. */
    method RecordAttestations(b: Block)
      requires StakeSum(cfg.validators) < U64
      modifies `attested, `stake, `finalHash, `finalHeight, `jailed
      ensures Tallies() == RecordAll(cfg.validators, old(Tallies()), b.txs, |b.txs|)
    {
      for i := 0 to |b.txs|
        invariant Tallies() == RecordAll(cfg.validators, old(Tallies()), b.txs, i)
      {
        hide RecordAll;
        RecordOne(b.txs[i]);
        RecordStep(cfg.validators, old(Tallies()), b.txs, i);
      }
    }

    method RecordOne(tx: Tx)
      requires StakeSum(cfg.validators) < U64
      modifies `attested, `stake, `finalHash, `finalHeight, `jailed
      ensures Tallies() == Record(cfg.validators, old(Tallies()), tx)
    {
      hide StakeSum, Active, Find;
      if !IsAttestation(tx) {
        return;
      }
      var a := DecodeAttest(tx.data);
      var v := ByAddress(cfg.validators, tx.from);
      if a.None? || v.None? {
        return;
      }
      var slot, target := (CheckpointRound(a.value.height), tx.from), a.value.target;
      if slot in attested {
        if attested[slot] != target {
          jailed := jailed + {tx.from};
        }
        return;
      }
      if tx.from in jailed {
        return;
      }
      attested := attested[slot := target];
      stake := stake[target := Add64(if target in stake then stake[target] else 0, v.value.stake)];
      var active, total := EffectiveStake(cfg.validators, jailed);
      TotalFits(cfg.validators, jailed);
      if a.value.height > finalHeight && Mul64(stake[target], 3) >= Mul64(total, 2) {
        finalHash, finalHeight := target, a.value.height;
      }
    }

    method DetectEquivocation(b: Block, hash: Hash)
      modifies `jailed, `proposed
      ensures Tallies() == Propose(old(Tallies()), b.prev, b.coinbase, hash)
    {
      var slot := (b.prev, b.coinbase);
      if slot in proposed {
        if proposed[slot] != hash {
          jailed := jailed + {b.coinbase};
        }
        return;
      }
      proposed := proposed[slot := hash];
    }

    /** The heights of the head's branch. */
    method RebuildIndex()
      requires Rooted() && Index(cfg, log, head).Some?
      modifies `heightIndex
      ensures heightIndex == HeightIndex(cfg, log, Path(log, Index(cfg, log, head).value))
    {
      hide Accepted, Stored, ValidSet, Index, Path;
      heightIndex := map[];
      var path, ok := ChainTo(head);
      ghost var p := Path(log, Index(cfg, log, head).value);
      for k := 0 to |path|
        invariant heightIndex == HeightIndex(cfg, log, p[..k])
      {
        assert p[..k + 1][..k] == p[..k];
        heightIndex := heightIndex[path[k].height := cfg.hash(path[k])];
      }
      assert p[..|path|] == p;
    }

    /** Duplicate, parent, height, base fee and finality, in that order. */
    method CheckLink(b: Block, hash: Hash) returns (e: Option<ChainError>)
      requires Rooted() && hash == cfg.hash(b) && Tallies() == Ballots(cfg, log)
      ensures e == LinkError(cfg, log, b)
    {
      hide Accepted, Stored, Td, ValidSet, Index, Ballots, PassesThrough, ComputeBaseFee;
      Known(cfg, log, blocks, td, hash);
      Known(cfg, log, blocks, td, b.prev);
      if hash in blocks {
        return Some(DuplicateBlock);
      }
      if b.prev !in blocks {
        return Some(UnknownParent);
      }
      var parent := blocks[b.prev];
      if b.height != Add64(parent.height, 1) {
        return Some(BadHeight);
      }
      if b.baseFee != ComputeBaseFee(parent.baseFee, parent.gasUsed, GasTarget(cfg.gasLimit)) {
        return Some(BadBaseFee);
      }
      e := RespectsFinality(b);
    }

    /** Executes a linked and sealed block on a fresh copy of its parent's state. */
    method ExecuteBlock(b: Block) returns (r: Result<StateDB, ChainError>)
      requires Rooted() && Index(cfg, log, b.prev).Some?
      ensures var x := Executed(cfg, Replay(cfg, log, Index(cfg, log, b.prev).value), b);
              && (r.Ok? ==> fresh(r.value) && x == Ok(r.value.View()))
              && (r.Err? ==> x == Err(r.error))
    {
      hide Accepted, Stored, ValidSet, Index, ApplyBlock;
      if cfg.txRoot(b.txs) != b.merkleRoot {
        return Err(BadTxRoot);
      }
      var ids := ChainIdsMatch(b.txs);
      if !ids {
        return Err(BadChainId);
      }
      var d := DeriveState(b.prev);
      var st := d.value;
      var gas := ApplyBlockRewarded(cfg.rules, st, b.txs, b.height, b.coinbase, b.baseFee);
      if gas.Err? {
        return Err(BadTx(gas.error));
      }
      if gas.value != b.gasUsed {
        return Err(BadGasUsed);
      }
      if gas.value > cfg.gasLimit {
        return Err(BlockGasLimitExceeded);
      }
      if cfg.stateRoot(World(st.accounts, st.code, st.storage)) != b.stateRoot {
        return Err(BadStateRoot);
      }
      r := Ok(st);
    }

    /** Stores an accepted block and counts its votes, whichever branch it is on. */
    method Store(b: Block, hash: Hash)
      requires Rooted() && Tallies() == Ballots(cfg, log) && hash == cfg.hash(b) && Verdict(cfg, log, b).Ok?
      modifies `blocks, `td, `attested, `stake, `finalHash, `finalHeight, `jailed, `proposed, `log
      ensures Rooted() && Tallies() == Ballots(cfg, log) && log == Extended(cfg, old(log), b)
    {
      hide Accepted, Stored, Verdict, Replay, Path, ValidSet, Index, Ballots, Extended, StakeSum;
      Linked(cfg, log, b);
      Known(cfg, log, blocks, td, b.prev);
      AcceptedExtends(cfg, log, b);
      StoredExtends(cfg, log, b, blocks, td);
      VotesGrown(cfg, log, b);
      ghost var log' := Extended(cfg, log, b);
      blocks := blocks[hash := b];
      td := td[hash := Add64(td[b.prev], if cfg.pos then 1 else b.difficulty)];
      if cfg.pos {
        TotalKnown(cfg);
        RecordAttestations(b);
        DetectEquivocation(b, hash);
      }
      log := log';
    }

    /** Moves the head to the newest block if that is strictly heavier. */
    method Reorganise(hash: Hash, st: StateDB)
      requires Rooted() && |log| > 1 && hash == cfg.hash(log[|log| - 1].block)
      requires Replay(cfg, log, |log| - 1) == Ok(st.View())
      requires var before := log[..|log| - 1];
               var h := Head(cfg, before);
               && head == cfg.hash(before[h].block)
               && Replay(cfg, before, h) == Ok(headState.View())
               && heightIndex == HeightIndex(cfg, before, Path(before, h))
      modifies `head, `headState, `heightIndex
      ensures HeadRight() && (headState == old(headState) || headState == st)
    {
      hide Accepted, Stored, Td, Replay, Path, Head, HeightIndex, ValidSet, Index;
      HeadGrown(cfg, log);
      IndexOf(cfg, log, |log| - 1);
      IndexOf(cfg, log, Head(cfg, log[..|log| - 1]));
      Known(cfg, log, blocks, td, hash);
      Known(cfg, log, blocks, td, head);
      if td[hash] > td[head] {
        head := hash;
        headState := st;
        RebuildIndex();
      }
    }

    /** Validates a block against the log and either leaves everything as it was or extends the log by it. */
    method AddBlock(b: Block) returns (e: Option<ChainError>)
      requires Valid()
      modifies this
      ensures Valid() && (headState == old(headState) || fresh(headState))
      ensures var v := Verdict(cfg, old(log), b);
              && (v.Ok? ==> e.None? && log == Extended(cfg, old(log), b))
              && (v.Err? ==> e == Some(v.error) && unchanged(this))
    {
      hide Accepted, Stored, LinkError, SealError, Executed, Replay, Index, Ballots, ValidSet, Head, Path, HeightIndex;
      var hash := cfg.hash(b);
      e := CheckLink(b, hash);
      if e.Some? {
        return;
      }
      e := CheckSeal(b, hash);
      if e.Some? {
        return;
      }
      LinkKnown(cfg, log, b);
      var r := ExecuteBlock(b);
      if r.Err? {
        return Some(r.error);
      }
      ReplayGrown(cfg, log, b);
      assert Extended(cfg, log, b)[..|log|] == log;
      Store(b, hash);
      Reorganise(hash, r.value);
    }

    /** The root and gas that a block of these transactions on the head will be held to. */
    method CandidateStateRoot(txs: seq<Tx>, coinbase: Address) returns (r: Result<(Hash, uint64), ChainError>)
      requires Valid()
      ensures r == Candidate(cfg, log, txs, coinbase)
    {
      hide Accepted, Stored, ValidSet, Index, ApplyTxs, Replay, Head, Ballots, ComputeBaseFee, HeightIndex;
      IndexOf(cfg, log, Head(cfg, log));
      Known(cfg, log, blocks, td, head);
      var d := DeriveState(head);
      var st := d.value;
      var ids := ChainIdsMatch(txs);
      if !ids {
        return Err(BadChainId);
      }
      var parent := blocks[head];
      var height, baseFee := Add64(parent.height, 1), ComputeBaseFee(parent.baseFee, parent.gasUsed, GasTarget(cfg.gasLimit));
      var a := ApplyTxsAt(cfg.rules, st, txs, height, baseFee);
      if a.Err? {
        return Err(BadTx(a.error));
      }
      var m := AccountAt(World(st.accounts, st.code, st.storage), coinbase);
      st.SetAccount(coinbase, m.(balance := Add64(m.balance, Add64(BLOCK_REWARD, a.value.1))));
      r := Ok((cfg.stateRoot(World(st.accounts, st.code, st.storage)), a.value.0));
    }
  }
}
