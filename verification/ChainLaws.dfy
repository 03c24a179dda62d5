/**
 What holds of every log a chain can have: finality, jailing, votes, the heaviest branch,
 the height index, fees and supply.
 */
module ChainLaws {
  import opened Core
  import opened State
  import opened FeeMarket
  import opened Ledger
  import opened Transition
  import opened Pos
  import opened Votes
  import opened Quorums
  import opened ChainLog

  // Logs and their prefixes

  /** What is known of a block does not change as the log grows. */
  lemma {:induction false} Frozen(cfg: Config, log: Log, n: nat, i: nat)
    requires Tree(log) && i < n <= |log|
    ensures Tree(log[..n]) && Path(log[..n], i) == Path(log, i)
    ensures Td(cfg, log[..n], i) == Td(cfg, log, i)
    ensures Replay(cfg, log[..n], i) == Replay(cfg, log, i)
    decreases i
  {
    hide ApplyBlock, Weight;
    if i > 0 { Frozen(cfg, log, n, log[i].parent); }
  }

  /** Each block passed every check against the log as it was, and its parent is its parent. */
  lemma AcceptedAt(cfg: Config, log: Log, i: nat)
    requires Accepted(cfg, log) && 0 < i < |log|
    ensures Tree(log[..i]) && Verdict(cfg, log[..i], log[i].block).Ok?
    ensures Index(cfg, log[..i], log[i].block.prev) == Some(log[i].parent)
  {
    hide Verdict, Index;
    assert Follows(cfg, log, i);
  }

  /** What the link checks establish. */
  lemma Linked(cfg: Config, log: Log, b: Block)
    requires Tree(log) && Verdict(cfg, log, b).Ok?
    ensures var p := Index(cfg, log, b.prev);
            && p.Some? && p.value < |log| && cfg.hash(log[p.value].block) == b.prev
            && Index(cfg, log, cfg.hash(b)).None?
            && b.height == Add64(log[p.value].block.height, 1)
            && b.baseFee == NextBaseFee(cfg, log[p.value].block)
    ensures SealError(cfg, Ballots(cfg, log), b).None?
    ensures Executed(cfg, Replay(cfg, log, Index(cfg, log, b.prev).value), b).Ok?
  {
  }

  lemma GenesisFirst(cfg: Config, log: Log)
    requires Accepted(cfg, log)
    ensures log[0] == Entry(cfg.genesis, 0)
  {
    hide Follows;
  }

  /** A block and its parent. */
  lemma Child(cfg: Config, log: Log, i: nat)
    requires Accepted(cfg, log) && 0 < i < |log|
    ensures var b, p := log[i].block, log[log[i].parent].block;
            && b.prev == cfg.hash(p) && b.height == Add64(p.height, 1) && b.baseFee == NextBaseFee(cfg, p)
    ensures forall j | 0 <= j < i :: cfg.hash(log[j].block) != cfg.hash(log[i].block)
  {
    hide Accepted, Verdict, NextBaseFee, Add64;
    AcceptedAt(cfg, log, i);
    Linked(cfg, log[..i], log[i].block);
    forall j | 0 <= j < i
      ensures cfg.hash(log[j].block) != cfg.hash(log[i].block)
    {
      assert log[..i][j] == log[j];
    }
  }

  // Heights and paths

  /** A block's height is its distance from genesis, modulo the width of the field. */
  lemma {:induction false} HeightIsDepth(cfg: Config, log: Log, i: nat)
    requires Sane(cfg) && Accepted(cfg, log) && i < |log|
    ensures log[i].block.height == (|Path(log, i)| - 1) % U64
    decreases i
  {
    hide Accepted, NextBaseFee, ValidSet, Add64;
    GenesisFirst(cfg, log);
    if i > 0 {
      var p := log[i].parent;
      Child(cfg, log, i);
      HeightIsDepth(cfg, log, p);
      ModSum(log[p].block.height, |Path(log, p)| - 1, 1);
    }
  }

  /** With heights that cannot wrap, the block at depth `d` of a path has height `d`. */
  lemma {:induction false} PathHeights(cfg: Config, log: Log, i: nat, d: nat)
    requires Sane(cfg) && Accepted(cfg, log) && i < |log| && |Path(log, i)| <= U64 && d < |Path(log, i)|
    ensures log[Path(log, i)[d]].block.height == d
    decreases i
  {
    hide Accepted, ValidSet;
    if d == |Path(log, i)| - 1 {
      HeightIsDepth(cfg, log, i);
    } else {
      PathHeights(cfg, log, log[i].parent, d);
    }
  }

  /** The finality walk is a look-up in the path: heights fall by one at each step, so it ends at height `k`. */
  lemma {:induction false} WalkIsLookup(cfg: Config, log: Log, i: nat, f: Hash, k: uint64)
    requires Sane(cfg) && Accepted(cfg, log) && i < |log| && |Path(log, i)| <= U64
    ensures PassesThrough(cfg, log, i, f, k) <==> k < |Path(log, i)| && cfg.hash(log[Path(log, i)[k]].block) == f
    decreases i
  {
    hide Accepted, ValidSet;
    HeightIsDepth(cfg, log, i);
    if i > 0 { WalkIsLookup(cfg, log, log[i].parent, f, k); }
  }

  /** The height index of a path lists exactly its blocks, by depth. */
  lemma {:induction false} HeightIndexIsPath(cfg: Config, log: Log, i: nat, n: nat)
    requires Sane(cfg) && Accepted(cfg, log) && i < |log| && n <= |Path(log, i)| <= U64
    ensures var m := HeightIndex(cfg, log, Path(log, i)[..n]);
            forall d: uint64 :: (d in m <==> d < n) && (d < n ==> m[d] == cfg.hash(log[Path(log, i)[d]].block))
  {
    hide Accepted, ValidSet, Path;
    if n > 0 {
      HeightIndexIsPath(cfg, log, i, n - 1);
      PathHeights(cfg, log, i, n - 1);
      assert Path(log, i)[..n][..n - 1] == Path(log, i)[..n - 1];
    }
  }

  // The heaviest branch

  /** The difficulties along a path, summed. */
  ghost function DifficultySum(log: Log, p: seq<nat>): nat
    requires forall k | 0 <= k < |p| :: p[k] < |log|
  {
    if |p| == 0 then 0 else DifficultySum(log, p[..|p| - 1]) + log[p[|p| - 1]].block.difficulty
  }

  lemma DifficultyStep(log: Log, q: seq<nat>, i: nat)
    requires i < |log| && forall k | 0 <= k < |q| :: q[k] < |log|
    ensures DifficultySum(log, q + [i]) == DifficultySum(log, q) + log[i].block.difficulty
  {
    assert (q + [i])[..|q|] == q;
  }

  /** Under proof of work total difficulty is the sum of the difficulties along the path, in 64 bits. */
  lemma {:induction false} WorkAdds(cfg: Config, log: Log, i: nat)
    requires Tree(log) && i < |log| && !cfg.pos
    ensures Td(cfg, log, i) == DifficultySum(log, Path(log, i)) % U64
    decreases i
  {
    hide Add64, DifficultySum;
    if i == 0 {
      DifficultyStep(log, [], 0);
      NoDifficulty(log);
      assert [] + [0] == Path(log, 0);
    } else {
      WorkAdds(cfg, log, log[i].parent);
      DifficultyStep(log, Path(log, log[i].parent), i);
      ModSum(Td(cfg, log, log[i].parent), DifficultySum(log, Path(log, log[i].parent)), log[i].block.difficulty);
    }
  }

  lemma NoDifficulty(log: Log)
    ensures DifficultySum(log, []) == 0
  {
  }

  /** Under proof of stake it is the genesis difficulty and one for each block after it. */
  lemma {:induction false} StakeCounts(cfg: Config, log: Log, i: nat)
    requires Tree(log) && i < |log| && cfg.pos
    ensures Td(cfg, log, i) == (log[0].block.difficulty + |Path(log, i)| - 1) % U64
    decreases i
  {
    hide Add64;
    if i > 0 {
      StakeCounts(cfg, log, log[i].parent);
      ModSum(Td(cfg, log, log[i].parent), log[0].block.difficulty + |Path(log, log[i].parent)| - 1, 1);
    }
  }

  /**
   The fork choice: under proof of work, as long as the sums fit 64 bits, the head is the earliest block whose path has
   the largest sum of difficulties; under proof of stake it is the earliest block of the longest path.
   */
  lemma ForkChoice(cfg: Config, log: Log, j: nat)
    requires Tree(log) && j < |log|
    requires !cfg.pos ==> forall i | 0 <= i < |log| :: DifficultySum(log, Path(log, i)) < U64
    requires cfg.pos ==> forall i | 0 <= i < |log| :: log[0].block.difficulty + |Path(log, i)| <= U64
    ensures var h := Head(cfg, log);
            if cfg.pos then |Path(log, j)| <= |Path(log, h)| && (j < h ==> |Path(log, j)| < |Path(log, h)|)
            else
              var x, y := DifficultySum(log, Path(log, j)), DifficultySum(log, Path(log, h));
              x <= y && (j < h ==> x < y)
  {
    hide Td, Path, DifficultySum, Head;
    var h := Head(cfg, log);
    HeadIsEarliestHeaviest(cfg, log, j);
    if cfg.pos {
      StakeCounts(cfg, log, j);
      StakeCounts(cfg, log, h);
    } else {
      WorkAdds(cfg, log, j);
      WorkAdds(cfg, log, h);
    }
  }

  /** The head is the earliest accepted block of maximal total difficulty. */
  lemma {:induction false} HeadIsEarliestHeaviest(cfg: Config, log: Log, j: nat)
    requires Tree(log) && j < |log|
    ensures Td(cfg, log, j) <= Td(cfg, log, Head(cfg, log))
    ensures j < Head(cfg, log) ==> Td(cfg, log, j) < Td(cfg, log, Head(cfg, log))
  {
    hide Td, Path, Replay;
    var n := |log| - 1;
    if n > 0 {
      var h := Head(cfg, log[..n]);
      Frozen(cfg, log, n, h);
      if j < n {
        HeadIsEarliestHeaviest(cfg, log[..n], j);
        Frozen(cfg, log, n, j);
      }
    }
  }

  /** Every accepted block replays. */
  lemma {:induction false} Replays(cfg: Config, log: Log, i: nat)
    requires Accepted(cfg, log) && i < |log|
    ensures Replay(cfg, log, i).Ok?
    ensures i > 0 ==> var b, w := log[i].block, Replay(cfg, log, log[i].parent);
                      && w.Ok? && Executed(cfg, w, b) == Ok(Replay(cfg, log, i).value)
                      && ApplyBlock(cfg.rules, w.value, b.txs, b.height, b.coinbase, b.baseFee)
                         == Ok((Replay(cfg, log, i).value, b.gasUsed)) && b.gasUsed <= cfg.gasLimit
  {
    hide Accepted, Verdict, ApplyBlock;
    if i > 0 {
      AcceptedAt(cfg, log, i);
      Linked(cfg, log[..i], log[i].block);
      Frozen(cfg, log, i, log[i].parent);
    }
  }

  /** What every accepted block carries: matching roots, the chain's id, a valid seal and valid attestations. */
  lemma AcceptedIsChecked(cfg: Config, log: Log, i: nat)
    requires Accepted(cfg, log) && 0 < i < |log|
    ensures var b := log[i].block;
            && cfg.txRoot(b.txs) == b.merkleRoot
            && (forall k | 0 <= k < |b.txs| :: b.txs[k].chainId == cfg.chainId)
            && Replay(cfg, log, i).Ok? && cfg.stateRoot(Replay(cfg, log, i).value) == b.stateRoot
            && (if cfg.pos then SealedBy(cfg, b) else cfg.meetsTarget(cfg.hash(b), b.difficulty))
  {
    hide Accepted, Verdict, ApplyBlock, Replay;
    Replays(cfg, log, i);
    AcceptedAt(cfg, log, i);
    Linked(cfg, log[..i], log[i].block);
    if cfg.pos { Sealed(cfg, Ballots(cfg, log[..i]), log[i].block); }
  }

  /** Signed by the registered validator it names, with every attestation aligned, of the past, registered and signed. */
  ghost predicate SealedBy(cfg: Config, b: Block) {
    && (exists v :: v in cfg.validators && v.address == b.coinbase && cfg.verifyBls(v.pubKey, cfg.signingHash(b), b.proposerSig))
    && (forall k | 0 <= k < |b.txs| && IsAttestation(b.txs[k]) ::
          var a, v := DecodeAttest(b.txs[k].data), Find(cfg.validators, b.txs[k].from);
          && a.Some? && a.value.height % CHECKPOINT_INTERVAL == 0 && a.value.height < b.height
          && v.Some? && cfg.verifyBls(v.value.pubKey, a.value.target, a.value.sig))
  }

  lemma Sealed(cfg: Config, s: Votes, b: Block)
    requires cfg.pos && SealError(cfg, s, b).None?
    ensures SealedBy(cfg, b)
  {
    hide StakeSum, Active, DecodeAttest, Find;
    var active := Active(cfg.validators, s.jailed);
    ActiveSound(cfg.validators, s.jailed);
    SelectSound(active, cfg.seed(b.prev, b.height));
    forall k | 0 <= k < |b.txs|
      ensures AttestationOk(cfg, b.txs[k], b.height)
    {
    }
  }

  /** What is wrong with a block that is refused with error `e`. */
  ghost predicate Faulty(cfg: Config, log: Log, b: Block, e: ChainError)
    requires Tree(log)
  {
    var s, p := Ballots(cfg, log), Index(cfg, log, b.prev);
    match e
    case DuplicateBlock => exists i :: 0 <= i < |log| && cfg.hash(log[i].block) == cfg.hash(b)
    case UnknownParent => forall i | 0 <= i < |log| :: cfg.hash(log[i].block) != b.prev
    case BadHeight => p.Some? && b.height != (log[p.value].block.height + 1) % U64
    case BadBaseFee =>
      var q := log[if p.Some? then p.value else 0].block;
      p.Some? && b.baseFee != ComputeBaseFee(q.baseFee, q.gasUsed, GasTarget(cfg.gasLimit))
    case ConflictsWithFinalized =>
      cfg.pos && s.finalHash != ZERO_HASH && p.Some? && !PassesThrough(cfg, log, p.value, s.finalHash, s.finalHeight)
    case NoActiveValidators => cfg.pos && StakeSum(Active(cfg.validators, s.jailed)) == 0
    case WrongProposer =>
      var v := Select(Active(cfg.validators, s.jailed), cfg.seed(b.prev, b.height));
      cfg.pos && v.Some? && v.value.address != b.coinbase
    case BadProposerSig =>
      cfg.pos && exists v :: v in cfg.validators && v.address == b.coinbase && !cfg.verifyBls(v.pubKey, cfg.signingHash(b), b.proposerSig)
    case BadAttestation => cfg.pos && exists k :: 0 <= k < |b.txs| && IsAttestation(b.txs[k]) && !AttestationOk(cfg, b.txs[k], b.height)
    case BadPoW => !cfg.pos && !cfg.meetsTarget(cfg.hash(b), b.difficulty)
    case BadTxRoot => cfg.txRoot(b.txs) != b.merkleRoot
    case BadChainId => exists k :: 0 <= k < |b.txs| && b.txs[k].chainId != cfg.chainId
    case BadTx(x) =>
      p.Some? && (Replay(cfg, log, p.value) == Err(x) ||
                  (Replay(cfg, log, p.value).Ok? &&
                   ApplyBlock(cfg.rules, Replay(cfg, log, p.value).value, b.txs, b.height, b.coinbase, b.baseFee) == Err(x)))
    case BadGasUsed => Outcome(cfg, log, b).Some? && Outcome(cfg, log, b).value.1 != b.gasUsed
    case BlockGasLimitExceeded => Outcome(cfg, log, b).Some? && Outcome(cfg, log, b).value.1 > cfg.gasLimit
    case BadStateRoot => Outcome(cfg, log, b).Some? && cfg.stateRoot(Outcome(cfg, log, b).value.0) != b.stateRoot
  }

  /** The state and the gas that a block's transactions lead to from its parent. */
  ghost function Outcome(cfg: Config, log: Log, b: Block): Option<(World, uint64)>
    requires Tree(log)
  {
    var p := Index(cfg, log, b.prev);
    if p.None? || Replay(cfg, log, p.value).Err? then None else
    match ApplyBlock(cfg.rules, Replay(cfg, log, p.value).value, b.txs, b.height, b.coinbase, b.baseFee)
    case Err(_) => None
    case Ok(r) => Some(r)
  }

  /** A refused block has the fault that the error names. */
  lemma ErrorsTellTheTruth(cfg: Config, log: Log, b: Block)
    requires Tree(log) && Verdict(cfg, log, b).Err?
    ensures Faulty(cfg, log, b, Verdict(cfg, log, b).error)
  {
    hide Ballots, Replay, ApplyBlock, AttestationOk, Index, PassesThrough, StakeSum, Active, ComputeBaseFee;
    var s := Ballots(cfg, log);
    var e := Verdict(cfg, log, b).error;
    if LinkError(cfg, log, b).None? && SealError(cfg, s, b).Some? && cfg.pos {
      SealFaults(cfg, s, b);
    }
  }

  lemma SealFaults(cfg: Config, s: Votes, b: Block)
    requires cfg.pos && SealError(cfg, s, b).Some?
    ensures var e, active := SealError(cfg, s, b).value, Active(cfg.validators, s.jailed);
            && e in {NoActiveValidators, WrongProposer, BadProposerSig, BadAttestation}
            && (e == NoActiveValidators ==> StakeSum(active) == 0)
            && (e == WrongProposer ==> Select(active, cfg.seed(b.prev, b.height)).Some?
                                       && Select(active, cfg.seed(b.prev, b.height)).value.address != b.coinbase)
            && (e == BadProposerSig ==>
                  exists v :: v in cfg.validators && v.address == b.coinbase && !cfg.verifyBls(v.pubKey, cfg.signingHash(b), b.proposerSig))
            && (e == BadAttestation ==> exists k :: 0 <= k < |b.txs| && IsAttestation(b.txs[k]) && !AttestationOk(cfg, b.txs[k], b.height))
  {
    hide StakeSum, Active, DecodeAttest, Find, Walk;
    var active := Active(cfg.validators, s.jailed);
    ActiveSound(cfg.validators, s.jailed);
    if StakeSum(active) > 0 {
      SelectSound(active, cfg.seed(b.prev, b.height));
    } else {
      assert Select(active, cfg.seed(b.prev, b.height)).None?;
    }
  }

  lemma IndexOf(cfg: Config, log: Log, i: nat)
    requires Accepted(cfg, log) && i < |log|
    ensures Index(cfg, log, cfg.hash(log[i].block)) == Some(i)
  {
    hide Accepted;
    var h := cfg.hash(log[i].block);
    var r := Index(cfg, log, h);
    assert r.Some?;
    if r.value < i {
      Child(cfg, log, i);
    } else if r.value > i {
      Child(cfg, log, r.value);
    }
  }

  /** The root after the transactions alone; a block whose height has wrapped to 0 earns no reward. */
  function Unrewarded(cfg: Config, log: Log, b: Block): Hash
    requires Tree(log)
  {
    match Replay(cfg, log, Head(cfg, log))
    case Err(_) => ZERO_HASH
    case Ok(w) =>
      match ApplyTxs(cfg.rules, w, b.txs, |b.txs|, b.height, b.baseFee)
      case Err(_) => ZERO_HASH
      case Ok(a) => cfg.stateRoot(a.world)
  }

  /** A block built on the head from a candidate root and gas is accepted with exactly those, if its seal is good. */
  lemma CandidateAgrees(cfg: Config, log: Log, b: Block)
    requires Accepted(cfg, log) && cfg.txRoot(b.txs) == b.merkleRoot
    requires b.prev == cfg.hash(log[Head(cfg, log)].block)
    requires LinkError(cfg, log, b).None? && SealError(cfg, Ballots(cfg, log), b).None?
    ensures var c, v := Candidate(cfg, log, b.txs, b.coinbase), Verdict(cfg, log, b);
            && (c.Err? ==> v == Err(c.error))
            && (c.Ok? ==> (v.Ok? <==> b.stateRoot == (if b.height == 0 then Unrewarded(cfg, log, b) else c.value.0)
                                      && b.gasUsed == c.value.1 && c.value.1 <= cfg.gasLimit))
  {
    hide Accepted, Replay, ApplyTxs, Rewarded, Head, NextBaseFee, SealError, Ballots, PassesThrough, Index;
    IndexOf(cfg, log, Head(cfg, log));
    Replays(cfg, log, Head(cfg, log));
  }

  // Votes over whole runs

  lemma {:induction false} BallotsGrow(cfg: Config, log: Log, m: nat, n: nat)
    requires m <= n <= |log|
    ensures Grows(Ballots(cfg, log[..m]), Ballots(cfg, log[..n]))
    decreases n - m
  {
    if m < n {
      hide Grows, Counting;
      BallotsGrow(cfg, log, m, n - 1);
      if n > 1 {
        var s, b := Ballots(cfg, log[..n - 1]), log[n - 1].block;
        assert log[..n][..n - 1] == log[..n - 1];
        CountingGrows(cfg, s, b);
        GrowsFurther(Ballots(cfg, log[..m]), s, Ballots(cfg, log[..n]));
      }
    }
  }

  lemma CountingGrows(cfg: Config, s: Votes, b: Block)
    ensures Grows(s, Counting(cfg, s, b))
  {
    hide RecordAll;
    RecordAllGrows(cfg.validators, s, b.txs, |b.txs|);
  }

  lemma GrowsFurther(s: Votes, t: Votes, u: Votes)
    requires Grows(s, t) && Grows(t, u)
    ensures Grows(s, u)
  {
  }

  /** The tally of every hash is the stake of the recorded votes for it, and only registered validators vote. */
  lemma {:induction false} TallyIsBacking(cfg: Config, log: Log)
    ensures Counted(cfg.validators, Ballots(cfg, log))
  {
    if |log| > 1 {
      hide Counted, RecordAll;
      var s, b := Ballots(cfg, log[..|log| - 1]), log[|log| - 1].block;
      TallyIsBacking(cfg, log[..|log| - 1]);
      RecordAllCounts(cfg.validators, s, b.txs, |b.txs|);
      SameCount(cfg.validators, RecordAll(cfg.validators, s, b.txs, |b.txs|), Ballots(cfg, log));
    }
  }

  lemma SameCount(vs: seq<Validator>, s: Votes, t: Votes)
    ensures s.attested == t.attested && s.stake == t.stake ==> Counted(vs, s) == Counted(vs, t)
  {
  }

  // Finality

  /** In every state the final checkpoint has a recorded vote of its round. */
  lemma {:induction false} FinalWasVoted(cfg: Config, log: Log)
    ensures FinalVoted(Ballots(cfg, log))
  {
    if |log| > 1 {
      hide RecordAll, Propose, FinalVoted;
      var s, b := Ballots(cfg, log[..|log| - 1]), log[|log| - 1].block;
      FinalWasVoted(cfg, log[..|log| - 1]);
      RecordAllFinalVoted(cfg.validators, s, b.txs, |b.txs|);
      ProposeFinalVoted(RecordAll(cfg.validators, s, b.txs, |b.txs|), b.prev, b.coinbase, cfg.hash(b));
    }
  }

  /** In every state two thirds of the stake not jailed stand behind the final checkpoint. */
  lemma {:induction false} FinalIsBacked(cfg: Config, log: Log)
    requires 2 * StakeSum(cfg.validators) < U64
    ensures FinalBacked(cfg.validators, Ballots(cfg, log))
  {
    if |log| > 1 {
      hide RecordAll, Propose, FinalBacked, StakeSum, Counted;
      var before, b := log[..|log| - 1], log[|log| - 1].block;
      var s := Ballots(cfg, before);
      FinalIsBacked(cfg, before);
      TallyIsBacking(cfg, before);
      RecordAllBacked(cfg.validators, s, b.txs, |b.txs|);
      ProposeGrows(RecordAll(cfg.validators, s, b.txs, |b.txs|), b.prev, b.coinbase, cfg.hash(b));
      if cfg.pos { GrownBacked(cfg.validators, RecordAll(cfg.validators, s, b.txs, |b.txs|), Ballots(cfg, log)); }
    }
  }

  lemma ProposeGrows(s: Votes, parent: Hash, who: Address, hash: Hash)
    ensures Grows(s, Propose(s, parent, who, hash)) && Propose(s, parent, who, hash).finalHeight == s.finalHeight
  {
  }

  /** The bookkeeping while block `i` is counted, after the first `k` of its transactions. */
  function During(cfg: Config, log: Log, i: nat, k: nat): Votes
    requires 0 < i < |log| && k <= |log[i].block.txs|
  {
    RecordAll(cfg.validators, Ballots(cfg, log[..i]), log[i].block.txs, k)
  }

  ghost predicate NoLater(i: nat, k: nat, j: nat, l: nat) { i < j || (i == j && k <= l) }

  lemma DuringGrows(cfg: Config, log: Log, i: nat, k: nat, j: nat, l: nat)
    requires cfg.pos && 0 < i < |log| && k <= |log[i].block.txs| && 0 < j < |log| && l <= |log[j].block.txs| && NoLater(i, k, j, l)
    ensures Grows(During(cfg, log, i, k), During(cfg, log, j, l))
  {
    hide RecordAll, Grows, Propose, Ballots;
    var vs, s, txs := cfg.validators, Ballots(cfg, log[..i]), log[i].block.txs;
    if i == j {
      RecordAllGrowsFrom(vs, s, txs, k, l);
    } else {
      var b := log[i].block;
      RecordAllGrowsFrom(vs, s, txs, k, |txs|);
      ProposeGrows(RecordAll(vs, s, txs, |txs|), b.prev, b.coinbase, cfg.hash(b));
      BallotsStep(cfg, log, i);
      BallotsGrow(cfg, log, i + 1, j);
      RecordAllGrows(vs, Ballots(cfg, log[..j]), log[j].block.txs, l);
      GrowsFurther(During(cfg, log, i, k), During(cfg, log, i, |txs|), Ballots(cfg, log[..i + 1]));
      GrowsFurther(During(cfg, log, i, k), Ballots(cfg, log[..i + 1]), Ballots(cfg, log[..j]));
      GrowsFurther(During(cfg, log, i, k), Ballots(cfg, log[..j]), During(cfg, log, j, l));
    }
  }

  lemma BallotsStep(cfg: Config, log: Log, i: nat)
    requires 0 < i < |log|
    ensures Ballots(cfg, log[..i + 1]) == Counting(cfg, Ballots(cfg, log[..i]), log[i].block)
  {
    hide Counting;
    assert log[..i + 1][..i] == log[..i];
  }

  lemma {:induction false} RecordAllGrowsFrom(vs: seq<Validator>, s: Votes, txs: seq<Tx>, k: nat, n: nat)
    requires k <= n <= |txs|
    ensures Grows(RecordAll(vs, s, txs, k), RecordAll(vs, s, txs, n))
    decreases n
  {
    hide VoteOf, Carries, CheckpointRound;
    if k < n { RecordAllGrowsFrom(vs, s, txs, k, n - 1); }
  }

  /**
   Over every run: two targets of one round both pass the two-thirds test, wherever in the run, only if
   twice the stake jailed at these two points together is at least the whole stake.
   */
  lemma TwoTargetsNeedJailing(cfg: Config, log: Log, i: nat, k: nat, j: nat, l: nat, r: uint64, t: Hash, t': Hash)
    requires Sane(cfg) && cfg.pos && 2 * StakeSum(cfg.validators) < U64 && NoLater(i, k, j, l)
    requires 0 < i < |log| && k <= |log[i].block.txs| && 0 < j < |log| && l <= |log[j].block.txs|
    requires Carries(cfg.validators, During(cfg, log, i, k), t) && Carries(cfg.validators, During(cfg, log, j, l), t') && t != t'
    requires OnlyInRound(During(cfg, log, j, l).attested, r, t) && OnlyInRound(During(cfg, log, j, l).attested, r, t')
    ensures 2 * (JailedStake(cfg.validators, During(cfg, log, i, k)) + JailedStake(cfg.validators, During(cfg, log, j, l)))
         >= StakeSum(cfg.validators)
  {
    hide Ballots, RecordAll, StakeSum, Carries, Counted, Grows, OnlyInRound, JailedStake;
    TallyIsBacking(cfg, log[..i]);
    TallyIsBacking(cfg, log[..j]);
    RecordAllCounts(cfg.validators, Ballots(cfg, log[..i]), log[i].block.txs, k);
    RecordAllCounts(cfg.validators, Ballots(cfg, log[..j]), log[j].block.txs, l);
    DuringGrows(cfg, log, i, k, j, l);
    ConflictNeedsJailing(cfg.validators, During(cfg, log, i, k), During(cfg, log, j, l), r, t, t');
  }

  /** A checkpoint that no stored block has ends the chain: nothing further is accepted. */
  lemma LostCheckpointHalts(cfg: Config, log: Log, b: Block)
    requires Tree(log) && cfg.pos && Ballots(cfg, log).finalHash != ZERO_HASH
    requires forall j | 0 <= j < |log| ::
               !(cfg.hash(log[j].block) == Ballots(cfg, log).finalHash && log[j].block.height == Ballots(cfg, log).finalHeight)
    ensures Verdict(cfg, log, b).Err?
  {
    hide Ballots, SealError, Executed, NextBaseFee, Replay;
    var s, p := Ballots(cfg, log), Index(cfg, log, b.prev);
    if p.Some? && PassesThrough(cfg, log, p.value, s.finalHash, s.finalHeight) {
      var j := PassingMeets(cfg, log, p.value, s.finalHash, s.finalHeight);
      assert false;
    }
  }

  ghost predicate OnBranch(cfg: Config, log: Log, i: nat, f: Hash)
    requires Tree(log) && i < |log|
  {
    exists j :: j in Path(log, i) && j < |log| && cfg.hash(log[j].block) == f
  }

  lemma {:induction false} PassingMeets(cfg: Config, log: Log, i: nat, f: Hash, k: uint64) returns (j: nat)
    requires Tree(log) && i < |log| && PassesThrough(cfg, log, i, f, k)
    ensures j in Path(log, i) && j < |log| && cfg.hash(log[j].block) == f && log[j].block.height == k
    decreases i
  {
    if log[i].block.height == k {
      j := i;
    } else {
      j := PassingMeets(cfg, log, log[i].parent, f, k);
    }
  }

  /** A block accepted while a checkpoint is final has it as an ancestor, at the checkpoint's height. */
  lemma Finality(cfg: Config, log: Log, i: nat) returns (j: nat)
    requires Accepted(cfg, log) && cfg.pos && 0 < i < |log| && Ballots(cfg, log[..i]).finalHash != ZERO_HASH
    ensures j in Path(log, log[i].parent) && j in Path(log, i) && j < i
    ensures cfg.hash(log[j].block) == Ballots(cfg, log[..i]).finalHash
    ensures log[j].block.height == Ballots(cfg, log[..i]).finalHeight
  {
    hide Accepted, Ballots, NextBaseFee;
    AcceptedAt(cfg, log, i);
    var s := Ballots(cfg, log[..i]);
    assert PassesThrough(cfg, log[..i], log[i].parent, s.finalHash, s.finalHeight) by {
      hide PassesThrough, SealError, Executed, Index;
    }
    j := PassingMeets(cfg, log[..i], log[i].parent, s.finalHash, s.finalHeight);
    Frozen(cfg, log, i, log[i].parent);
  }

  /** Once the head is on the final checkpoint's branch, every reorganisation keeps it there until another is final. */
  lemma {:induction false} HeadStaysFinal(cfg: Config, log: Log, m: nat, n: nat)
    requires Accepted(cfg, log) && cfg.pos && 0 < m <= n <= |log|
    requires Ballots(cfg, log[..m]).finalHash != ZERO_HASH
    requires Ballots(cfg, log[..m]).finalHeight == Ballots(cfg, log[..n]).finalHeight
    requires OnBranch(cfg, log, Head(cfg, log[..m]), Ballots(cfg, log[..m]).finalHash)
    ensures Ballots(cfg, log[..n]).finalHash == Ballots(cfg, log[..m]).finalHash
    ensures OnBranch(cfg, log, Head(cfg, log[..n]), Ballots(cfg, log[..n]).finalHash)
    decreases n - m
  {
    hide Accepted, Ballots, Path, Head, OnBranch;
    BallotsGrow(cfg, log, m, n);
    if m < n {
      BallotsGrow(cfg, log, m, n - 1);
      BallotsGrow(cfg, log, n - 1, n);
      HeadStaysFinal(cfg, log, m, n - 1);
      HeadStep(cfg, log, n);
      NewcomerOnBranch(cfg, log, n - 1);
    }
  }

  /**
   A block stored while a checkpoint is final descends from it. So a checkpoint that is final next descends from the
   one before if its block was stored after that became final.
   */
  lemma NextFinalDescends(cfg: Config, log: Log, m: nat, n: nat, i: nat)
    requires Accepted(cfg, log) && cfg.pos && 0 < m <= i < n <= |log| && Ballots(cfg, log[..m]).finalHash != ZERO_HASH
    requires cfg.hash(log[i].block) == Ballots(cfg, log[..n]).finalHash
    requires Ballots(cfg, log[..i]).finalHeight == Ballots(cfg, log[..m]).finalHeight
    ensures OnBranch(cfg, log, i, Ballots(cfg, log[..m]).finalHash)
  {
    hide Accepted, Ballots, OnBranch;
    BallotsGrow(cfg, log, m, i);
    NewcomerOnBranch(cfg, log, i);
  }

  lemma {:induction false} PathPrefix(log: Log, i: nat, d: nat)
    requires Tree(log) && i < |log| && d < |Path(log, i)|
    ensures Path(log, Path(log, i)[d]) == Path(log, i)[..d + 1]
    decreases i
  {
    if d < |Path(log, i)| - 1 { PathPrefix(log, log[i].parent, d); }
  }

  /**
   A branch on which block `l` lies, be `l` a later final checkpoint, keeps an earlier one `j` if and only if `l`
   descends from `j`.
   */
  lemma EarlierFinalKept(cfg: Config, log: Log, i: nat, j: nat, l: nat)
    requires Sane(cfg) && Accepted(cfg, log) && i < |log| && j < |log| && l in Path(log, i) && |Path(log, i)| <= U64
    requires log[j].block.height <= log[l].block.height
    ensures j in Path(log, i) <==> j in Path(log, l)
  {
    hide Accepted, Path, ValidSet;
    var p := Path(log, i);
    var d :| 0 <= d < |p| && p[d] == l;
    PathPrefix(log, i, d);
    PathHeights(cfg, log, i, d);
    if j in p {
      var c :| 0 <= c < |p| && p[c] == j;
      PathHeights(cfg, log, i, c);
      assert p[..d + 1][c] == j;
    }
  }

  lemma {:induction false} RecordAllAligned(cfg: Config, s: Votes, b: Block, n: nat)
    requires n <= |b.txs| && s.finalHeight % CHECKPOINT_INTERVAL == 0
    requires forall k | 0 <= k < |b.txs| :: AttestationOk(cfg, b.txs[k], b.height)
    ensures RecordAll(cfg.validators, s, b.txs, n).finalHeight % CHECKPOINT_INTERVAL == 0
  {
    hide Carries, DecodeAttest, Find;
    if n > 0 {
      RecordAllAligned(cfg, s, b, n - 1);
      assert AttestationOk(cfg, b.txs[n - 1], b.height);
    }
  }

  /** In accepted logs only heights at checkpoint distance become final. */
  lemma {:induction false} FinalAligned(cfg: Config, log: Log, n: nat)
    requires Accepted(cfg, log) && cfg.pos && 0 < n <= |log|
    ensures Ballots(cfg, log[..n]).finalHeight % CHECKPOINT_INTERVAL == 0
  {
    hide Accepted, AttestationOk, RecordAll;
    if n > 1 {
      FinalAligned(cfg, log, n - 1);
      AttestedProperly(cfg, log, n - 1);
      BallotsStep(cfg, log, n - 1);
      var b := log[n - 1].block;
      RecordAllAligned(cfg, Ballots(cfg, log[..n - 1]), b, |b.txs|);
    }
  }

  lemma AttestedProperly(cfg: Config, log: Log, i: nat)
    requires Accepted(cfg, log) && cfg.pos && 0 < i < |log|
    ensures forall k | 0 <= k < |log[i].block.txs| :: AttestationOk(cfg, log[i].block.txs[k], log[i].block.height)
  {
    hide Accepted, AttestationOk, Ballots, LinkError, Executed, Select, Active;
    AcceptedAt(cfg, log, i);
  }

  /** At any two points of a run, even within a block, the checkpoints final in one round are the same. */
  lemma OneFinalPerRound(cfg: Config, log: Log, i: nat, k: nat, j: nat, l: nat)
    requires Accepted(cfg, log) && cfg.pos && NoLater(i, k, j, l)
    requires 0 < i < |log| && k <= |log[i].block.txs| && 0 < j < |log| && l <= |log[j].block.txs|
    requires CheckpointRound(During(cfg, log, i, k).finalHeight) == CheckpointRound(During(cfg, log, j, l).finalHeight)
    ensures During(cfg, log, i, k).finalHeight == During(cfg, log, j, l).finalHeight
    ensures During(cfg, log, i, k).finalHash == During(cfg, log, j, l).finalHash
  {
    hide Accepted, AttestationOk, RecordAll, Ballots;
    FinalAligned(cfg, log, i);
    FinalAligned(cfg, log, j);
    AttestedProperly(cfg, log, i);
    AttestedProperly(cfg, log, j);
    RecordAllAligned(cfg, Ballots(cfg, log[..i]), log[i].block, k);
    RecordAllAligned(cfg, Ballots(cfg, log[..j]), log[j].block, l);
    DuringGrows(cfg, log, i, k, j, l);
  }

  lemma HeadStep(cfg: Config, log: Log, n: nat)
    requires Tree(log) && 1 < n <= |log|
    ensures Head(cfg, log[..n]) == n - 1 || Head(cfg, log[..n]) == Head(cfg, log[..n - 1])
  {
    hide Td;
    assert log[..n][..n - 1] == log[..n - 1];
  }

  lemma NewcomerOnBranch(cfg: Config, log: Log, i: nat)
    requires Accepted(cfg, log) && cfg.pos && 0 < i < |log| && Ballots(cfg, log[..i]).finalHash != ZERO_HASH
    ensures OnBranch(cfg, log, i, Ballots(cfg, log[..i]).finalHash)
  {
    hide Accepted, Ballots, Path;
    var j := Finality(cfg, log, i);
  }

  // Jailing

  function AllClaims(cfg: Config, log: Log): Claimed {
    if |log| <= 1 then {} else
    var b := log[|log| - 1].block;
    AllClaims(cfg, log[..|log| - 1]) + Claims(cfg.validators, b.txs, |b.txs|)
  }

  function AllOffers(cfg: Config, log: Log): Offered {
    if |log| <= 1 then {} else
    var b := log[|log| - 1].block;
    AllOffers(cfg, log[..|log| - 1]) + {(b.coinbase, b.prev, cfg.hash(b))}
  }

  lemma {:induction false} BallotsExact(cfg: Config, log: Log)
    requires cfg.pos
    ensures Exact(Ballots(cfg, log), AllClaims(cfg, log), AllOffers(cfg, log))
  {
    if |log| > 1 {
      hide Exact, RecordAll, Propose, Claims;
      var before, b := log[..|log| - 1], log[|log| - 1].block;
      var s := Ballots(cfg, before);
      BallotsExact(cfg, before);
      RecordAllExact(cfg.validators, s, b.txs, |b.txs|, AllClaims(cfg, before), AllOffers(cfg, before));
      ProposeExact(RecordAll(cfg.validators, s, b.txs, |b.txs|), b.prev, b.coinbase, cfg.hash(b),
                   AllClaims(cfg, log), AllOffers(cfg, before));
    }
  }

  /** Some transaction of the block is a vote of `a` for `t` in round `r`. */
  ghost predicate AttestsIn(cfg: Config, b: Block, a: Address, r: uint64, t: Hash) {
    exists k :: 0 <= k < |b.txs| && (var v := VoteOf(cfg.validators, b.txs[k]);
                v.Some? && b.txs[k].from == a && CheckpointRound(v.value.height) == r && v.value.target == t)
  }

  lemma {:induction false} ClaimMeans(cfg: Config, log: Log, a: Address, r: uint64, t: Hash)
    ensures (a, r, t) in AllClaims(cfg, log) <==> exists i :: 0 < i < |log| && AttestsIn(cfg, log[i].block, a, r, t)
  {
    if |log| > 1 {
      hide AttestsIn, Claims;
      var n, b := |log| - 1, log[|log| - 1].block;
      ClaimMeans(cfg, log[..n], a, r, t);
      assert (a, r, t) in Claims(cfg.validators, b.txs, |b.txs|) <==> AttestsIn(cfg, b, a, r, t) by {
        AttestsMean(cfg, b, a, r, t);
      }
      if i :| 0 < i < n && AttestsIn(cfg, log[..n][i].block, a, r, t) {
        assert log[..n][i] == log[i];
      }
      if i :| 0 < i < n && AttestsIn(cfg, log[i].block, a, r, t) {
        assert log[..n][i] == log[i];
      }
    }
  }

  lemma AttestsMean(cfg: Config, b: Block, a: Address, r: uint64, t: Hash)
    ensures (a, r, t) in Claims(cfg.validators, b.txs, |b.txs|) <==> AttestsIn(cfg, b, a, r, t)
  {
    hide Claims, VoteOf, CheckpointRound;
    ClaimsMean(cfg.validators, b.txs, |b.txs|, a, r, t);
  }

  lemma {:induction false} OfferMeans(cfg: Config, log: Log, a: Address, p: Hash, h: Hash)
    ensures (a, p, h) in AllOffers(cfg, log) <==>
            exists i :: 0 < i < |log| && log[i].block.coinbase == a && log[i].block.prev == p && cfg.hash(log[i].block) == h
  {
    if |log| > 1 {
      var n := |log| - 1;
      OfferMeans(cfg, log[..n], a, p, h);
    }
  }

  /** Two accepted blocks by one proposer on one parent. */
  ghost predicate DoubleProposed(log: Log, a: Address) {
    exists i, j :: 0 < i < j < |log| && log[i].block.coinbase == a == log[j].block.coinbase
                && log[i].block.prev == log[j].block.prev
  }

  /** Two accepted votes of one validator in one round for different targets. */
  ghost predicate DoubleAttested(cfg: Config, log: Log, a: Address) {
    exists i, j, r, t, t' :: 0 < i < |log| && 0 < j < |log| && t != t'
                          && AttestsIn(cfg, log[i].block, a, r, t) && AttestsIn(cfg, log[j].block, a, r, t')
  }

  lemma SplitOffers(cfg: Config, log: Log, a: Address)
    requires Accepted(cfg, log)
    ensures Splits(AllOffers(cfg, log), a) <==> DoubleProposed(log, a)
  {
    hide Accepted, AllOffers;
    var offers := AllOffers(cfg, log);
    if Splits(offers, a) {
      var p, x, y :| (a, p, x) in offers && (a, p, y) in offers && x != y;
      OfferMeans(cfg, log, a, p, x);
      OfferMeans(cfg, log, a, p, y);
      var i :| 0 < i < |log| && log[i].block.coinbase == a && log[i].block.prev == p && cfg.hash(log[i].block) == x;
      var j :| 0 < j < |log| && log[j].block.coinbase == a && log[j].block.prev == p && cfg.hash(log[j].block) == y;
      assert i < j || j < i;
    }
    if DoubleProposed(log, a) {
      var i, j :| 0 < i < j < |log| && log[i].block.coinbase == a == log[j].block.coinbase
                && log[i].block.prev == log[j].block.prev;
      var p := log[i].block.prev;
      Child(cfg, log, j);
      OfferMeans(cfg, log, a, p, cfg.hash(log[i].block));
      OfferMeans(cfg, log, a, p, cfg.hash(log[j].block));
    }
  }

  lemma SplitClaims(cfg: Config, log: Log, a: Address)
    ensures Splits(AllClaims(cfg, log), a) <==> DoubleAttested(cfg, log, a)
  {
    hide AllClaims, AttestsIn;
    var claims := AllClaims(cfg, log);
    if Splits(claims, a) {
      var r, t, t' :| (a, r, t) in claims && (a, r, t') in claims && t != t';
      ClaimMeans(cfg, log, a, r, t);
      ClaimMeans(cfg, log, a, r, t');
    }
    if DoubleAttested(cfg, log, a) {
      var i, j, r, t, t' :| 0 < i < |log| && 0 < j < |log| && t != t'
                         && AttestsIn(cfg, log[i].block, a, r, t) && AttestsIn(cfg, log[j].block, a, r, t');
      ClaimMeans(cfg, log, a, r, t);
      ClaimMeans(cfg, log, a, r, t');
    }
  }

  /** A validator is jailed if and only if the accepted blocks hold evidence against it. */
  lemma JailingIsExact(cfg: Config, log: Log, a: Address)
    requires Accepted(cfg, log) && cfg.pos
    ensures a in Ballots(cfg, log).jailed <==> DoubleProposed(log, a) || DoubleAttested(cfg, log, a)
  {
    hide Accepted, Ballots, AllOffers, AllClaims, Splits, DoubleProposed, DoubleAttested;
    BallotsExact(cfg, log);
    SplitOffers(cfg, log, a);
    SplitClaims(cfg, log, a);
  }

  lemma ProposerNotJailed(cfg: Config, s: Votes, b: Block)
    requires cfg.pos && SealError(cfg, s, b).None?
    ensures b.coinbase !in s.jailed
    ensures exists v :: v in cfg.validators && v.address == b.coinbase
  {
    hide AttestationOk, StakeSum, Active;
    var active, seed := Active(cfg.validators, s.jailed), cfg.seed(b.prev, b.height);
    ActiveSound(cfg.validators, s.jailed);
    SelectSound(active, seed);
  }

  /** An accepted block was proposed by the validator in whose range of the active stake the seed of parent and height falls. */
  lemma ProposerOwnsSeed(cfg: Config, log: Log, i: nat) returns (k: nat)
    requires Accepted(cfg, log) && cfg.pos && 0 < i < |log|
    ensures var active, b := Active(cfg.validators, Ballots(cfg, log[..i]).jailed), log[i].block;
            && k < |active| && active[k].address == b.coinbase && StakeSum(active) > 0
            && StakeSum(active[..k]) <= cfg.seed(b.prev, b.height) % StakeSum(active) < StakeSum(active[..k + 1])
  {
    hide Accepted, Ballots, AttestationOk, StakeSum, Active, LinkError, Executed, Walk;
    AcceptedAt(cfg, log, i);
    var b, active := log[i].block, Active(cfg.validators, Ballots(cfg, log[..i]).jailed);
    var seed := cfg.seed(b.prev, b.height);
    SelectSound(active, seed);
    var v := Select(active, seed).value;
    k :| 0 <= k < |active| && v == active[k] && StakeSum(active[..k]) <= seed % StakeSum(active) < StakeSum(active[..k + 1]);
  }

  /** A block's votes are counted before its own proposal is: the first of them stands even if the block jails its caster. */
  lemma VotesBeforeProposal(cfg: Config, s: Votes, b: Block, v: Vote)
    requires cfg.pos && |b.txs| > 0 && VoteOf(cfg.validators, b.txs[0]) == Some(v)
    requires v.Slot() !in s.attested && v.validator.address !in s.jailed
    ensures v.Slot() in Counting(cfg, s, b).attested && Counting(cfg, s, b).attested[v.Slot()] == v.target
  {
    hide VoteOf, Carries, CheckpointRound;
    var t := RecordAll(cfg.validators, s, b.txs, 1);
    assert RecordAll(cfg.validators, s, b.txs, 0) == s;
    assert v.Slot() in t.attested && t.attested[v.Slot()] == v.target;
    RecordAllGrowsFrom(cfg.validators, s, b.txs, 1, |b.txs|);
  }

  /** From its jailing on a validator authors no accepted block and no vote of its is recorded. */
  lemma {:induction false} JailedIsSilent(cfg: Config, log: Log, m: nat, n: nat, a: Address)
    requires Accepted(cfg, log) && cfg.pos && 0 < m <= n <= |log| && a in Ballots(cfg, log[..m]).jailed
    ensures forall i | m <= i < n :: log[i].block.coinbase != a
    ensures forall r | (r, a) in Ballots(cfg, log[..n]).attested :: (r, a) in Ballots(cfg, log[..m]).attested
  {
    hide Accepted, Ballots, SealError, Verdict;
    BallotsGrow(cfg, log, m, n);
    forall i | m <= i < n
      ensures log[i].block.coinbase != a
    {
      BallotsGrow(cfg, log, m, i);
      AcceptedAt(cfg, log, i);
      Linked(cfg, log[..i], log[i].block);
      ProposerNotJailed(cfg, Ballots(cfg, log[..i]), log[i].block);
    }
  }

  // Fees

  function Usages(log: Log, p: seq<nat>): seq<Usage>
    requires forall k | 0 <= k < |p| :: p[k] < |log|
  {
    seq(|p|, k requires 0 <= k < |p| => Usage(log[p[k]].block.baseFee, log[p[k]].block.gasUsed))
  }

  /** Along every accepted branch each fee is dictated by the parent, and usage stays within the limit. */
  lemma {:induction false} BranchFees(cfg: Config, log: Log, i: nat)
    requires Accepted(cfg, log) && i < |log| && cfg.genesis.gasUsed <= cfg.gasLimit
    ensures FeesFollow(Usages(log, Path(log, i)), cfg.gasLimit)
    decreases i
  {
    hide Accepted, ComputeBaseFee, GasTarget;
    GenesisFirst(cfg, log);
    if i > 0 {
      hide FeesFollow, Replay;
      BranchFees(cfg, log, log[i].parent);
      Child(cfg, log, i);
      Replays(cfg, log, i);
      var q, u := Path(log, log[i].parent), Usage(log[i].block.baseFee, log[i].block.gasUsed);
      FeesExtend(Usages(log, q), u, cfg.gasLimit);
      assert Usages(log, Path(log, i)) == Usages(log, q) + [u];
    }
  }

  /** A positive genesis fee stays positive on every accepted branch; a block lowers it by at most an eighth. */
  lemma FeesOnBranch(cfg: Config, log: Log, i: nat)
    requires Accepted(cfg, log) && 0 < i < |log| && cfg.genesis.gasUsed <= cfg.gasLimit && cfg.genesis.baseFee > 0
    requires FeesFit(Usages(log, Path(log, i)), cfg.gasLimit)
    ensures var fee, parent := log[i].block.baseFee, log[log[i].parent].block.baseFee;
            fee >= 1 && parent - parent / 8 <= fee <= parent + MaxRise(parent, cfg.gasLimit)
  {
    hide Accepted, FeesFollow, FeesFit;
    GenesisFirst(cfg, log);
    BranchFees(cfg, log, i);
    var p := Path(log, i);
    assert p == Path(log, log[i].parent) + [i];
    FeesAlongChain(Usages(log, p), cfg.gasLimit, |p| - 1);
  }

  lemma FeesExtend(hs: seq<Usage>, u: Usage, gasLimit: uint64)
    requires |hs| > 0 && FeesFollow(hs, gasLimit) && u.gasUsed <= gasLimit
    requires u.baseFee == ComputeBaseFee(hs[|hs| - 1].baseFee, hs[|hs| - 1].gasUsed, GasTarget(gasLimit))
    ensures FeesFollow(hs + [u], gasLimit)
  {
  }

  // Supply

  /** Block `i` hands no transaction outside. */
  ghost predicate NativeAt(cfg: Config, log: Log, i: nat)
    requires Tree(log) && 0 < i < |log|
  {
    var w, b := Replay(cfg, log, log[i].parent), log[i].block;
    w.Ok? ==> Native(cfg.rules, w.value, b.txs, |b.txs|, b.height, b.baseFee)
  }

  /** No accepted native branch puts code where none of its transactions deploys, such as a reserved address. */
  lemma {:induction false} CodeOnBranch(cfg: Config, log: Log, i: nat, a: Address)
    requires Accepted(cfg, log) && i < |log|
    requires forall k | k in Path(log, i) && 0 < k < |log| :: NativeAt(cfg, log, k) && NeverDeploys(cfg, log[k].block, a)
    ensures Replay(cfg, log, i).Ok? && CodeAt(Replay(cfg, log, i).value, a) == CodeAt(cfg.genesisWorld, a)
    decreases i
  {
    hide Accepted, Native, ApplyTxs, NeverDeploys, CodeAt;
    Replays(cfg, log, i);
    if i > 0 {
      var p, q, b := Path(log, i), Path(log, log[i].parent), log[i].block;
      assert p == q + [i];
      CodeOnBranch(cfg, log, log[i].parent, a);
      assert i in p && NativeAt(cfg, log, i);
      AppliedCode(cfg, Replay(cfg, log, log[i].parent).value, b, a);
    }
  }

  ghost predicate NeverDeploys(cfg: Config, b: Block, a: Address) {
    forall k | 0 <= k < |b.txs| :: !DeploysAt(cfg.rules, b.txs[k], a)
  }

  lemma AppliedCode(cfg: Config, w: World, b: Block, a: Address)
    requires Native(cfg.rules, w, b.txs, |b.txs|, b.height, b.baseFee) && NeverDeploys(cfg, b, a)
    ensures var r := ApplyBlock(cfg.rules, w, b.txs, b.height, b.coinbase, b.baseFee);
            r.Ok? ==> CodeAt(r.value.0, a) == CodeAt(w, a)
  {
    hide Native, ApplyTxs, DeploysAt;
    if ApplyTxs(cfg.rules, w, b.txs, |b.txs|, b.height, b.baseFee).Ok? {
      BlockCode(cfg.rules, w, b.txs, |b.txs|, b.height, b.baseFee, a);
    }
  }

  /** The base fees burnt along a path. */
  ghost function Burnt(log: Log, p: seq<nat>): nat
    requires forall k | 0 <= k < |p| :: p[k] < |log|
  {
    if |p| <= 1 then 0 else
    var b := log[p[|p| - 1]].block;
    Burnt(log, p[..|p| - 1]) + (NotNegative(b.baseFee, b.gasUsed); b.baseFee * b.gasUsed)
  }

  /** Genesis plus one reward a block less the burnt base fees is the supply after any accepted native branch. */
  lemma {:induction false} SupplyAlongBranch(cfg: Config, log: Log, i: nat)
    requires Sane(cfg) && Accepted(cfg, log) && i < |log| && |Path(log, i)| <= U64
    requires Supply(cfg.genesisWorld) + BLOCK_REWARD * (|Path(log, i)| - 1) < U64
    requires forall k | k in Path(log, i) && 0 < k < |log| :: NativeAt(cfg, log, k)
    ensures Replay(cfg, log, i).Ok?
    ensures Supply(Replay(cfg, log, i).value) + Burnt(log, Path(log, i))
         == Supply(cfg.genesisWorld) + BLOCK_REWARD * (|Path(log, i)| - 1)
    decreases i
  {
    hide Accepted, Supply, Native, ApplyBlock, ValidSet;
    Replays(cfg, log, i);
    if i > 0 {
      var p, q, b := Path(log, i), Path(log, log[i].parent), log[i].block;
      assert p[..|p| - 1] == q;
      assert forall k | k in q :: k in p;
      SupplyAlongBranch(cfg, log, log[i].parent);
      HeightIsDepth(cfg, log, i);
      assert i in p && NativeAt(cfg, log, i);
      BlockSupply(cfg.rules, Replay(cfg, log, log[i].parent).value, b.txs, b.height, b.coinbase, b.baseFee);
    }
  }
}
