/**
 The chain engine (chain/chain.go) as a function of its history. The log lists the accepted
 blocks in the order of their acceptance, each with the position of its parent; whatever the
 engine keeps (total difficulties, head, head state, votes) is determined by the log.
 */
module ChainLog {
  import opened Core
  import opened State
  import opened FeeMarket
  import opened Transition
  import opened Pos
  import opened Votes

  type uint32 = n: int | 0 <= n < 0x1_0000_0000

  /** A header and its transactions; the hash covers the header. */
  datatype Block = Block(
    height: uint64, prev: Hash, merkleRoot: Hash, stateRoot: Hash, coinbase: Address, timestamp: int,
    difficulty: uint32, nonce: uint64, baseFee: uint64, gasUsed: uint64, proposerSig: Bytes, txs: seq<Tx>)

  /** The settings fixed when a chain is created, with hashing and signatures as given functions. */
  datatype Config = Config(
    rules: Rules,
    hash: Block -> Hash,
    signingHash: Block -> Hash,
    txRoot: seq<Tx> -> Hash,
    stateRoot: World -> Hash,
    verifyBls: (Bytes, Hash, Bytes) -> bool,
    meetsTarget: (Hash, uint32) -> bool,
    seed: (Hash, uint64) -> nat,
    pos: bool,
    validators: seq<Validator>,
    keyOk: Bytes -> bool,
    chainId: uint64,
    gasLimit: uint64,
    genesis: Block,
    genesisWorld: World)

  /** What chain creation guarantees: genesis at height 0, and a registered validator set under proof of stake. */
  ghost predicate Sane(cfg: Config) {
    cfg.genesis.height == 0 && (cfg.pos ==> ValidSet(cfg.validators, cfg.keyOk))
  }

  datatype ChainError =
    | DuplicateBlock | UnknownParent | BadHeight | BadBaseFee | ConflictsWithFinalized
    | NoActiveValidators | WrongProposer | BadProposerSig | BadAttestation | BadPoW
    | BadTxRoot | BadChainId | BadTx(e: TxError) | BadGasUsed | BlockGasLimitExceeded | BadStateRoot

  datatype Entry = Entry(block: Block, parent: nat)

  type Log = seq<Entry>

  /** Parents come first. */
  predicate Tree(log: Log) {
    |log| > 0 && forall i | 0 < i < |log| :: log[i].parent < i
  }

  /** The position of the block with a given hash. */
  function Index(cfg: Config, log: Log, h: Hash): (r: Option<nat>)
    ensures r.Some? ==> r.value < |log| && cfg.hash(log[r.value].block) == h
    ensures r.None? ==> forall i | 0 <= i < |log| :: cfg.hash(log[i].block) != h
  {
    if |log| == 0 then None
    else if cfg.hash(log[|log| - 1].block) == h then Some(|log| - 1)
    else Index(cfg, log[..|log| - 1], h)
  }

  /** The positions from genesis to `i` along parent links. */
  function Path(log: Log, i: nat): (p: seq<nat>)
    requires Tree(log) && i < |log|
    ensures |p| > 0 && p[0] == 0 && p[|p| - 1] == i
    ensures forall k | 0 <= k < |p| :: p[k] < |log|
  {
    if i == 0 then [0] else Path(log, log[i].parent) + [i]
  }

  function Weight(cfg: Config, b: Block): uint64 { if cfg.pos then 1 else b.difficulty }

  /** Cumulative difficulty, in 64 bits. */
  function Td(cfg: Config, log: Log, i: nat): uint64
    requires Tree(log) && i < |log|
  {
    if i == 0 then log[0].block.difficulty
    else Add64(Td(cfg, log, log[i].parent), Weight(cfg, log[i].block))
  }

  /** The head moves only to a strictly heavier block. */
  function Head(cfg: Config, log: Log): (h: nat)
    requires Tree(log)
    ensures h < |log|
  {
    var n := |log| - 1;
    if n == 0 then 0 else
    var h := Head(cfg, log[..n]);
    if Td(cfg, log, n) > Td(cfg, log, h) then n else h
  }

  /** The state after block `i`: its ancestors replayed from genesis. */
  function Replay(cfg: Config, log: Log, i: nat): Result<World, TxError>
    requires Tree(log) && i < |log|
  {
    if i == 0 then Ok(cfg.genesisWorld) else
    match Replay(cfg, log, log[i].parent)
    case Err(e) => Err(e)
    case Ok(w) =>
      var b := log[i].block;
      match ApplyBlock(cfg.rules, w, b.txs, b.height, b.coinbase, b.baseFee)
      case Err(e) => Err(e)
      case Ok((w', gas)) => Ok(w')
  }

  /** The vote bookkeeping after one more accepted block. */
  function Counting(cfg: Config, s: Votes, b: Block): Votes {
    if cfg.pos then Propose(RecordAll(cfg.validators, s, b.txs, |b.txs|), b.prev, b.coinbase, cfg.hash(b)) else s
  }

  function Ballots(cfg: Config, log: Log): Votes {
    if |log| <= 1 then NoVotes() else Counting(cfg, Ballots(cfg, log[..|log| - 1]), log[|log| - 1].block)
  }

  /** Height to hash along a path. */
  function HeightIndex(cfg: Config, log: Log, p: seq<nat>): map<uint64, Hash>
    requires forall k | 0 <= k < |p| :: p[k] < |log|
  {
    if |p| == 0 then map[] else
    var b := log[p[|p| - 1]].block;
    HeightIndex(cfg, log, p[..|p| - 1])[b.height := cfg.hash(b)]
  }

  // Validation

  function NextBaseFee(cfg: Config, parent: Block): uint64 {
    ComputeBaseFee(parent.baseFee, parent.gasUsed, GasTarget(cfg.gasLimit))
  }

  /** The walk down from block `i` meets hash `f` at height `k`. */
  function PassesThrough(cfg: Config, log: Log, i: nat, f: Hash, k: uint64): bool
    requires Tree(log) && i < |log|
  {
    var b := log[i].block;
    if b.height == k then cfg.hash(b) == f
    else b.height > k && i > 0 && PassesThrough(cfg, log, log[i].parent, f, k)
  }

  function LinkError(cfg: Config, log: Log, b: Block): Option<ChainError>
    requires Tree(log)
  {
    var p := Index(cfg, log, b.prev);
    if Index(cfg, log, cfg.hash(b)).Some? then Some(DuplicateBlock)
    else if p.None? then Some(UnknownParent)
    else if b.height != Add64(log[p.value].block.height, 1) then Some(BadHeight)
    else if b.baseFee != NextBaseFee(cfg, log[p.value].block) then Some(BadBaseFee)
    else
      var s := Ballots(cfg, log);
      if cfg.pos && s.finalHash != ZERO_HASH && !PassesThrough(cfg, log, p.value, s.finalHash, s.finalHeight)
      then Some(ConflictsWithFinalized) else None
  }

  predicate AttestationOk(cfg: Config, tx: Tx, height: uint64) {
    IsAttestation(tx) ==>
      var a, v := DecodeAttest(tx.data), Find(cfg.validators, tx.from);
      && a.Some? && a.value.height % CHECKPOINT_INTERVAL == 0 && a.value.height < height
      && v.Some? && cfg.verifyBls(v.value.pubKey, a.value.target, a.value.sig)
  }

  function SealError(cfg: Config, s: Votes, b: Block): Option<ChainError> {
    if !cfg.pos then if cfg.meetsTarget(cfg.hash(b), b.difficulty) then None else Some(BadPoW) else
    match Select(Active(cfg.validators, s.jailed), cfg.seed(b.prev, b.height))
    case None => Some(NoActiveValidators)
    case Some(v) =>
      if b.coinbase != v.address then Some(WrongProposer)
      else if !cfg.verifyBls(v.pubKey, cfg.signingHash(b), b.proposerSig) then Some(BadProposerSig)
      else if exists i | 0 <= i < |b.txs| :: !AttestationOk(cfg, b.txs[i], b.height) then Some(BadAttestation)
      else None
  }

  /** The block's own execution on its parent's state. */
  function Executed(cfg: Config, parent: Result<World, TxError>, b: Block): Result<World, ChainError> {
    if cfg.txRoot(b.txs) != b.merkleRoot then Err(BadTxRoot)
    else if exists i | 0 <= i < |b.txs| :: b.txs[i].chainId != cfg.chainId then Err(BadChainId)
    else
      match parent
      case Err(e) => Err(BadTx(e))
      case Ok(w) =>
        match ApplyBlock(cfg.rules, w, b.txs, b.height, b.coinbase, b.baseFee)
        case Err(e) => Err(BadTx(e))
        case Ok((w', gas)) =>
          if gas != b.gasUsed then Err(BadGasUsed)
          else if gas > cfg.gasLimit then Err(BlockGasLimitExceeded)
          else if cfg.stateRoot(w') != b.stateRoot then Err(BadStateRoot)
          else Ok(w')
  }

  /** The state a block leads to, or the first check it fails. */
  function Verdict(cfg: Config, log: Log, b: Block): Result<World, ChainError>
    requires Tree(log)
  {
    var link := LinkError(cfg, log, b);
    if link.Some? then Err(link.value) else
    var seal := SealError(cfg, Ballots(cfg, log), b);
    if seal.Some? then Err(seal.value) else
    Executed(cfg, Replay(cfg, log, Index(cfg, log, b.prev).value), b)
  }

  /** The state root and gas a block of these transactions on the head must declare. */
  function Candidate(cfg: Config, log: Log, txs: seq<Tx>, coinbase: Address): Result<(Hash, uint64), ChainError>
    requires Tree(log)
  {
    var h := Head(cfg, log);
    match Replay(cfg, log, h)
    case Err(e) => Err(BadTx(e))
    case Ok(w) =>
      if exists i | 0 <= i < |txs| :: txs[i].chainId != cfg.chainId then Err(BadChainId) else
      match ApplyTxs(cfg.rules, w, txs, |txs|, Add64(log[h].block.height, 1), NextBaseFee(cfg, log[h].block))
      case Err(e) => Err(BadTx(e))
      case Ok(a) => Ok((cfg.stateRoot(Rewarded(a.world, coinbase, a.tip)), a.gas))
  }

  function Extended(cfg: Config, log: Log, b: Block): (log': Log)
    requires Tree(log) && Verdict(cfg, log, b).Ok?
    ensures Tree(log')
  {
    log + [Entry(b, Index(cfg, log, b.prev).value)]
  }

  /** Block `i` was accepted in its turn, against the log as it was then. */
  ghost predicate Follows(cfg: Config, log: Log, i: nat)
    requires Tree(log) && 0 < i < |log|
  {
    Verdict(cfg, log[..i], log[i].block).Ok? && Index(cfg, log[..i], log[i].block.prev) == Some(log[i].parent)
  }

  /** The logs a chain can have: genesis, then blocks each accepted in its turn. */
  ghost predicate Accepted(cfg: Config, log: Log): (ok: bool)
    ensures ok ==> Tree(log)
  {
    Tree(log) && log[0] == Entry(cfg.genesis, 0) && forall i | 0 < i < |log| :: Follows(cfg, log, i)
  }
}
