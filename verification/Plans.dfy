/**
 Proof-of-stake logs written down in advance (chain/chain.go). A plan fixes for every position the parent, the
 proposer and at most one vote; under settings with constant roots and valid signatures a fair plan is a log
 that the engine accepts block by block.
 */
module Plans {
  import opened Core
  import opened State
  import Dispatch
  import opened FeeMarket
  import opened Transition
  import opened Pos
  import opened Votes
  import Quorums
  import opened ChainLog
  import ChainLaws

  /** Positions with their parents, heights, proposers and votes, and what the nonces and vote books are to be. */
  datatype Plan = Plan(
    vs: seq<Validator>,
    size: nat,
    parent: nat -> nat,
    height: nat -> uint64,
    who: nat -> Address,
    vote: nat -> Option<Vote>,
    used: (nat, Address) -> uint64,
    books: nat -> Votes)

  /** Hashes that tell positions apart. */
  function Id(n: uint64): Hash { [1] + seq(23, _ => 0) + BigEndian(n, 8) }

  lemma IdInjective(n: uint64, m: uint64)
    ensures Id(n) != ZERO_HASH && (Id(n) == Id(m) ==> n == m)
  {
    hide BigEndian, FromBigEndian;
    WordWidth();
    BigEndianRoundTrip(n, 8);
    BigEndianRoundTrip(m, 8);
    assert Id(n)[0] == 1;
    assert Id(n)[24..] == BigEndian(n, 8) && Id(m)[24..] == BigEndian(m, 8);
  }

  /** A vote as the transaction that carries it. */
  function Carried(v: Vote, nonce: uint64): Tx {
    Tx(v.validator.address, Dispatch.ATTEST_ADDRESS, 0, nonce, 0, 0, 0, 0, EncodeAttest(Attestation(v.height, v.target, [])), [])
  }

  function BlockAt(p: Plan, i: nat): Block
    requires p.size <= U64 && i < p.size
  {
    var txs := match p.vote(i) case None => [] case Some(v) => [Carried(v, p.used(p.parent(i), v.validator.address))];
    var prev := if 0 < i && p.parent(i) < p.size then Id(p.parent(i)) else ZERO_HASH;
    Block(p.height(i), prev, ZERO_HASH, ZERO_HASH, p.who(i), 0, 0, i, 0, 0, [], txs)
  }

  function LogOf(p: Plan): Log
    requires p.size <= U64
  {
    seq(p.size, i requires 0 <= i < p.size => Entry(BlockAt(p, i), if i == 0 then 0 else p.parent(i)))
  }

  /** Every signature is valid, every root is zero, and the seed always chooses the first active validator. */
  function Settings(p: Plan): Config
    requires 0 < p.size <= U64
  {
    Config(Rules(_ => ZERO_HASH, _ => true, (_, _, _, _, _) => Err(Outside)),
           (b: Block) => Id(b.nonce), _ => ZERO_HASH, _ => ZERO_HASH, _ => ZERO_HASH, (_, _, _) => true, (_, _) => true, (_, _) => 0,
           true, p.vs, _ => true, 0, 0, BlockAt(p, 0), World(map[], map[], map[]))
  }

  ghost predicate Ordered(p: Plan) {
    && 0 < p.size < U64 && p.height(0) == 0
    && forall i | 0 < i < p.size :: p.parent(i) < i && p.height(i) == p.height(p.parent(i)) + 1
  }

  ghost predicate NoncesFollow(p: Plan) {
    && (forall x :: p.used(0, x) == 0)
    && forall i, x | 0 < i < p.size ::
         p.used(i, x) == p.used(p.parent(i), x) + if p.vote(i).Some? && p.vote(i).value.validator.address == x then 1 else 0
  }

  /** The proposer has already proposed on this parent. */
  ghost predicate Again(p: Plan, i: nat) {
    exists j :: 0 < j < i && p.parent(j) == p.parent(i) && p.who(j) == p.who(i)
  }

  ghost function NextBooks(p: Plan, i: nat): Votes {
    var s := match p.vote(i) case None => p.books(i) case Some(v) => Cast(p.vs, p.books(i), v);
    if Again(p, i) then s.(jailed := s.jailed + {p.who(i)}) else s
  }

  ghost predicate BooksFollow(p: Plan) {
    p.books(1) == NoVotes() && forall i | 0 < i < p.size :: p.books(i + 1) == NextBooks(p, i)
  }

  /** The proposer is the first active validator, the branch is on the final checkpoint, and the vote is admissible. */
  ghost predicate Fair(p: Plan, i: nat)
    requires Ordered(p) && 0 < i < p.size
  {
    var active, s := Active(p.vs, p.books(i).jailed), p.books(i);
    && |active| > 0 && active[0].stake > 0 && active[0].address == p.who(i)
    && (s.finalHash == ZERO_HASH || PassesThrough(Settings(p), LogOf(p), p.parent(i), s.finalHash, s.finalHeight))
    && (p.vote(i).Some? ==>
          var v := p.vote(i).value;
          Find(p.vs, v.validator.address) == Some(v.validator) && v.height % CHECKPOINT_INTERVAL == 0 && v.height < p.height(i))
  }

  ghost predicate FairPlan(p: Plan) {
    Ordered(p) && NoncesFollow(p) && BooksFollow(p) && forall i | 0 < i < p.size :: Fair(p, i)
  }

  // Links

  lemma Indexed(p: Plan, n: nat, j: nat)
    requires Ordered(p) && n <= p.size && j < p.size
    ensures Index(Settings(p), LogOf(p)[..n], Id(j)) == if j < n then Some(j) else None
  {
    hide Index, Id;
    var cfg, log := Settings(p), LogOf(p)[..n];
    assert forall i | 0 <= i < n :: cfg.hash(log[i].block) == Id(i);
    var r := Index(cfg, log, Id(j));
    if r.Some? { IdInjective(r.value, j); }
  }

  lemma {:induction false} PassesFrozen(cfg: Config, log: Log, n: nat, i: nat, f: Hash, k: uint64)
    requires Tree(log) && i < n <= |log|
    ensures Tree(log[..n]) && PassesThrough(cfg, log[..n], i, f, k) == PassesThrough(cfg, log, i, f, k)
    decreases i
  {
    if i > 0 { PassesFrozen(cfg, log, n, log[i].parent, f, k); }
  }

  // Worlds

  ghost predicate Calm(p: Plan, i: nat, w: World) {
    w.code == map[] && forall x :: AccountAt(w, x).nonce == p.used(i, x)
  }

  lemma CalmVote(p: Plan, i: nat, w: World, tx: Tx)
    requires Calm(p, i, w) && tx.to == Dispatch.ATTEST_ADDRESS && tx.nonce == p.used(i, tx.from)
    ensures !IsOutside(w, tx) && IsAttestation(tx) && tx.nonce == AccountAt(w, tx.from).nonce
  {
  }

  lemma CalmNext(p: Plan, i: nat, w: World, w': World)
    requires NoncesFollow(p) && 0 < i < p.size && Calm(p, p.parent(i), w)
    requires w' == match p.vote(i)
                   case None => w
                   case Some(v) => WithAccount(w, v.validator.address, Bumped(AccountAt(w, v.validator.address)))
    ensures Calm(p, i, Rewarded(w', p.who(i), 0))
  {
    forall x
      ensures AccountAt(Rewarded(w', p.who(i), 0), x).nonce == p.used(i, x)
    {
      assert AccountAt(Rewarded(w', p.who(i), 0), x).nonce == AccountAt(w', x).nonce;
      assert AccountAt(w, x).nonce == p.used(p.parent(i), x);
    }
  }

  lemma VoteApplies(p: Plan, i: nat, w: World)
    requires Ordered(p) && NoncesFollow(p) && 0 < i < p.size && Calm(p, p.parent(i), w)
    ensures var b := BlockAt(p, i);
            var r := ApplyBlock(Settings(p).rules, w, b.txs, b.height, b.coinbase, b.baseFee);
            r.Ok? && r.value.1 == 0 && Calm(p, i, r.value.0)
  {
    hide EncodeAttest, Rewarded, Calm;
    var b, rules := BlockAt(p, i), Settings(p).rules;
    assert ApplyTxs(rules, w, b.txs, 0, b.height, b.baseFee) == Ok(Applied(w, 0, 0));
    match p.vote(i)
    case None =>
      CalmNext(p, i, w, w);
    case Some(v) =>
      var tx := Carried(v, p.used(p.parent(i), v.validator.address));
      assert b.txs == [tx];
      CalmVote(p, p.parent(i), w, tx);
      var w' := WithAccount(w, tx.from, Bumped(AccountAt(w, tx.from)));
      assert ApplyTx(rules, w, tx, b.height, 0, b.baseFee) == Ok(Applied(w', 0, 0));
      assert ApplyTxs(rules, w, b.txs, 1, b.height, b.baseFee) == Ok(Applied(w', 0, 0));
      CalmNext(p, i, w, w');
  }

  lemma {:induction false} ReplayCalm(p: Plan, i: nat)
    requires Ordered(p) && NoncesFollow(p) && i < p.size
    ensures var w := Replay(Settings(p), LogOf(p), i); w.Ok? && Calm(p, i, w.value)
    decreases i
  {
    hide ApplyBlock, NoncesFollow;
    if i > 0 {
      hide Calm;
      ReplayCalm(p, p.parent(i));
      VoteApplies(p, i, Replay(Settings(p), LogOf(p), p.parent(i)).value);
    } else {
      FirstNonces(p);
    }
  }

  lemma FirstNonces(p: Plan)
    requires NoncesFollow(p)
    ensures Calm(p, 0, World(map[], map[], map[]))
  {
  }

  // Votes

  lemma CastKeepsProposals(vs: seq<Validator>, s: Votes, q: map<(Hash, Address), Hash>, v: Vote)
    ensures Cast(vs, s.(proposed := q), v) == Cast(vs, s, v).(proposed := q)
  {
    hide Active, StakeSum;
  }

  /** The proposals on record are those of the positions so far. */
  ghost predicate Recorded(p: Plan, n: nat, q: map<(Hash, Address), Hash>)
    requires Ordered(p) && n <= p.size
  {
    && (forall j | 0 < j < n :: (Id(p.parent(j)), p.who(j)) in q)
    && (forall k | k in q :: exists j :: 0 < j < n && k == (Id(p.parent(j)), p.who(j)) && q[k] == Id(j))
  }

  lemma CountVote(p: Plan, i: nat, q: map<(Hash, Address), Hash>)
    requires Ordered(p) && 0 < i < p.size
    requires p.vote(i).Some? ==> Find(p.vs, p.vote(i).value.validator.address) == Some(p.vote(i).value.validator)
    ensures var s := p.books(i).(proposed := q);
            var t := match p.vote(i) case None => p.books(i) case Some(v) => Cast(p.vs, p.books(i), v);
            RecordAll(p.vs, s, BlockAt(p, i).txs, |BlockAt(p, i).txs|) == t.(proposed := q)
  {
    hide EncodeAttest, Cast, VoteOf, Find;
    var s, txs := p.books(i).(proposed := q), BlockAt(p, i).txs;
    assert RecordAll(p.vs, s, txs, 0) == s;
    match p.vote(i)
    case None =>
    case Some(v) =>
      var tx := Carried(v, p.used(p.parent(i), v.validator.address));
      assert txs == [tx];
      Quorums.VoteIsCarried(p.vs, tx, v.validator, Attestation(v.height, v.target, []));
      CastKeepsProposals(p.vs, p.books(i), q, v);
      assert RecordAll(p.vs, s, txs, 1) == Record(p.vs, RecordAll(p.vs, s, txs, 0), txs[0]);
  }

  lemma KeyOf(p: Plan, i: nat, q: map<(Hash, Address), Hash>)
    requires Ordered(p) && 0 < i < p.size && Recorded(p, i, q)
    ensures var key := (Id(p.parent(i)), p.who(i)); (key in q <==> Again(p, i)) && (key in q ==> q[key] != Id(i))
  {
    hide Id;
    var key := (Id(p.parent(i)), p.who(i));
    if key in q {
      var j :| 0 < j < i && key == (Id(p.parent(j)), p.who(j)) && q[key] == Id(j);
      IdInjective(p.parent(j), p.parent(i));
      IdInjective(j, i);
    }
  }

  lemma RecordedNext(p: Plan, i: nat, q: map<(Hash, Address), Hash>, q': map<(Hash, Address), Hash>)
    requires Ordered(p) && 0 < i < p.size && Recorded(p, i, q)
    requires var key := (Id(p.parent(i)), p.who(i)); q' == if key in q then q else q[key := Id(i)]
    ensures Recorded(p, i + 1, q')
  {
    hide Id;
    forall k | k in q'
      ensures exists j :: 0 < j < i + 1 && k == (Id(p.parent(j)), p.who(j)) && q'[k] == Id(j)
    {
      if k in q {
        var j :| 0 < j < i && k == (Id(p.parent(j)), p.who(j)) && q[k] == Id(j);
        assert 0 < j < i + 1;
      } else {
        assert k == (Id(p.parent(i)), p.who(i)) && q'[k] == Id(i);
      }
    }
  }

  lemma CountProposal(p: Plan, i: nat, s: Votes)
    requires Ordered(p) && 0 < i < p.size && Recorded(p, i, s.proposed)
    ensures var t := Propose(s, Id(p.parent(i)), p.who(i), Id(i));
            && Recorded(p, i + 1, t.proposed)
            && t == s.(proposed := t.proposed, jailed := if Again(p, i) then s.jailed + {p.who(i)} else s.jailed)
  {
    hide Id, Recorded, Again;
    KeyOf(p, i, s.proposed);
    RecordedNext(p, i, s.proposed, Propose(s, Id(p.parent(i)), p.who(i), Id(i)).proposed);
  }

  /** What the engine has on its books before position `n` is what the plan says. */
  lemma {:induction false} BooksKept(p: Plan, n: nat)
    requires FairPlan(p) && 0 < n <= p.size
    ensures var s := Ballots(Settings(p), LogOf(p)[..n]);
            s == p.books(n).(proposed := s.proposed) && Recorded(p, n, s.proposed)
  {
    hide Id, Fair, Recorded, NoncesFollow, Again;
    var cfg, log := Settings(p), LogOf(p);
    if n == 1 {
      NothingRecorded(p);
    } else {
      var i := n - 1;
      assert p.books(i + 1) == NextBooks(p, i);
      BooksKept(p, i);
      ChainLaws.BallotsStep(cfg, log, i);
      var s := Ballots(cfg, log[..i]);
      VoterKnown(p, i);
      CountVote(p, i, s.proposed);
      hide Propose, RecordAll;
      var t := RecordAll(p.vs, s, BlockAt(p, i).txs, |BlockAt(p, i).txs|);
      CountProposal(p, i, t);
      assert log[i].block == BlockAt(p, i) && BlockAt(p, i).prev == Id(p.parent(i));
    }
  }

  lemma NothingRecorded(p: Plan)
    requires Ordered(p)
    ensures Recorded(p, 1, map[])
  {
  }

  lemma VoterKnown(p: Plan, i: nat)
    requires FairPlan(p) && 0 < i < p.size
    ensures p.vote(i).Some? ==> Find(p.vs, p.vote(i).value.validator.address) == Some(p.vote(i).value.validator)
  {
    hide PassesThrough, Active;
    assert Fair(p, i);
  }

  // Acceptance

  lemma FirstSelected(active: seq<Validator>)
    requires |active| > 0 && active[0].stake > 0
    ensures Select(active, 0) == Some(active[0])
  {
    hide StakeSum;
    StakeSumEmpty(active);
    StakeSumStep(active, 0);
    assert 0 % StakeSum(active) == 0;
  }

  lemma Admissible(p: Plan, i: nat)
    requires FairPlan(p) && 0 < i < p.size
    ensures forall k | 0 <= k < |BlockAt(p, i).txs| :: AttestationOk(Settings(p), BlockAt(p, i).txs[k], p.height(i))
  {
    hide EncodeAttest, DecodeAttest, Find, PassesThrough, Active;
    assert Fair(p, i);
    if p.vote(i).Some? { AttestRoundTrip(Attestation(p.vote(i).value.height, p.vote(i).value.target, [])); }
  }

  lemma Sealed(p: Plan, i: nat)
    requires FairPlan(p) && 0 < i < p.size
    ensures SealError(Settings(p), Ballots(Settings(p), LogOf(p)[..i]), BlockAt(p, i)).None?
  {
    hide AttestationOk, Select, Active, PassesThrough, Ballots, FairPlan;
    FairAt(p, i);
    BooksKept(p, i);
    FirstSelected(Active(p.vs, p.books(i).jailed));
    Admissible(p, i);
  }

  lemma FairAt(p: Plan, i: nat)
    requires FairPlan(p) && 0 < i < p.size
    ensures Ordered(p) && Fair(p, i)
  {
    hide Fair;
  }

  lemma PlanTree(p: Plan)
    requires Ordered(p)
    ensures Tree(LogOf(p))
  {
  }

  lemma FeeStaysZero(cfg: Config, b: Block)
    requires b.baseFee == 0
    ensures NextBaseFee(cfg, b) == 0
  {
  }

  lemma LinkedTo(p: Plan, i: nat)
    requires FairPlan(p) && 0 < i < p.size
    ensures Tree(LogOf(p)[..i]) && LinkError(Settings(p), LogOf(p)[..i], BlockAt(p, i)).None?
  {
    hide Index, NextBaseFee, Ballots, PassesThrough, Id, FairPlan, Active;
    FairAt(p, i);
    var cfg, log := Settings(p), LogOf(p);
    PlanTree(p);
    BooksKept(p, i);
    Indexed(p, i, i);
    Indexed(p, i, p.parent(i));
    FeeStaysZero(cfg, log[p.parent(i)].block);
    PassesFrozen(cfg, log, i, p.parent(i), p.books(i).finalHash, p.books(i).finalHeight);
    assert log[..i][p.parent(i)] == log[p.parent(i)];
    assert cfg.hash(BlockAt(p, i)) == Id(i);
  }

  lemma ExecutedFine(p: Plan, i: nat)
    requires Ordered(p) && NoncesFollow(p) && 0 < i < p.size
    ensures Tree(LogOf(p)[..i]) && Executed(Settings(p), Replay(Settings(p), LogOf(p)[..i], p.parent(i)), BlockAt(p, i)).Ok?
  {
    hide ApplyBlock, Replay, Calm, NoncesFollow;
    PlanTree(p);
    ChainLaws.Frozen(Settings(p), LogOf(p), i, p.parent(i));
    ReplayCalm(p, p.parent(i));
    VoteApplies(p, i, Replay(Settings(p), LogOf(p), p.parent(i)).value);
  }

  /** The engine accepts a fair plan, block by block. */
  lemma PlanAccepted(p: Plan)
    requires FairPlan(p)
    ensures Accepted(Settings(p), LogOf(p))
  {
    hide FairPlan, LinkError, SealError, Executed, Index, Replay, Ballots, Id;
    FairParts(p);
    var cfg, log := Settings(p), LogOf(p);
    PlanTree(p);
    forall i | 0 < i < |log|
      ensures Follows(cfg, log, i)
    {
      LinkedTo(p, i);
      Sealed(p, i);
      ExecutedFine(p, i);
      Indexed(p, i, p.parent(i));
      assert log[i].block == BlockAt(p, i);
    }
  }

  lemma FairParts(p: Plan)
    requires FairPlan(p)
    ensures Ordered(p) && NoncesFollow(p) && BooksFollow(p)
  {
    hide Fair;
  }
}
