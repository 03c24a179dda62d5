/**
 Checkpoint votes, finality and jailing (chain/chain.go): the permanent bookkeeping that every
 accepted proof-of-stake block adds to, whichever branch it is on.
 */
module Votes {
  import opened Core
  import opened State
  import opened Pos
  import opened Transition

  /** Recorded votes, by round and validator. */
  type Ballot = map<(uint64, Address), Hash>

  /** Who attested what in which round, and who proposed what on which parent. */
  type Claimed = set<(Address, uint64, Hash)>
  type Offered = set<(Address, Hash, Hash)>

  /** Recorded votes by (round, validator), stake by target, the finalised checkpoint, and who proposed what. */
  datatype Votes = Votes(
    attested: Ballot,
    stake: map<Hash, uint64>,
    finalHash: Hash,
    finalHeight: uint64,
    jailed: set<Address>,
    proposed: map<(Hash, Address), Hash>)

  function NoVotes(): Votes { Votes(map[], map[], ZERO_HASH, 0, {}, map[]) }

  function StakeFor(s: Votes, target: Hash): uint64 {
    if target in s.stake then s.stake[target] else 0
  }

  datatype Vote = Vote(validator: Validator, height: uint64, target: Hash) {
    function Slot(): (uint64, Address) { (CheckpointRound(height), validator.address) }
  }

  /** The vote a transaction carries: attestation calldata from a registered validator. */
  function VoteOf(vs: seq<Validator>, tx: Tx): (r: Option<Vote>)
    ensures r.Some? ==> r.value.validator.address == tx.from && r.value.validator in vs
  {
    if !IsAttestation(tx) then None else
    var a, v := DecodeAttest(tx.data), Find(vs, tx.from);
    if a.None? || v.None? then None else Some(Vote(v.value, a.value.height, a.value.target))
  }

  /** The two-thirds test, in 64 bits: a target's tally against the stake of the validators not jailed. */
  predicate Carries(vs: seq<Validator>, s: Votes, target: Hash) {
    Mul64(StakeFor(s, target), 3) >= Mul64(StakeSum(Active(vs, s.jailed)) % U64, 2)
  }

  predicate Finalises(vs: seq<Validator>, s: Votes, v: Vote) {
    v.height > s.finalHeight && Carries(vs, s, v.target)
  }

  /** A first vote in its round is tallied unless its caster is jailed; a conflicting second one jails. */
  function Cast(vs: seq<Validator>, s: Votes, v: Vote): Votes {
    var who, slot := v.validator.address, v.Slot();
    if slot in s.attested then
      if s.attested[slot] != v.target then s.(jailed := s.jailed + {who}) else s
    else if who in s.jailed then s
    else
      var t := Tallied(s, v);
      if Finalises(vs, t, v) then t.(finalHash := v.target, finalHeight := v.height) else t
  }

  function Tallied(s: Votes, v: Vote): Votes {
    s.(attested := s.attested[v.Slot() := v.target],
       stake := s.stake[v.target := Add64(StakeFor(s, v.target), v.validator.stake)])
  }

  function Record(vs: seq<Validator>, s: Votes, tx: Tx): Votes {
    match VoteOf(vs, tx)
    case None => s
    case Some(v) => Cast(vs, s, v)
  }

  function RecordAll(vs: seq<Validator>, s: Votes, txs: seq<Tx>, n: nat): Votes
    requires n <= |txs|
  {
    if n == 0 then s else Record(vs, RecordAll(vs, s, txs, n - 1), txs[n - 1])
  }

  /** A second, different block by one proposer on one parent jails the proposer. */
  function Propose(s: Votes, parent: Hash, who: Address, hash: Hash): Votes {
    if (parent, who) !in s.proposed then s.(proposed := s.proposed[(parent, who) := hash])
    else if s.proposed[(parent, who)] != hash then s.(jailed := s.jailed + {who})
    else s
  }

  // Nothing is ever taken back

  /** Votes and jailings only accumulate; finality only rises, and the checkpoint of a height is decided once. */
  ghost predicate Grows(s: Votes, t: Votes) {
    && s.jailed <= t.jailed
    && (forall k | k in s.attested :: k in t.attested && t.attested[k] == s.attested[k])
    && (forall k | k in t.attested && k !in s.attested :: k.1 !in s.jailed)
    && s.finalHeight <= t.finalHeight
    && (s.finalHeight == t.finalHeight ==> s.finalHash == t.finalHash)
  }

  lemma {:induction false} RecordAllGrows(vs: seq<Validator>, s: Votes, txs: seq<Tx>, n: nat)
    requires n <= |txs|
    ensures Grows(s, RecordAll(vs, s, txs, n)) && RecordAll(vs, s, txs, n).proposed == s.proposed
  {
    hide VoteOf, Mul64, StakeSum, Active, CheckpointRound;
    if n > 0 { RecordAllGrows(vs, s, txs, n - 1); }
  }

  predicate VotedFor(s: Votes, r: uint64, a: Address, target: Hash) {
    (r, a) in s.attested && s.attested[(r, a)] == target
  }

  /** A final checkpoint has a recorded vote in its round. */
  ghost predicate FinalVoted(s: Votes) {
    s.finalHeight > 0 ==> exists a :: VotedFor(s, CheckpointRound(s.finalHeight), a, s.finalHash)
  }

  lemma CastFinalVoted(vs: seq<Validator>, s: Votes, v: Vote)
    requires FinalVoted(s)
    ensures FinalVoted(Cast(vs, s, v))
  {
    hide Mul64, StakeSum, Active, CheckpointRound;
    var t := Cast(vs, s, v);
    if t.finalHeight > s.finalHeight {
      assert VotedFor(t, CheckpointRound(v.height), v.validator.address, v.target);
    } else if s.finalHeight > 0 {
      var a :| VotedFor(s, CheckpointRound(s.finalHeight), a, s.finalHash);
      assert VotedFor(t, CheckpointRound(t.finalHeight), a, t.finalHash);
    }
  }

  lemma ProposeFinalVoted(s: Votes, parent: Hash, who: Address, hash: Hash)
    requires FinalVoted(s)
    ensures FinalVoted(Propose(s, parent, who, hash))
  {
    hide CheckpointRound;
    var t := Propose(s, parent, who, hash);
    if s.finalHeight > 0 {
      var a :| VotedFor(s, CheckpointRound(s.finalHeight), a, s.finalHash);
      assert VotedFor(t, CheckpointRound(t.finalHeight), a, t.finalHash);
    }
  }

  lemma {:induction false} RecordAllFinalVoted(vs: seq<Validator>, s: Votes, txs: seq<Tx>, n: nat)
    requires n <= |txs| && FinalVoted(s)
    ensures FinalVoted(RecordAll(vs, s, txs, n))
  {
    hide FinalVoted, VoteOf, Cast;
    if n > 0 {
      RecordAllFinalVoted(vs, s, txs, n - 1);
      match VoteOf(vs, txs[n - 1]) {
        case None =>
        case Some(v) => CastFinalVoted(vs, RecordAll(vs, s, txs, n - 1), v);
      }
    }
  }

  // Jailing

  /** Someone claims two different values for one slot. */
  ghost predicate Splits<S(!new)>(claims: set<(Address, S, Hash)>, a: Address) {
    exists s, x, y :: (a, s, x) in claims && (a, s, y) in claims && x != y
  }

  /** Everything attested so far: (validator, round, target). */
  function Claims(vs: seq<Validator>, txs: seq<Tx>, n: nat): Claimed
    requires n <= |txs|
  {
    if n == 0 then {} else
    match VoteOf(vs, txs[n - 1])
    case None => Claims(vs, txs, n - 1)
    case Some(v) => Claims(vs, txs, n - 1) + {(v.validator.address, CheckpointRound(v.height), v.target)}
  }

  lemma {:induction false} ClaimsMean(vs: seq<Validator>, txs: seq<Tx>, n: nat, a: Address, r: uint64, t: Hash)
    requires n <= |txs|
    ensures (a, r, t) in Claims(vs, txs, n) <==>
            exists i :: 0 <= i < n && (var v := VoteOf(vs, txs[i]);
                        v.Some? && txs[i].from == a && CheckpointRound(v.value.height) == r && v.value.target == t)
  {
    hide VoteOf, CheckpointRound;
    if n > 0 { ClaimsMean(vs, txs, n - 1, a, r, t); }
  }

  /** Recorded votes and proposals are among the claims made, and jailing is exactly having split. */
  ghost predicate Exact(s: Votes, claims: Claimed, offers: Offered) {
    && (forall k | k in s.attested :: (k.1, k.0, s.attested[k]) in claims)
    && (forall c | c in claims :: (c.1, c.0) in s.attested || c.0 in s.jailed)
    && (forall k | k in s.proposed :: (k.1, k.0, s.proposed[k]) in offers)
    && (forall o | o in offers :: (o.1, o.0) in s.proposed)
    && (forall a :: a in s.jailed <==> Splits(claims, a) || Splits(offers, a))
  }

  /** Adding one claim makes at most its own maker split. */
  lemma SplitsAdd<S(!new)>(claims: set<(Address, S, Hash)>, c: (Address, S, Hash))
    ensures forall a | Splits(claims, a) :: Splits(claims + {c}, a)
    ensures forall a | a != c.0 && Splits(claims + {c}, a) :: Splits(claims, a)
    ensures Splits(claims + {c}, c.0) <==>
            Splits(claims, c.0) || exists x :: x != c.2 && (c.0, c.1, x) in claims
  {
  }

  /** A jailed validator's further claims change nothing. */
  lemma SkipExact(s: Votes, c: (Address, uint64, Hash), claims: Claimed, offers: Offered)
    requires Exact(s, claims, offers) && c.0 in s.jailed
    ensures Exact(s, claims + {c}, offers)
  {
    hide Splits;
    SplitsAdd(claims, c);
  }

  lemma JailExact(s: Votes, c: (Address, uint64, Hash), claims: Claimed, offers: Offered)
    requires Exact(s, claims, offers) && (c.1, c.0) in s.attested && s.attested[(c.1, c.0)] != c.2
    ensures Exact(s.(jailed := s.jailed + {c.0}), claims + {c}, offers)
  {
    hide Splits;
    SplitsAdd(claims, c);
    assert (c.0, c.1, s.attested[(c.1, c.0)]) in claims;
  }

  lemma TallyExact(s: Votes, t: Votes, c: (Address, uint64, Hash), claims: Claimed, offers: Offered)
    requires Exact(s, claims, offers) && (c.1, c.0) !in s.attested && c.0 !in s.jailed
    requires t.attested == s.attested[(c.1, c.0) := c.2] && t.jailed == s.jailed && t.proposed == s.proposed
    ensures Exact(t, claims + {c}, offers)
  {
    hide Splits;
    SplitsAdd(claims, c);
  }

  lemma CastExact(vs: seq<Validator>, s: Votes, v: Vote, claims: Claimed, offers: Offered)
    requires Exact(s, claims, offers)
    ensures Exact(Cast(vs, s, v), claims + {(v.validator.address, CheckpointRound(v.height), v.target)}, offers)
  {
    hide Finalises, CheckpointRound;
    var c := (v.validator.address, CheckpointRound(v.height), v.target);
    if v.Slot() in s.attested {
      if s.attested[v.Slot()] == v.target {
        assert c in claims && claims + {c} == claims;
      } else {
        JailExact(s, c, claims, offers);
      }
    } else if c.0 in s.jailed {
      SkipExact(s, c, claims, offers);
    } else {
      TallyExact(s, Cast(vs, s, v), c, claims, offers);
    }
  }

  lemma ProposeExact(s: Votes, parent: Hash, who: Address, hash: Hash, claims: Claimed, offers: Offered)
    requires Exact(s, claims, offers)
    ensures Exact(Propose(s, parent, who, hash), claims, offers + {(who, parent, hash)})
  {
    hide Splits;
    var o := (who, parent, hash);
    SplitsAdd(offers, o);
    if (parent, who) in s.proposed {
      assert (who, parent, s.proposed[(parent, who)]) in offers;
      if s.proposed[(parent, who)] == hash { assert offers + {o} == offers; }
    }
  }

  lemma {:induction false} RecordAllExact(vs: seq<Validator>, s: Votes, txs: seq<Tx>, n: nat,
                                          claims: Claimed, offers: Offered)
    requires n <= |txs| && Exact(s, claims, offers)
    ensures Exact(RecordAll(vs, s, txs, n), claims + Claims(vs, txs, n), offers)
  {
    hide Exact, VoteOf, Cast;
    if n == 0 {
      assert claims + {} == claims;
    } else {
      RecordAllExact(vs, s, txs, n - 1, claims, offers);
      match VoteOf(vs, txs[n - 1]) {
        case None =>
        case Some(v) =>
          CastExact(vs, RecordAll(vs, s, txs, n - 1), v, claims + Claims(vs, txs, n - 1), offers);
          assert claims + Claims(vs, txs, n)
              == claims + Claims(vs, txs, n - 1) + {(v.validator.address, CheckpointRound(v.height), v.target)};
      }
    }
  }

  // The tally

  function StakeOf(vs: seq<Validator>, a: Address): nat {
    var v := Find(vs, a);
    if v.Some? then v.value.stake else 0
  }

  function Share(vs: seq<Validator>, votes: Ballot, k: (uint64, Address), target: Hash): nat
    requires k in votes
  {
    if votes[k] == target then StakeOf(vs, k.1) else 0
  }

  /** The stake behind a target: over all rounds, the validators whose recorded vote is for it. */
  ghost function Backing(vs: seq<Validator>, votes: Ballot, target: Hash): nat {
    if votes == map[] then 0 else
    var k :| k in votes;
    Share(vs, votes, k, target) + Backing(vs, votes - {k}, target)
  }

  lemma {:induction false} BackingRemove(vs: seq<Validator>, votes: Ballot, k: (uint64, Address), target: Hash)
    requires k in votes
    ensures Backing(vs, votes, target) == Share(vs, votes, k, target) + Backing(vs, votes - {k}, target)
    decreases |votes|
  {
    hide StakeOf, Backing;
    BackingSome(vs, votes, target);
    var j :| j in votes && Backing(vs, votes, target) == Share(vs, votes, j, target) + Backing(vs, votes - {j}, target);
    if j != k {
      BackingRemove(vs, votes - {j}, k, target);
      BackingRemove(vs, votes - {k}, j, target);
      assert votes - {j} - {k} == votes - {k} - {j};
      assert Share(vs, votes - {j}, k, target) == Share(vs, votes, k, target);
      assert Share(vs, votes - {k}, j, target) == Share(vs, votes, j, target);
    }
  }

  lemma BackingSome(vs: seq<Validator>, votes: Ballot, target: Hash)
    requires votes != map[]
    ensures exists k :: k in votes && Backing(vs, votes, target) == Share(vs, votes, k, target) + Backing(vs, votes - {k}, target)
  {
  }

  /** The 64-bit tally is the backing, and every recorded voter is registered. */
  ghost predicate Counted(vs: seq<Validator>, s: Votes) {
    && (forall h :: StakeFor(s, h) == Backing(vs, s.attested, h) % U64)
    && (forall k | k in s.attested :: Find(vs, k.1).Some?)
  }

  lemma TalliedCounts(vs: seq<Validator>, s: Votes, v: Vote)
    requires Counted(vs, s) && v.Slot() !in s.attested && Find(vs, v.validator.address) == Some(v.validator)
    ensures Counted(vs, Tallied(s, v))
  {
    hide Find, CheckpointRound, Backing, Add64;
    var t, k := Tallied(s, v), v.Slot();
    forall h
      ensures StakeFor(t, h) == Backing(vs, t.attested, h) % U64
    {
      BackingRemove(vs, t.attested, k, h);
      assert t.attested - {k} == s.attested;
      ModSum(StakeFor(s, v.target), Backing(vs, s.attested, v.target), v.validator.stake);
    }
  }

  lemma {:induction false} RecordAllCounts(vs: seq<Validator>, s: Votes, txs: seq<Tx>, n: nat)
    requires n <= |txs| && Counted(vs, s)
    ensures Counted(vs, RecordAll(vs, s, txs, n))
  {
    hide Finalises, Find, Tallied, Backing;
    if n > 0 {
      RecordAllCounts(vs, s, txs, n - 1);
      var t := RecordAll(vs, s, txs, n - 1);
      match VoteOf(vs, txs[n - 1]) {
        case None =>
        case Some(v) =>
          if v.Slot() !in t.attested { TalliedCounts(vs, t, v); }
      }
    }
  }

  // Quorums

  ghost function InRound(votes: Ballot, r: uint64): Ballot {
    map k | k in votes && k.0 == r :: votes[k]
  }

  ghost function Elsewhere(votes: Ballot, r: uint64): Ballot {
    map k | k in votes && k.0 != r :: votes[k]
  }

  lemma OneVoteLess(votes: Ballot, r: uint64, k: (uint64, Address))
    requires k in votes
    ensures k in InRound(votes, r) <==> k.0 == r
    ensures k in Elsewhere(votes, r) <==> k.0 != r
    ensures InRound(votes - {k}, r) == InRound(votes, r) - {k}
    ensures Elsewhere(votes - {k}, r) == Elsewhere(votes, r) - {k}
    ensures k.0 == r ==> InRound(votes, r)[k] == votes[k] && Elsewhere(votes, r) - {k} == Elsewhere(votes, r)
    ensures k.0 != r ==> Elsewhere(votes, r)[k] == votes[k] && InRound(votes, r) - {k} == InRound(votes, r)
  {
  }

  /** A target's backing is what it has in one round plus what it has in the others. */
  lemma {:induction false} BackingByRound(vs: seq<Validator>, votes: Ballot, r: uint64, target: Hash)
    ensures Backing(vs, votes, target)
         == Backing(vs, InRound(votes, r), target) + Backing(vs, Elsewhere(votes, r), target)
    decreases |votes|
  {
    hide StakeOf;
    if k :| k in votes {
      hide Backing, InRound, Elsewhere;
      OneVoteLess(votes, r, k);
      BackingByRound(vs, votes - {k}, r, target);
      BackingRemove(vs, votes, k, target);
      BackingRemove(vs, if k.0 == r then InRound(votes, r) else Elsewhere(votes, r), k, target);
    } else {
      assert InRound(votes, r) == map[] && Elsewhere(votes, r) == map[];
    }
  }

  ghost predicate Distinct(vs: seq<Validator>) {
    forall i, j | 0 <= i < j < |vs| :: vs[i].address != vs[j].address
  }

  lemma {:induction false} FindAt(vs: seq<Validator>, i: nat)
    requires Distinct(vs) && i < |vs|
    ensures Find(vs, vs[i].address) == Some(vs[i])
  {
  }

  /** All votes are of one round and by the first `n` validators. */
  ghost predicate OneRound(vs: seq<Validator>, n: nat, votes: Ballot, r: uint64)
    requires n <= |vs|
  {
    forall k | k in votes :: k.0 == r && exists i :: 0 <= i < n && vs[i].address == k.1
  }

  lemma OneVoterLess(vs: seq<Validator>, n: nat, votes: Ballot, r: uint64)
    requires 0 < n <= |vs| && OneRound(vs, n, votes, r)
    ensures OneRound(vs, n - 1, votes - {(r, vs[n - 1].address)}, r)
  {
  }

  /** One voter's stake goes to at most one of two targets. */
  lemma VoterAdds(vs: seq<Validator>, votes: Ballot, k: (uint64, Address), v: Validator, t: Hash, t': Hash)
    requires t != t' && Find(vs, k.1) == Some(v)
    ensures Backing(vs, votes, t) + Backing(vs, votes, t')
         <= Backing(vs, votes - {k}, t) + Backing(vs, votes - {k}, t') + v.stake
  {
    hide Find, Backing;
    if k in votes {
      BackingRemove(vs, votes, k, t);
      BackingRemove(vs, votes, k, t');
    } else {
      assert votes - {k} == votes;
    }
  }

  /** Within one round two targets share the stake of the validators that voted. */
  lemma {:induction false} BackingShared(vs: seq<Validator>, n: nat, votes: Ballot, r: uint64, t: Hash, t': Hash)
    requires n <= |vs| && Distinct(vs) && t != t' && OneRound(vs, n, votes, r)
    ensures Backing(vs, votes, t) + Backing(vs, votes, t') <= StakeSum(vs[..n])
  {
    if n == 0 {
      assert votes == map[];
    } else {
      hide Find, StakeSum, Backing, OneRound, Distinct;
      var k := (r, vs[n - 1].address);
      OneVoterLess(vs, n, votes, r);
      BackingShared(vs, n - 1, votes - {k}, r, t, t');
      StakeSumStep(vs, n - 1);
      FindAt(vs, n - 1);
      VoterAdds(vs, votes, k, vs[n - 1], t, t');
    }
  }

  /** A target holds at least two thirds of the whole set's stake in one round. */
  ghost predicate Quorum(vs: seq<Validator>, s: Votes, r: uint64, t: Hash) {
    3 * Backing(vs, InRound(s.attested, r), t) >= 2 * StakeSum(vs)
  }

  lemma OneQuorumPerRound(vs: seq<Validator>, s: Votes, r: uint64, t: Hash, t': Hash)
    requires Distinct(vs) && StakeSum(vs) > 0 && Counted(vs, s)
    requires Quorum(vs, s, r, t) && Quorum(vs, s, r, t')
    ensures t == t'
  {
    hide Backing, StakeSum;
    var votes := InRound(s.attested, r);
    forall k | k in votes
      ensures exists i :: 0 <= i < |vs| && vs[i].address == k.1
    {
      var v := Find(vs, k.1).value;
      var i :| 0 <= i < |vs| && vs[i] == v;
    }
    assert vs[..|vs|] == vs;
    if t != t' { BackingShared(vs, |vs|, votes, r, t, t'); }
  }
}
