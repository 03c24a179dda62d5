/**
 What the two-thirds test of checkpoint finality (chain/chain.go) amounts to: what stands behind a
 final checkpoint in every state, and when two targets of one round can both pass the test.
 */
module Quorums {
  import opened Core
  import opened State
  import Dispatch
  import opened Pos
  import opened Transition
  import opened Votes

  // Stake over time

  lemma {:induction false} BackingGrows(vs: seq<Validator>, votes: Ballot, more: Ballot, target: Hash)
    requires forall k | k in votes :: k in more && more[k] == votes[k]
    ensures Backing(vs, votes, target) <= Backing(vs, more, target)
    decreases |votes|
  {
    hide StakeOf;
    if k :| k in votes {
      BackingGrows(vs, votes - {k}, more - {k}, target);
      BackingRemove(vs, votes, k, target);
      BackingRemove(vs, more, k, target);
    }
  }

  lemma {:induction false} ActiveShrinks(vs: seq<Validator>, jailed: set<Address>, more: set<Address>)
    requires jailed <= more
    ensures StakeSum(Active(vs, more)) <= StakeSum(Active(vs, jailed))
  {
    if |vs| > 0 {
      var n := |vs| - 1;
      ActiveShrinks(vs[..n], jailed, more);
      assert vs[..n + 1] == vs;
      ActiveStep(vs, jailed, n);
      ActiveStep(vs, more, n);
    }
  }

  /** The stake that jailing has taken out of the test. */
  ghost function JailedStake(vs: seq<Validator>, s: Votes): nat {
    ActiveSound(vs, s.jailed);
    StakeSum(vs) - StakeSum(Active(vs, s.jailed))
  }

  // What the test means

  lemma TestWraps(x: nat, y: nat)
    requires 2 * y < U64
    ensures (x % U64) * 3 % U64 >= y % U64 * 2 % U64 ==> 3 * x >= 2 * y
    ensures 3 * x < U64 ==> ((x % U64) * 3 % U64 >= y % U64 * 2 % U64 <==> 3 * x >= 2 * y)
  {
  }

  /** A target that passes has two thirds of the active stake behind it; without wrap-around the converse holds too. */
  lemma CarriesMeans(vs: seq<Validator>, s: Votes, target: Hash)
    requires Counted(vs, s) && 2 * StakeSum(vs) < U64
    ensures var x, y := Backing(vs, s.attested, target), StakeSum(Active(vs, s.jailed));
            (Carries(vs, s, target) ==> 3 * x >= 2 * y) && (3 * x < U64 ==> (Carries(vs, s, target) <==> 3 * x >= 2 * y))
  {
    hide Backing, StakeSum, Active;
    ActiveSound(vs, s.jailed);
    assert StakeFor(s, target) == Backing(vs, s.attested, target) % U64;
    TestWraps(Backing(vs, s.attested, target), StakeSum(Active(vs, s.jailed)));
  }

  /** Behind a final checkpoint stand two thirds of the stake of the validators not jailed. */
  ghost predicate FinalBacked(vs: seq<Validator>, s: Votes) {
    s.finalHeight > 0 ==> 3 * Backing(vs, s.attested, s.finalHash) >= 2 * StakeSum(Active(vs, s.jailed))
  }

  lemma GrownBacked(vs: seq<Validator>, s: Votes, t: Votes)
    requires FinalBacked(vs, s) && Grows(s, t) && s.finalHeight == t.finalHeight
    ensures FinalBacked(vs, t)
  {
    hide Backing, StakeSum, Active;
    BackingGrows(vs, s.attested, t.attested, s.finalHash);
    ActiveShrinks(vs, s.jailed, t.jailed);
  }

  lemma CastBacked(vs: seq<Validator>, s: Votes, v: Vote)
    requires FinalBacked(vs, s) && Counted(vs, s) && 2 * StakeSum(vs) < U64
    requires Find(vs, v.validator.address) == Some(v.validator)
    ensures FinalBacked(vs, Cast(vs, s, v))
  {
    hide Find, StakeSum, Active, Carries, CheckpointRound, Backing, Counted;
    var t := Cast(vs, s, v);
    if t.finalHeight > s.finalHeight {
      var u := Tallied(s, v);
      TalliedCounts(vs, s, v);
      CarriesMeans(vs, u, v.target);
    } else {
      GrownBacked(vs, s, t);
    }
  }

  lemma {:induction false} RecordAllBacked(vs: seq<Validator>, s: Votes, txs: seq<Tx>, n: nat)
    requires n <= |txs| && FinalBacked(vs, s) && Counted(vs, s) && 2 * StakeSum(vs) < U64
    ensures FinalBacked(vs, RecordAll(vs, s, txs, n))
  {
    hide FinalBacked, Counted, Cast, StakeSum, Find;
    if n > 0 {
      RecordAllBacked(vs, s, txs, n - 1);
      RecordAllCounts(vs, s, txs, n - 1);
      match VoteOf(vs, txs[n - 1]) {
        case None =>
        case Some(v) => CastBacked(vs, RecordAll(vs, s, txs, n - 1), v);
      }
    }
  }

  // Two targets in one round

  ghost predicate OnlyInRound(votes: Ballot, r: uint64, target: Hash) {
    forall k | k in votes && votes[k] == target :: k.0 == r
  }

  lemma {:induction false} NoBacking(vs: seq<Validator>, votes: Ballot, target: Hash)
    requires forall k | k in votes :: votes[k] != target
    ensures Backing(vs, votes, target) == 0
    decreases |votes|
  {
    hide StakeOf;
    if k :| k in votes {
      NoBacking(vs, votes - {k}, target);
      BackingRemove(vs, votes, k, target);
    }
  }

  lemma BackingInRound(vs: seq<Validator>, votes: Ballot, r: uint64, target: Hash)
    requires OnlyInRound(votes, r, target)
    ensures Backing(vs, votes, target) == Backing(vs, InRound(votes, r), target)
  {
    hide Backing;
    BackingByRound(vs, votes, r, target);
    NoBacking(vs, Elsewhere(votes, r), target);
  }

  /**
   Two targets voted for in one round only can both pass, at two points of one run, only if twice the
   stake jailed at these points together is at least the whole stake.
   */
  lemma ConflictNeedsJailing(vs: seq<Validator>, s: Votes, u: Votes, r: uint64, t: Hash, t': Hash)
    requires Distinct(vs) && 2 * StakeSum(vs) < U64 && Counted(vs, s) && Counted(vs, u) && Grows(s, u)
    requires OnlyInRound(u.attested, r, t) && OnlyInRound(u.attested, r, t')
    requires Carries(vs, s, t) && Carries(vs, u, t') && t != t'
    ensures 2 * (JailedStake(vs, s) + JailedStake(vs, u)) >= StakeSum(vs)
  {
    hide Backing, StakeSum, Active, Carries, Distinct;
    CarriesMeans(vs, s, t);
    CarriesMeans(vs, u, t');
    BackingGrows(vs, s.attested, u.attested, t);
    BackingInRound(vs, u.attested, r, t);
    BackingInRound(vs, u.attested, r, t');
    VotersKnown(vs, u, r);
    assert vs[..|vs|] == vs;
    BackingShared(vs, |vs|, InRound(u.attested, r), r, t, t');
  }

  /** With stakes 3, 1 and 2 the bound is attained: the first two carry a target, the first is jailed, the third carries another. */
  lemma JailingBoundAttained(a: Validator, b: Validator, c: Validator, t: Hash, t': Hash)
    requires a.address != b.address && a.address != c.address && b.address != c.address && t != t'
    requires a.stake == 3 && b.stake == 1 && c.stake == 2
    ensures var vs := [a, b, c];
            var s := Cast(vs, Cast(vs, NoVotes(), Vote(a, 32, t)), Vote(b, 32, t));
            var u := Cast(vs, Cast(vs, s, Vote(a, 32, t')), Vote(c, 32, t'));
            && Carries(vs, s, t) && Carries(vs, u, t') && OnlyInRound(u.attested, 1, t) && OnlyInRound(u.attested, 1, t')
            && 2 * (JailedStake(vs, s) + JailedStake(vs, u)) == StakeSum(vs)
  {
    hide Active, StakeSum;
    FirstTwoCarry(a, b, c, t);
    ThirdCarries(a, b, c, t, t');
    ActiveOfThree(a, b, c, {});
    ActiveOfThree(a, b, c, {a.address});
    NobodyJailed([a, b, c]);
  }

  lemma FirstTwoCarry(a: Validator, b: Validator, c: Validator, t: Hash)
    requires a.address != b.address && a.address != c.address && b.address != c.address
    requires a.stake == 3 && b.stake == 1 && c.stake == 2
    ensures var s := Votes(map[(1, a.address) := t, (1, b.address) := t], map[t := 4], t, 32, {}, map[]);
            Cast([a, b, c], Cast([a, b, c], NoVotes(), Vote(a, 32, t)), Vote(b, 32, t)) == s && Carries([a, b, c], s, t)
  {
    hide Active, StakeSum;
    ActiveOfThree(a, b, c, {});
    var s := Votes(map[(1, a.address) := t], map[t := 3], ZERO_HASH, 0, {}, map[]);
    assert Cast([a, b, c], NoVotes(), Vote(a, 32, t)) == s;
    assert Vote(b, 32, t).Slot() !in s.attested;
  }

  lemma ThirdCarries(a: Validator, b: Validator, c: Validator, t: Hash, t': Hash)
    requires a.address != b.address && a.address != c.address && b.address != c.address && t != t'
    requires a.stake == 3 && b.stake == 1 && c.stake == 2
    ensures var s := Votes(map[(1, a.address) := t, (1, b.address) := t], map[t := 4], t, 32, {}, map[]);
            var u := Votes(s.attested[(1, c.address) := t'], map[t := 4, t' := 2], t, 32, {a.address}, map[]);
            Cast([a, b, c], Cast([a, b, c], s, Vote(a, 32, t')), Vote(c, 32, t')) == u && Carries([a, b, c], u, t')
  {
    hide Active, StakeSum;
    ActiveOfThree(a, b, c, {a.address});
    var s := Votes(map[(1, a.address) := t, (1, b.address) := t], map[t := 4], t, 32, {}, map[]);
    var s' := s.(jailed := {a.address});
    assert Cast([a, b, c], s, Vote(a, 32, t')) == s';
    assert Vote(c, 32, t').Slot() !in s'.attested;
  }

  lemma VotersKnown(vs: seq<Validator>, s: Votes, r: uint64)
    requires Counted(vs, s)
    ensures OneRound(vs, |vs|, InRound(s.attested, r), r)
  {
    hide Backing, StakeSum;
    var votes := InRound(s.attested, r);
    forall k | k in votes
      ensures exists i :: 0 <= i < |vs| && vs[i].address == k.1
    {
      var v := Find(vs, k.1).value;
      var i :| 0 <= i < |vs| && vs[i] == v;
    }
  }

  // Two runs in which the test passes with less than two thirds of the whole stake

  /** Every vote of a registered validator is carried by some calldata. */
  lemma VoteIsCarried(vs: seq<Validator>, tx: Tx, v: Validator, a: Attestation)
    requires tx.to == Dispatch.ATTEST_ADDRESS && tx.data == EncodeAttest(a) && Find(vs, tx.from) == Some(v)
    ensures VoteOf(vs, tx) == Some(Vote(v, a.height, a.target))
  {
    hide EncodeAttest, DecodeAttest, Find;
    AttestRoundTrip(a);
  }

  /** With stakes 2 and 1, the larger validator carries one target and by a second vote lets the smaller carry another. */
  lemma JailingLetsTwoPass(a: Validator, b: Validator, t: Hash, t': Hash)
    requires a.address != b.address && a.stake == 2 && b.stake == 1 && t != t'
    ensures var vs := [a, b];
            var s := Cast(vs, NoVotes(), Vote(a, 32, t));
            var u := Cast(vs, Cast(vs, s, Vote(a, 32, t')), Vote(b, 32, t'));
            && Carries(vs, s, t) && Carries(vs, u, t') && s.finalHash == u.finalHash == t && u.finalHeight == 32
            && OnlyInRound(u.attested, 1, t) && OnlyInRound(u.attested, 1, t') && u.jailed == {a.address}
  {
    hide Active, StakeSum;
    FirstOfTwo(a, b, t);
    LastOfTwo(a, b, t, t');
  }

  lemma FirstOfTwo(a: Validator, b: Validator, t: Hash)
    requires a.address != b.address && a.stake == 2 && b.stake == 1
    ensures var s := Votes(map[(1, a.address) := t], map[t := 2], t, 32, {}, map[]);
            Cast([a, b], NoVotes(), Vote(a, 32, t)) == s && Carries([a, b], s, t)
  {
    hide Active, StakeSum;
    ActiveOfTwo(a, b, {});
  }

  lemma LastOfTwo(a: Validator, b: Validator, t: Hash, t': Hash)
    requires a.address != b.address && a.stake == 2 && b.stake == 1 && t != t'
    ensures var s := Votes(map[(1, a.address) := t], map[t := 2], t, 32, {}, map[]);
            var u := Votes(map[(1, a.address) := t, (1, b.address) := t'], map[t := 2, t' := 1], t, 32, {a.address}, map[]);
            && Cast([a, b], Cast([a, b], s, Vote(a, 32, t')), Vote(b, 32, t')) == u && Carries([a, b], u, t')
  {
    hide Active, StakeSum;
    ActiveOfTwo(a, b, {a.address});
    var s := Votes(map[(1, a.address) := t], map[t := 2], t, 32, {}, map[]);
    var s' := s.(jailed := {a.address});
    assert Cast([a, b], s, Vote(a, 32, t')) == s';
    assert Vote(b, 32, t').Slot() !in s'.attested;
  }

  lemma ActiveOfTwo(a: Validator, b: Validator, jailed: set<Address>)
    ensures StakeSum(Active([a, b], jailed))
         == (if a.address in jailed then 0 else a.stake) + if b.address in jailed then 0 else b.stake
  {
    var vs := [a, b];
    assert vs[..1] == [a] && vs[..0] == [] && vs[..2] == vs;
    ActiveNone(vs, jailed);
    ActiveStep(vs, jailed, 0);
    ActiveStep(vs, jailed, 1);
  }

  /** With three equal stakes one validator finalises a hash alone, by naming it in two rounds. */
  lemma OneHashTwoRounds(a: Validator, b: Validator, c: Validator, t: Hash)
    requires a.address != b.address && a.address != c.address && b.address != c.address
    requires a.stake == b.stake == c.stake == 1
    ensures var vs := [a, b, c];
            var s := Cast(vs, NoVotes(), Vote(a, 32, t));
            var u := Cast(vs, s, Vote(a, 64, t));
            && s.finalHeight == 0 && u.finalHash == t && u.finalHeight == 64 && u.jailed == {}
            && u.attested == map[(1, a.address) := t, (2, a.address) := t] && forall r :: !Quorum(vs, u, r, t)
  {
    var vs := [a, b, c];
    ActiveOfThree(a, b, c, {});
    NobodyJailed(vs);
    hide Active, StakeSum, Backing;
    var s := Cast(vs, NoVotes(), Vote(a, 32, t));
    assert s.attested == map[(1, a.address) := t] && StakeFor(s, t) == 1;
    var u := Cast(vs, s, Vote(a, 64, t));
    forall r
      ensures !Quorum(vs, u, r, t)
    {
      AloneInRound(vs, u.attested, r, a.address, t);
    }
  }

  /** The votes of one validator in one round count its stake at most once. */
  lemma AloneInRound(vs: seq<Validator>, votes: Ballot, r: uint64, a: Address, t: Hash)
    requires forall k | k in votes :: k.1 == a
    ensures Backing(vs, InRound(votes, r), t) <= StakeOf(vs, a)
  {
    hide StakeOf;
    var m := InRound(votes, r);
    if (r, a) in m {
      BackingRemove(vs, m, (r, a), t);
      assert m - {(r, a)} == map[];
    } else {
      assert m == map[];
    }
  }

  lemma ActiveSumStep(vs: seq<Validator>, jailed: set<Address>, i: nat)
    requires i < |vs|
    ensures StakeSum(Active(vs[..i + 1], jailed))
         == StakeSum(Active(vs[..i], jailed)) + if vs[i].address in jailed then 0 else vs[i].stake
  {
    hide StakeSum, Active;
    ActiveStep(vs, jailed, i);
    if vs[i].address in jailed { assert Active(vs[..i], jailed) + [] == Active(vs[..i], jailed); }
  }

  lemma ActiveOfThree(a: Validator, b: Validator, c: Validator, jailed: set<Address>)
    ensures StakeSum(Active([a, b, c], jailed))
         == (if a.address in jailed then 0 else a.stake) + (if b.address in jailed then 0 else b.stake)
          + if c.address in jailed then 0 else c.stake
  {
    hide StakeSum, Active;
    var vs := [a, b, c];
    assert vs[..1] == [a] && vs[..0] == [] && vs[..2] == [a, b] && vs[..3] == vs;
    ActiveNone(vs, jailed);
    ActiveSumStep(vs, jailed, 0);
    ActiveSumStep(vs, jailed, 1);
    ActiveSumStep(vs, jailed, 2);
  }

  lemma {:induction false} NobodyJailed(vs: seq<Validator>)
    ensures Active(vs, {}) == vs
  {
    if |vs| > 0 { NobodyJailed(vs[..|vs| - 1]); }
  }
}
