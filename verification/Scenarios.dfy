/**
 Three accepted logs on which comments in chain/chain.go promise more than the engine keeps: two targets of a
 round both pass the two-thirds test, one validator of three finalises a hash alone, and the head leaves the
 branch of a finalised checkpoint.
 */
module Scenarios {
  import opened Core
  import opened State
  import opened Pos
  import opened Votes
  import opened Quorums
  import opened ChainLog
  import ChainLaws
  import opened Plans

  // Walking and weighing a plan

  /** Within positions that lead down to `j` and nowhere beside it, the finality walk finds `j`. */
  lemma {:induction false} Reached(p: Plan, on: nat -> bool, i: nat, j: nat)
    requires Ordered(p) && i < p.size && j < p.size && on(i)
    requires forall k | 0 <= k < p.size && on(k) ::
               p.height(k) >= p.height(j) && (p.height(k) == p.height(j) ==> k == j) && (k != j ==> 0 < k && on(p.parent(k)))
    ensures Tree(LogOf(p)) && PassesThrough(Settings(p), LogOf(p), i, Id(j), p.height(j))
    decreases i
  {
    hide Id;
    PlanTree(p);
    if i != j { Reached(p, on, p.parent(i), j); }
  }

  lemma {:induction false} PathWithin(p: Plan, on: nat -> bool, i: nat, j: nat)
    requires Ordered(p) && i < p.size && on(i) && forall k | 0 < k < p.size && on(k) :: on(p.parent(k))
    requires Tree(LogOf(p)) && j in Path(LogOf(p), i)
    ensures on(j)
    decreases i
  {
    hide Id;
    if i != j { PathWithin(p, on, p.parent(i), j); }
  }

  lemma {:induction false} TdIsHeight(p: Plan, i: nat)
    requires Ordered(p) && i < p.size
    ensures Tree(LogOf(p)) && Td(Settings(p), LogOf(p), i) == p.height(i)
    decreases i
  {
    hide Id;
    PlanTree(p);
    if i > 0 { TdIsHeight(p, p.parent(i)); }
  }

  lemma HighestIsHead(p: Plan, n: nat, h: nat)
    requires Ordered(p) && h < n <= p.size && forall k | 0 <= k < n && k != h :: p.height(k) < p.height(h)
    ensures Tree(LogOf(p)[..n]) && Head(Settings(p), LogOf(p)[..n]) == h
  {
    hide Id, Td, Head, Path, Replay;
    var cfg, log := Settings(p), LogOf(p);
    PlanTree(p);
    ChainLaws.Frozen(cfg, log, n, h);
    var g := Head(cfg, log[..n]);
    ChainLaws.Frozen(cfg, log, n, g);
    TdIsHeight(p, h);
    TdIsHeight(p, g);
    ChainLaws.HeadIsEarliestHeaviest(cfg, log[..n], h);
  }

  // Two targets of one round

  ghost function ConflictPlan(a: Validator, b: Validator, t': Hash): Plan {
    var t := Id(32);
    var s := Votes(map[(1, a.address) := t], map[t := 2], t, 32, {}, map[]);
    var u := Votes(map[(1, a.address) := t, (1, b.address) := t'], map[t := 2, t' := 1], t, 32, {a.address}, map[]);
    Plan([a, b], 36,
         (i: nat) => if i == 0 then 0 else i - 1,
         (i: nat) => if i < U64 then i else 0,
         (i: nat) => if i <= 34 then a.address else b.address,
         (i: nat) => if i == 33 then Some(Vote(a, 32, t)) else if i == 34 then Some(Vote(a, 32, t'))
                     else if i == 35 then Some(Vote(b, 32, t')) else None,
         (i: nat, x: Address) => if x == a.address then (if i <= 32 then 0 else if i == 33 then 1 else 2)
                                 else if x == b.address && i >= 35 then 1 else 0,
         (i: nat) => if i <= 33 then NoVotes() else if i == 34 then s else if i == 35 then s.(jailed := {a.address}) else u)
  }

  lemma ConflictBooks(a: Validator, b: Validator, t': Hash)
    requires a.address != b.address && a.stake == 2 && b.stake == 1 && t' != Id(32)
    ensures BooksFollow(ConflictPlan(a, b, t'))
  {
    hide Id, Cast, Active, StakeSum, Carries;
    var p, t := ConflictPlan(a, b, t'), Id(32);
    var s := p.books(34);
    FirstOfTwo(a, b, t);
    LastOfTwo(a, b, t, t');
    assert Cast([a, b], s, Vote(a, 32, t')) == s.(jailed := {a.address}) by { SecondVoteJails([a, b], s, a, t'); }
    forall i | 0 < i < p.size
      ensures p.books(i + 1) == NextBooks(p, i)
    {
      assert !Again(p, i);
    }
  }

  lemma SecondVoteJails(vs: seq<Validator>, s: Votes, a: Validator, t: Hash)
    requires (1, a.address) in s.attested && s.attested[(1, a.address)] != t
    ensures Cast(vs, s, Vote(a, 32, t)) == s.(jailed := s.jailed + {a.address})
  {
  }

  lemma ActivePair(a: Validator, b: Validator)
    requires a.address != b.address
    ensures Active([a, b], {}) == [a, b] && Active([a, b], {a.address}) == [b]
  {
    NobodyJailed([a, b]);
    var vs := [a, b];
    assert vs[..1] == [a] && vs[..0] == [] && vs[..2] == vs;
    ActiveNone(vs, {a.address});
    ActiveStep(vs, {a.address}, 0);
    ActiveStep(vs, {a.address}, 1);
  }

  lemma FindPair(a: Validator, b: Validator)
    requires a.address != b.address
    ensures Find([a, b], a.address) == Some(a) && Find([a, b], b.address) == Some(b)
  {
  }

  lemma ConflictFair(a: Validator, b: Validator, t': Hash)
    requires a.address != b.address && a.stake == 2 && b.stake == 1 && t' != Id(32)
    ensures FairPlan(ConflictPlan(a, b, t'))
  {
    hide Id, Cast, Active, Find, PassesThrough, BooksFollow, LogOf, Settings;
    var p := ConflictPlan(a, b, t');
    ConflictBooks(a, b, t');
    ActivePair(a, b);
    FindPair(a, b);
    forall i | 0 < i < p.size
      ensures Fair(p, i)
    {
      if i >= 34 { Reached(p, (k: nat) => k >= 32, i - 1, 32); }
      assert i >= 34 ==> p.books(i).finalHash == Id(32) && p.books(i).finalHeight == 32;
      assert i <= 33 ==> p.books(i) == NoVotes();
      assert i <= 34 ==> p.books(i).jailed == {};
      assert i == 35 ==> p.books(i).jailed == {a.address};
    }
  }

  /** An accepted log in which two targets of one round both pass, the first being the block of its height. */
  lemma ConflictAccepted(a: Validator, b: Validator, t': Hash) returns (cfg: Config, log: Log)
    requires a.address != b.address && a.pubKey != b.pubKey && a.stake == 2 && b.stake == 1 && t' != Id(32)
    ensures Sane(cfg) && cfg.pos && cfg.validators == [a, b] && Accepted(cfg, log) && |log| == 36
    ensures var s, u, t := Ballots(cfg, log[..34]), Ballots(cfg, log), cfg.hash(log[32].block);
            && log[32].block.height == 32 && t != t' && Carries(cfg.validators, s, t) && Carries(cfg.validators, u, t')
            && OnlyInRound(u.attested, 1, t) && OnlyInRound(u.attested, 1, t') && s.finalHash == u.finalHash == t
  {
    hide Id, Active, StakeSum, Cast, FairPlan, Accepted, Ballots;
    var p, t := ConflictPlan(a, b, t'), Id(32);
    cfg, log := Settings(p), LogOf(p);
    ConflictFair(a, b, t');
    PlanAccepted(p);
    FirstOfTwo(a, b, t);
    LastOfTwo(a, b, t, t');
    BooksKept(p, 34);
    BooksKept(p, 36);
    assert log[..36] == log;
    CarriesBooks([a, b], p.books(34), Ballots(cfg, log[..34]), t);
    CarriesBooks([a, b], p.books(36), Ballots(cfg, log), t');
    NobodyJailed([a, b]);
    ActiveOfTwo(a, b, {});
    assert ValidSet([a, b], cfg.keyOk);
  }

  lemma CarriesBooks(vs: seq<Validator>, s: Votes, u: Votes, t: Hash)
    requires u == s.(proposed := u.proposed)
    ensures Carries(vs, s, t) == Carries(vs, u, t)
  {
    hide Active, StakeSum;
  }

  // One validator alone

  ghost function AlonePlan(a: Validator, b: Validator, c: Validator, t: Hash): Plan {
    var s := Votes(map[(1, a.address) := t], map[t := 1], ZERO_HASH, 0, {}, map[]);
    Plan([a, b, c], 67,
         (i: nat) => if i == 0 then 0 else i - 1,
         (i: nat) => if i < U64 then i else 0,
         (i: nat) => a.address,
         (i: nat) => if i == 65 then Some(Vote(a, 32, t)) else if i == 66 then Some(Vote(a, 64, t)) else None,
         (i: nat, x: Address) => if x != a.address || i <= 64 then 0 else if i == 65 then 1 else 2,
         (i: nat) => if i <= 65 then NoVotes() else if i == 66 then s else Cast([a, b, c], s, Vote(a, 64, t)))
  }

  lemma FirstOfThree(a: Validator, b: Validator, c: Validator, t: Hash)
    requires a.stake == b.stake == c.stake == 1
    ensures Cast([a, b, c], NoVotes(), Vote(a, 32, t)) == Votes(map[(1, a.address) := t], map[t := 1], ZERO_HASH, 0, {}, map[])
  {
    ActiveOfThree(a, b, c, {});
    hide Active, StakeSum;
  }

  lemma AloneFair(a: Validator, b: Validator, c: Validator, t: Hash)
    requires a.stake == b.stake == c.stake == 1
    ensures FairPlan(AlonePlan(a, b, c, t))
  {
    hide Id, Cast, Active, Find, PassesThrough, LogOf, Settings;
    var p := AlonePlan(a, b, c, t);
    FirstOfThree(a, b, c, t);
    NobodyJailed(p.vs);
    assert Find(p.vs, a.address) == Some(a) by { FirstFound(p.vs); }
    forall i | 0 < i < p.size
      ensures Fair(p, i)
    {
      assert i <= 65 ==> p.books(i) == NoVotes();
      assert p.books(i).jailed == {} && p.books(i).finalHash == ZERO_HASH;
    }
    forall i | 0 < i < p.size
      ensures p.books(i + 1) == NextBooks(p, i)
    {
      assert !Again(p, i);
      assert i == 65 || i == 66 || p.books(i) == NoVotes();
    }
  }

  lemma FirstFound(vs: seq<Validator>)
    requires |vs| > 0
    ensures Find(vs, vs[0].address) == Some(vs[0])
  {
  }

  /** An accepted log in which one validator of three makes a hash final without a quorum in any round. */
  lemma AloneAccepted(a: Validator, b: Validator, c: Validator, t: Hash) returns (cfg: Config, log: Log)
    requires a.address != b.address && a.address != c.address && b.address != c.address
    requires a.pubKey != b.pubKey && a.pubKey != c.pubKey && b.pubKey != c.pubKey
    requires a.stake == b.stake == c.stake == 1
    ensures Sane(cfg) && cfg.pos && cfg.validators == [a, b, c] && Accepted(cfg, log)
    ensures var u := Ballots(cfg, log);
            && u.finalHash == t && u.finalHeight == 64 && u.jailed == {}
            && (forall k | k in u.attested :: k.1 == a.address) && forall r :: !Quorum(cfg.validators, u, r, t)
  {
    hide Id, Active, StakeSum, Cast, FairPlan, Accepted, Ballots, Backing;
    var p := AlonePlan(a, b, c, t);
    cfg, log := Settings(p), LogOf(p);
    AloneFair(a, b, c, t);
    PlanAccepted(p);
    FirstOfThree(a, b, c, t);
    OneHashTwoRounds(a, b, c, t);
    BooksKept(p, 67);
    assert log[..67] == log;
    var u := p.books(67);
    forall r
      ensures !Quorum(p.vs, Ballots(cfg, log), r, t)
    {
      assert !Quorum(p.vs, u, r, t);
    }
    NobodyJailed(p.vs);
    ActiveOfThree(a, b, c, {});
    assert ValidSet(p.vs, cfg.keyOk);
  }

  // A finalised branch loses the head

  /** Two branches of 64 blocks grown by the same first proposer; one is then finalised at 32, the other at 64 and extended. */
  function ForkParent(i: nat): nat {
    if i <= 2 then 0 else if i == 3 then 1 else if i == 66 then 2 else if i == 129 then 65 else if i == 131 then 128 else i - 1
  }

  function ForkHeight(i: nat): uint64 {
    if i == 0 then 0 else if i <= 2 then 1 else if i <= 65 then i - 1 else if i <= 128 then i - 64
    else if i <= 130 then i - 64 else if i <= 133 then i - 66 else 0
  }

  function ForkWho(c: Validator, a: Validator, i: nat): Address { if i <= 2 then c.address else a.address }

  ghost function ForkPlan(c: Validator, a: Validator): Plan {
    var x, y, none := Id(33), Id(128), NoVotes().(jailed := {c.address});
    Plan([c, a], 134, (i: nat) => ForkParent(i), (i: nat) => ForkHeight(i),
         (i: nat) => ForkWho(c, a, i),
         (i: nat) => if i == 129 then Some(Vote(a, 32, x)) else if i == 130 then Some(Vote(a, 64, y)) else None,
         (i: nat, z: Address) => if z != a.address then 0 else if i == 129 then 1 else if i == 130 then 2 else 0,
         (i: nat) => if i <= 2 then NoVotes() else if i <= 129 then none
                     else if i == 130 then OnceFinal(c, a, x) else TwiceFinal(c, a, x, y))
  }

  function OnceFinal(c: Validator, a: Validator, x: Hash): Votes {
    Votes(map[(1, a.address) := x], map[x := 2], x, 32, {c.address}, map[])
  }

  function TwiceFinal(c: Validator, a: Validator, x: Hash, y: Hash): Votes {
    Votes(map[(1, a.address) := x, (2, a.address) := y], map[x := 2, y := 2], y, 64, {c.address}, map[])
  }

  lemma ForkVotes(c: Validator, a: Validator, x: Hash, y: Hash)
    requires a.address != c.address && c.stake == 1 && a.stake == 2 && x != y
    ensures Cast([c, a], NoVotes().(jailed := {c.address}), Vote(a, 32, x)) == OnceFinal(c, a, x)
    ensures Cast([c, a], OnceFinal(c, a, x), Vote(a, 64, y)) == TwiceFinal(c, a, x, y)
  {
    ActiveOfTwo(c, a, {c.address});
    hide Active, StakeSum;
    assert Vote(a, 64, y).Slot() == (2, a.address);
  }

  lemma ForkOrdered(c: Validator, a: Validator)
    ensures Ordered(ForkPlan(c, a)) && NoncesFollow(ForkPlan(c, a))
    ensures forall i | 0 < i < 134 :: Again(ForkPlan(c, a), i) <==> i == 2
  {
    hide Id;
    var p := ForkPlan(c, a);
    forall i | 0 < i < 134
      ensures Again(p, i) <==> i == 2
    {
      if i == 2 { assert 0 < 1 < i && p.parent(1) == p.parent(i) && p.who(1) == p.who(i); }
    }
  }

  lemma ForkVoteHeights()
    ensures ForkHeight(129) == 65 && ForkHeight(130) == 66
  {
  }

  lemma ForkFair(c: Validator, a: Validator)
    requires a.address != c.address && c.stake == 1 && a.stake == 2
    ensures FairPlan(ForkPlan(c, a))
  {
    hide Id, Cast, Active, Find, PassesThrough, LogOf, Settings, Again, ForkParent, ForkHeight;
    var p := ForkPlan(c, a);
    ForkOrdered(c, a);
    IdInjective(33, 128);
    ForkVotes(c, a, Id(33), Id(128));
    ActivePair(c, a);
    FindPair(c, a);
    forall i | 0 < i < p.size
      ensures p.books(i + 1) == NextBooks(p, i)
    {
      assert i <= 2 ==> p.books(i) == NoVotes();
      assert 3 <= i <= 129 ==> p.books(i) == NoVotes().(jailed := {c.address});
    }
    forall i | 0 < i < p.size
      ensures Fair(p, i)
    {
      ForkPasses(c, a, i);
      assert i <= 2 ==> p.books(i) == NoVotes();
      assert i > 2 ==> p.books(i).jailed == {c.address};
      ForkVoteHeights();
    }
  }

  lemma ForkPasses(c: Validator, a: Validator, i: nat)
    requires 0 < i < 134
    ensures var p := ForkPlan(c, a);
            && Ordered(p) && Tree(LogOf(p))
            && (i == 130 ==> PassesThrough(Settings(p), LogOf(p), p.parent(i), Id(33), 32))
            && (i >= 131 ==> PassesThrough(Settings(p), LogOf(p), p.parent(i), Id(128), 64))
  {
    hide Id, PassesThrough, NoncesFollow, Again;
    var p := ForkPlan(c, a);
    ForkOrdered(c, a);
    PlanTree(p);
    if i == 130 { Reached(p, (k: nat) => 33 <= k <= 65 || k == 129, 129, 33); }
    if i >= 131 { Reached(p, (k: nat) => k == 128 || k >= 131, p.parent(i), 128); }
  }

  /** An accepted log in which the head is on the branch of a final checkpoint and later is not. */
  lemma FinalisedBranchLosesHead(c: Validator, a: Validator) returns (cfg: Config, log: Log, m: nat, n: nat)
    requires a.address != c.address && a.pubKey != c.pubKey && c.stake == 1 && a.stake == 2
    ensures Sane(cfg) && cfg.pos && Accepted(cfg, log) && 0 < m < n <= |log|
    ensures var s, u := Ballots(cfg, log[..m]), Ballots(cfg, log[..n]);
            && s.finalHash != ZERO_HASH && s.finalHeight < u.finalHeight
            && ChainLaws.OnBranch(cfg, log, Head(cfg, log[..m]), s.finalHash)
            && !ChainLaws.OnBranch(cfg, log, Head(cfg, log[..n]), s.finalHash)
            && ChainLaws.OnBranch(cfg, log, Head(cfg, log[..n]), u.finalHash)
  {
    hide Id, FairPlan, Accepted, Ballots, ChainLaws.OnBranch, Head, Active, StakeSum, ForkParent, ForkHeight, Ordered, LogOf, Settings;
    var p := ForkPlan(c, a);
    ForkOrdered(c, a);
    ForkFair(c, a);
    PlanAccepted(p);
    IdInjective(33, 33);
    ForkHeads(c, a);
    ForkSane(c, a);
    ForkBooks(c, a);
    return Settings(p), LogOf(p), 130, 134;
  }

  lemma ForkBooks(c: Validator, a: Validator)
    requires FairPlan(ForkPlan(c, a))
    ensures var p := ForkPlan(c, a);
            var s, u := Ballots(Settings(p), LogOf(p)[..130]), Ballots(Settings(p), LogOf(p)[..134]);
            |LogOf(p)| == 134 && s.finalHash == Id(33) && s.finalHeight == 32 && u.finalHash == Id(128) && u.finalHeight == 64
  {
    hide Id, FairPlan, Ballots, Active, StakeSum, ForkParent, ForkHeight;
    var p := ForkPlan(c, a);
    BooksKept(p, 130);
    BooksKept(p, 134);
    assert p.books(130) == OnceFinal(c, a, Id(33)) && p.books(134) == TwiceFinal(c, a, Id(33), Id(128));
  }

  lemma ForkSane(c: Validator, a: Validator)
    requires a.address != c.address && a.pubKey != c.pubKey && c.stake == 1 && a.stake == 2
    ensures Ordered(ForkPlan(c, a)) && Sane(Settings(ForkPlan(c, a))) && Settings(ForkPlan(c, a)).pos
  {
    hide Id, Active, StakeSum, NoncesFollow, Again;
    ForkOrdered(c, a);
    ActiveOfTwo(c, a, {});
    NobodyJailed([c, a]);
  }

  lemma ForkHeads(c: Validator, a: Validator)
    ensures var p := ForkPlan(c, a);
            && Ordered(p) && Tree(LogOf(p)) && Tree(LogOf(p)[..130]) && Tree(LogOf(p)[..134])
            && Head(Settings(p), LogOf(p)[..130]) == 129 && Head(Settings(p), LogOf(p)[..134]) == 133
            && ChainLaws.OnBranch(Settings(p), LogOf(p), 129, Id(33)) && ChainLaws.OnBranch(Settings(p), LogOf(p), 133, Id(128))
            && !ChainLaws.OnBranch(Settings(p), LogOf(p), 133, Id(33))
  {
    hide Id, PassesThrough, Path, Head, NoncesFollow, Again;
    var p := ForkPlan(c, a);
    ForkOrdered(c, a);
    HighestIsHead(p, 130, 129);
    HighestIsHead(p, 134, 133);
    Reached(p, (k: nat) => 33 <= k <= 65 || k == 129, 129, 33);
    Reached(p, (k: nat) => k == 128 || k >= 131, 133, 128);
    var j := ChainLaws.PassingMeets(Settings(p), LogOf(p), 129, Id(33), 32);
    var l := ChainLaws.PassingMeets(Settings(p), LogOf(p), 133, Id(128), 64);
    OffBranch(p);
  }

  lemma OffBranch(p: Plan)
    requires Ordered(p) && p.size == 134 && (forall i: nat :: p.parent(i) == ForkParent(i)) && Tree(LogOf(p))
    ensures !ChainLaws.OnBranch(Settings(p), LogOf(p), 133, Id(33))
  {
    hide Id, Path;
    var log := LogOf(p);
    forall j | j in Path(log, 133) && j < |log|
      ensures Settings(p).hash(log[j].block) != Id(33)
    {
      PathWithin(p, (k: nat) => k == 0 || k == 2 || 66 <= k <= 128 || k >= 131, 133, j);
      IdInjective(j, 33);
    }
  }
}
