/**
 Proof-of-stake building blocks: the validator set (pos/validator.go), stake-weighted
 proposer selection (pos/proposer.go) and checkpoint attestations (pos/attestation.go).
 */
module Pos {
  import opened Core
  import opened State

  datatype Validator = Validator(address: Address, pubKey: Bytes, stake: uint64)

  function StakeSum(vs: seq<Validator>): nat {
    if |vs| == 0 then 0 else StakeSum(vs[..|vs| - 1]) + vs[|vs| - 1].stake
  }

  /** Positive stakes, distinct addresses and keys, registrable keys, and a total that fits 64 bits. */
  predicate ValidSet(vs: seq<Validator>, keyOk: Bytes -> bool) {
    && |vs| > 0
    && (forall i | 0 <= i < |vs| :: vs[i].stake > 0 && keyOk(vs[i].pubKey))
    && (forall i, j | 0 <= i < j < |vs| :: vs[i].address != vs[j].address && vs[i].pubKey != vs[j].pubKey)
    && StakeSum(vs) < U64
  }

  lemma {:induction false} StakeSumPrefix(vs: seq<Validator>, n: nat)
    requires n <= |vs|
    ensures StakeSum(vs[..n]) <= StakeSum(vs)
    decreases |vs|
  {
    if n < |vs| {
      StakeSumPrefix(vs[..|vs| - 1], n);
      assert vs[..|vs| - 1][..n] == vs[..n];
    } else {
      assert vs[..n] == vs;
    }
  }

  lemma StakeSumEmpty(vs: seq<Validator>)
    ensures StakeSum(vs[..0]) == 0
  {
  }

  lemma StakeSumStep(vs: seq<Validator>, i: nat)
    requires i < |vs|
    ensures StakeSum(vs[..i + 1]) == StakeSum(vs[..i]) + vs[i].stake <= StakeSum(vs)
  {
    assert vs[..i + 1][..i] == vs[..i];
    StakeSumPrefix(vs, i + 1);
  }

  /** The conditions checked for the first `n` validators of a registration. */
  ghost predicate Vetted(vs: seq<Validator>, keyOk: Bytes -> bool, n: nat)
    requires n <= |vs|
  {
    && (forall j | 0 <= j < n :: vs[j].stake > 0 && keyOk(vs[j].pubKey))
    && (forall j, k | 0 <= j < k < n :: vs[j].address != vs[k].address && vs[j].pubKey != vs[k].pubKey)
  }

  /** Registration succeeds exactly on a valid set, and then the 64-bit total is the true total. */
  method NewValidatorSet(vs: seq<Validator>, keyOk: Bytes -> bool) returns (total: Option<uint64>)
    ensures total.Some? <==> ValidSet(vs, keyOk)
    ensures total.Some? ==> total.value == StakeSum(vs)
  {
    hide StakeSum;
    if |vs| == 0 {
      return None;
    }
    var seenAddr: set<Address>, seenPub: set<Bytes> := {}, {};
    var sum := 0;
    StakeSumEmpty(vs);
    for i := 0 to |vs|
      invariant forall a :: a in seenAddr <==> exists j :: 0 <= j < i && vs[j].address == a
      invariant forall p :: p in seenPub <==> exists j :: 0 <= j < i && vs[j].pubKey == p
      invariant Vetted(vs, keyOk, i)
      invariant sum == StakeSum(vs[..i]) < U64
    {
      var v := vs[i];
      StakeSumStep(vs, i);
      if v.stake == 0 || v.address in seenAddr || v.pubKey in seenPub || !keyOk(v.pubKey) {
        return None;
      }
      seenAddr, seenPub := seenAddr + {v.address}, seenPub + {v.pubKey};
      var newTotal := Add64(sum, v.stake);
      if newTotal < sum {
        return None;
      }
      sum := newTotal;
    }
    assert vs[..|vs|] == vs;
    total := Some(sum);
  }

  /** The registered validators that are not jailed, in registration order. */
  function Active(vs: seq<Validator>, jailed: set<Address>): seq<Validator> {
    if |vs| == 0 then [] else
    var rest, v := Active(vs[..|vs| - 1], jailed), vs[|vs| - 1];
    if v.address in jailed then rest else rest + [v]
  }

  lemma {:induction false} ActiveSound(vs: seq<Validator>, jailed: set<Address>)
    ensures StakeSum(Active(vs, jailed)) <= StakeSum(vs)
    ensures forall v | v in Active(vs, jailed) :: v in vs && v.address !in jailed
  {
    if |vs| > 0 {
      ActiveSound(vs[..|vs| - 1], jailed);
      var rest, v := Active(vs[..|vs| - 1], jailed), vs[|vs| - 1];
      assert (rest + [v])[..|rest|] == rest;
    }
  }

  lemma ActiveNone(vs: seq<Validator>, jailed: set<Address>)
    ensures Active(vs[..0], jailed) == [] && StakeSum([]) == 0 && StakeSum(vs[..0]) == 0
  {
  }

  lemma ActiveStep(vs: seq<Validator>, jailed: set<Address>, i: nat)
    requires i < |vs|
    ensures Active(vs[..i + 1], jailed)
         == Active(vs[..i], jailed) + (if vs[i].address in jailed then [] else [vs[i]])
    ensures StakeSum(Active(vs[..i], jailed) + [vs[i]]) == StakeSum(Active(vs[..i], jailed)) + vs[i].stake
  {
    assert vs[..i + 1][..i] == vs[..i];
    var a := Active(vs[..i], jailed);
    assert (a + [vs[i]])[..|a|] == a;
  }

  method EffectiveStake(vs: seq<Validator>, jailed: set<Address>) returns (active: seq<Validator>, total: uint64)
    requires StakeSum(vs) < U64
    ensures active == Active(vs, jailed) && total == StakeSum(active)
  {
    hide StakeSum, Active;
    ActiveNone(vs, jailed);
    active, total := [], 0;
    for i := 0 to |vs|
      invariant active == Active(vs[..i], jailed) && total == StakeSum(active) <= StakeSum(vs[..i])
    {
      ActiveStep(vs, jailed, i);
      StakeSumStep(vs, i);
      if vs[i].address in jailed {
        continue;
      }
      active := active + [vs[i]];
      total := Add64(total, vs[i].stake);
    }
    assert vs[..|vs|] == vs;
  }

  function Find(vs: seq<Validator>, a: Address): (r: Option<Validator>)
    ensures r.Some? ==> r.value in vs && r.value.address == a
    ensures r.None? ==> forall v | v in vs :: v.address != a
  {
    if |vs| == 0 then None
    else if vs[0].address == a then Some(vs[0])
    else Find(vs[1..], a)
  }

  method ByAddress(vs: seq<Validator>, a: Address) returns (r: Option<Validator>)
    ensures r == Find(vs, a)
  {
    for i := 0 to |vs|
      invariant Find(vs, a) == Find(vs[i..], a)
    {
      if vs[i].address == a {
        return Some(vs[i]);
      }
    }
    r := None;
  }

  // Proposer selection

  /** `v` is the validator whose half-open range of cumulative stake contains the target. */
  ghost predicate Selected(active: seq<Validator>, target: nat, v: Validator) {
    exists i :: 0 <= i < |active| && v == active[i] && StakeSum(active[..i]) <= target < StakeSum(active[..i + 1])
  }

  /** The roulette wheel: exactly one validator is selected, each for as many targets as it has stake. */
  lemma {:induction false} SelectedUnique(active: seq<Validator>, target: nat, i: nat, j: nat)
    requires i < |active| && j < |active|
    requires StakeSum(active[..i]) <= target < StakeSum(active[..i + 1])
    requires StakeSum(active[..j]) <= target < StakeSum(active[..j + 1])
    ensures i == j && StakeSum(active[..i + 1]) - StakeSum(active[..i]) == active[i].stake
  {
    assert active[..i + 1][..i] == active[..i];
    if i < j {
      SumsRise(active, i + 1, j);
    } else if j < i {
      SumsRise(active, j + 1, i);
    }
  }

  lemma SumsRise(vs: seq<Validator>, m: nat, n: nat)
    requires m <= n <= |vs|
    ensures StakeSum(vs[..m]) <= StakeSum(vs[..n])
  {
    StakeSumPrefix(vs[..n], m);
    assert vs[..n][..m] == vs[..m];
  }

  /** The first validator whose cumulative stake exceeds `target`, or the last one. */
  function Walk(active: seq<Validator>, i: nat, target: nat): Validator
    requires i <= |active| && |active| > 0
    decreases |active| - i
  {
    if i == |active| then active[i - 1]
    else if target < StakeSum(active[..i + 1]) then active[i]
    else Walk(active, i + 1, target)
  }

  function Select(active: seq<Validator>, seed: nat): Option<Validator> {
    var total := StakeSum(active);
    if total == 0 || |active| == 0 then None else Some(Walk(active, 0, seed % total))
  }

  lemma {:induction false} WalkSelects(active: seq<Validator>, i: nat, target: nat)
    requires i < |active| && StakeSum(active[..i]) <= target < StakeSum(active)
    ensures Selected(active, target, Walk(active, i, target))
    decreases |active| - i
  {
    if target >= StakeSum(active[..i + 1]) {
      assert i + 1 < |active| by { assert active[..|active|] == active; }
      WalkSelects(active, i + 1, target);
    }
  }

  /** The fallback is never reached: the choice is always the owner of the target's stake range. */
  lemma SelectSound(active: seq<Validator>, seed: nat)
    requires StakeSum(active) > 0
    ensures |active| > 0 && Select(active, seed).Some?
    ensures Selected(active, seed % StakeSum(active), Select(active, seed).value)
    ensures Select(active, seed).value in active
  {
    assert active[..0] == [];
    WalkSelects(active, 0, seed % StakeSum(active));
  }

  lemma WalkStep(active: seq<Validator>, i: nat, target: nat)
    requires i <= |active| && |active| > 0
    ensures Walk(active, i, target) ==
            if i == |active| then active[i - 1]
            else if target < StakeSum(active[..i + 1]) then active[i] else Walk(active, i + 1, target)
  {
  }

  method SelectProposer(active: seq<Validator>, total: uint64, seed: nat) returns (r: Option<Validator>)
    requires total == StakeSum(active)
    ensures r == Select(active, seed)
  {
    hide StakeSum, Walk;
    if total == 0 || |active| == 0 {
      return None;
    }
    var target := seed % total;
    r := FirstBeyond(active, total, target);
  }

  /** The scan over the cumulative stake. */
  method FirstBeyond(active: seq<Validator>, total: uint64, target: nat) returns (r: Option<Validator>)
    requires total == StakeSum(active) && |active| > 0
    ensures r == Some(Walk(active, 0, target))
  {
    hide StakeSum, Walk;
    var cum := 0;
    StakeSumEmpty(active);
    for i := 0 to |active|
      invariant cum == StakeSum(active[..i]) && Walk(active, 0, target) == Walk(active, i, target)
    {
      StakeSumStep(active, i);
      WalkStep(active, i, target);
      cum := Add64(cum, active[i].stake);
      if target < cum {
        return Some(active[i]);
      }
    }
    WalkStep(active, |active|, target);
    r := Some(active[|active| - 1]);
  }

  // Attestations

  const CHECKPOINT_INTERVAL: int := 32
  const OP_ATTEST: byte := 0xA1
  const SIG_SIZE: int := 96

  datatype Attestation = Attestation(height: uint64, target: Hash, sig: Bytes)

  function CheckpointRound(height: uint64): uint64 { height / CHECKPOINT_INTERVAL }

  /** What copying a byte string into a zeroed buffer of `n` bytes leaves there. */
  function Fitted(b: Bytes, n: nat): Bytes {
    if |b| >= n then b[..n] else b + seq(n - |b|, i => 0)
  }

  function EncodeAttest(a: Attestation): Bytes {
    [OP_ATTEST] + BigEndian(a.height, 8) + a.target + Fitted(a.sig, SIG_SIZE)
  }

  function DecodeAttest(data: Bytes): Option<Attestation> {
    if |data| != 137 || data[0] != OP_ATTEST then None
    else Some(Attestation(Word64(data[1..9]), data[9..41], data[41..]))
  }

  /** Height and target always survive; the signature does exactly when it has the fixed length. */
  lemma AttestRoundTrip(a: Attestation)
    ensures DecodeAttest(EncodeAttest(a)) == Some(a.(sig := Fitted(a.sig, SIG_SIZE)))
    ensures DecodeAttest(EncodeAttest(a)) == Some(a) <==> |a.sig| == SIG_SIZE
  {
    hide BigEndian, FromBigEndian;
    WordWidth();
    BigEndianRoundTrip(a.height, 8);
    var d := EncodeAttest(a);
    assert d[1..9] == BigEndian(a.height, 8) && d[9..41] == a.target && d[41..] == Fitted(a.sig, SIG_SIZE);
    assert |a.sig| == SIG_SIZE ==> Fitted(a.sig, SIG_SIZE) == a.sig;
    assert |Fitted(a.sig, SIG_SIZE)| == SIG_SIZE;
  }

  /** Calldata that decodes is the one encoding of what it decodes to. */
  lemma AttestCanonical(d: Bytes)
    requires DecodeAttest(d).Some?
    ensures EncodeAttest(DecodeAttest(d).value) == d
  {
    hide BigEndian, FromBigEndian;
    var a := DecodeAttest(d).value;
    WordWidth();
    BigEndianRoundTrip(a.height, 8);
    BigEndianInjective(d[1..9], BigEndian(a.height, 8));
    assert d == [d[0]] + d[1..9] + d[9..41] + d[41..];
  }
}
