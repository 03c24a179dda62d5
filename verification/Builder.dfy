/**
 The block builder (chain/blockbuilder.go): a greedy choice of pending transactions, bounded by
 a gas budget, that advances each sender's nonce-ordered queue only from its front.
 */
module Builder {
  import opened Core
  import opened State
  import opened FeeMarket
  import opened Transition

  predicate IsFeePriced(w: World, tx: Tx) {
    !IsExchange(tx) && !IsAttestation(tx) && (IsEvm(w, tx) || IsContract(w, tx))
  }

  // Orders

  /** Byte-wise lexicographic order, which is also the order of the hexadecimal forms. */
  predicate Less(a: Bytes, b: Bytes) {
    |b| > 0 && (|a| == 0 || a[0] < b[0] || (a[0] == b[0] && Less(a[1..], b[1..])))
  }

  lemma {:induction false} LessTotal(a: Bytes, b: Bytes)
    ensures (Less(a, b) || Less(b, a) || a == b) && !(Less(a, b) && Less(b, a)) && !Less(a, a)
    decreases |a| + |b|
  {
    if |a| > 0 && |b| > 0 && a[0] == b[0] {
      LessTotal(a[1..], b[1..]);
      assert a == [a[0]] + a[1..] && b == [b[0]] + b[1..];
    }
    if |a| > 0 { LessIrreflexive(a); }
  }

  lemma {:induction false} LessIrreflexive(a: Bytes)
    ensures !Less(a, a)
  {
    if |a| > 0 { LessIrreflexive(a[1..]); }
  }

  lemma {:induction false} LessTransitive(a: Bytes, b: Bytes, c: Bytes)
    requires Less(a, b) && Less(b, c)
    ensures Less(a, c)
  {
    if |a| > 0 && a[0] == b[0] == c[0] { LessTransitive(a[1..], b[1..], c[1..]); }
  }

  ghost predicate Ascending(s: seq<Address>) {
    forall i, j | 0 <= i < j < |s| :: Less(s[i], s[j])
  }

  ghost predicate ByNonce(s: seq<Tx>) {
    forall i, j | 0 <= i < j < |s| :: s[i].nonce <= s[j].nonce
  }

  function InsertAddr(s: seq<Address>, a: Address): seq<Address> {
    if |s| == 0 || Less(s[|s| - 1], a) then s + [a]
    else InsertAddr(s[..|s| - 1], a) + [s[|s| - 1]]
  }

  function InsertTx(s: seq<Tx>, tx: Tx): seq<Tx> {
    if |s| == 0 || s[|s| - 1].nonce <= tx.nonce then s + [tx]
    else InsertTx(s[..|s| - 1], tx) + [s[|s| - 1]]
  }

  function SortTxs(s: seq<Tx>): seq<Tx> {
    if |s| == 0 then [] else InsertTx(SortTxs(s[..|s| - 1]), s[|s| - 1])
  }

  lemma {:induction false} InsertTxKeeps(s: seq<Tx>, tx: Tx)
    ensures multiset(InsertTx(s, tx)) == multiset(s) + multiset{tx}
  {
    if |s| > 0 && s[|s| - 1].nonce > tx.nonce {
      InsertTxKeeps(s[..|s| - 1], tx);
      assert s == s[..|s| - 1] + [s[|s| - 1]];
    }
  }

  lemma {:induction false} InsertTxSorts(s: seq<Tx>, tx: Tx)
    requires ByNonce(s)
    ensures ByNonce(InsertTx(s, tx))
    ensures forall i | 0 <= i < |InsertTx(s, tx)| :: InsertTx(s, tx)[i] == tx || InsertTx(s, tx)[i] in s
  {
    if |s| > 0 && s[|s| - 1].nonce > tx.nonce { InsertTxSorts(s[..|s| - 1], tx); }
  }

  lemma {:induction false} SortTxsSorts(s: seq<Tx>)
    ensures ByNonce(SortTxs(s)) && multiset(SortTxs(s)) == multiset(s)
  {
    if |s| > 0 {
      hide ByNonce, InsertTx;
      var n := |s| - 1;
      SortTxsSorts(s[..n]);
      InsertTxSorts(SortTxs(s[..n]), s[n]);
      InsertTxKeeps(SortTxs(s[..n]), s[n]);
      assert s == s[..n] + [s[n]];
    }
  }

  lemma {:induction false} InsertAddrSorts(s: seq<Address>, a: Address)
    requires Ascending(s) && a !in s
    ensures Ascending(InsertAddr(s, a)) && forall b :: b in InsertAddr(s, a) <==> b in s || b == a
  {
    if |s| == 0 {
    } else {
      var n := |s| - 1;
      LessTotal(s[n], a);
      assert s == s[..n] + [s[n]];
      if Less(s[n], a) {
        forall i | 0 <= i < n
          ensures Less(s[i], a)
        {
          LessTransitive(s[i], s[n], a);
        }
      } else {
        InsertAddrSorts(s[..n], a);
        var r := InsertAddr(s[..n], a);
        forall i | 0 <= i < |r|
          ensures Less(r[i], s[n])
        {
          assert r[i] in r;
        }
      }
    }
  }

  // Queues

  /** A sender's pending transactions, in order of arrival. */
  function From(mempool: seq<Tx>, a: Address): seq<Tx> {
    if |mempool| == 0 then [] else
    var rest, tx := From(mempool[..|mempool| - 1], a), mempool[|mempool| - 1];
    if tx.from == a then rest + [tx] else rest
  }

  function Senders(mempool: seq<Tx>): seq<Address> {
    if |mempool| == 0 then [] else
    var rest, a := Senders(mempool[..|mempool| - 1]), mempool[|mempool| - 1].from;
    if a in rest then rest else InsertAddr(rest, a)
  }

  /** What the builder works on: the head state, the prices, and a queue for each sender in address order. */
  datatype Pool = Pool(world: World, baseFee: uint64, gasLimit: uint64, senders: seq<Address>, queues: map<Address, seq<Tx>>)

  function PoolOf(w: World, baseFee: uint64, gasLimit: uint64, mempool: seq<Tx>): Pool {
    Pool(w, baseFee, gasLimit, Senders(mempool), map a | a in Senders(mempool) :: SortTxs(From(mempool, a)))
  }

  ghost predicate Sends(mempool: seq<Tx>, a: Address) {
    exists i :: 0 <= i < |mempool| && mempool[i].from == a
  }

  lemma SentBefore(mempool: seq<Tx>, a: Address)
    requires |mempool| > 0
    ensures Sends(mempool, a) <==> mempool[|mempool| - 1].from == a || Sends(mempool[..|mempool| - 1], a)
  {
    var n := |mempool| - 1;
    if i :| 0 <= i < n && mempool[i].from == a { assert mempool[..n][i].from == a; }
    if i :| 0 <= i < n && mempool[..n][i].from == a { assert mempool[i].from == a; }
  }

  lemma {:induction false} SendersMean(mempool: seq<Tx>)
    ensures Ascending(Senders(mempool)) && forall a :: a in Senders(mempool) <==> Sends(mempool, a)
  {
    if |mempool| > 0 {
      hide Sends, Ascending;
      var n := |mempool| - 1;
      SendersMean(mempool[..n]);
      var a := mempool[n].from;
      if a !in Senders(mempool[..n]) { InsertAddrSorts(Senders(mempool[..n]), a); }
      forall b
        ensures b in Senders(mempool) <==> Sends(mempool, b)
      {
        SentBefore(mempool, b);
      }
    }
  }

  // The greedy loop

  /** How far each queue is taken, who may still contribute, what is included, and the gas it declares. */
  datatype Build = Build(at: map<Address, nat>, active: set<Address>, included: seq<Tx>, budget: uint64)

  ghost predicate Wf(p: Pool, b: Build) {
    && (forall i | 0 <= i < |p.senders| :: p.senders[i] in p.queues && p.senders[i] in b.at)
    && (forall a | a in b.at :: a in p.senders && a in p.queues && b.at[a] <= |p.queues[a]|)
    && (forall a | a in b.active :: a in b.at && b.at[a] < |p.queues[a]|)
  }

  function Front(p: Pool, b: Build, a: Address): Tx
    requires Wf(p, b) && a in b.active
  {
    p.queues[a][b.at[a]]
  }

  predicate FreeFront(p: Pool, b: Build, a: Address)
    requires Wf(p, b)
  {
    a in b.active && !IsFeePriced(p.world, Front(p, b, a))
  }

  /** Includes a sender's front transaction; a sender with nothing left is no longer active. */
  function Include(p: Pool, b: Build, a: Address): (c: Build)
    requires Wf(p, b) && a in b.active
    ensures Wf(p, c)
  {
    var i := b.at[a] + 1;
    Build(b.at[a := i], if i < |p.queues[a]| then b.active else b.active - {a}, b.included + [Front(p, b, a)], b.budget)
  }

  function Retire(p: Pool, b: Build, a: Address): (c: Build)
    requires Wf(p, b)
    ensures Wf(p, c)
  {
    b.(active := b.active - {a})
  }

  /** Takes every free transaction at the front of one queue. */
  function DrainOne(p: Pool, b: Build, a: Address): (c: Build)
    requires Wf(p, b)
    ensures Wf(p, c)
    decreases if a in b.active then |p.queues[a]| - b.at[a] else 0
  {
    if FreeFront(p, b, a) then DrainOne(p, Include(p, b, a), a) else b
  }

  function Drain(p: Pool, b: Build, n: nat): (c: Build)
    requires Wf(p, b) && n <= |p.senders|
    ensures Wf(p, c)
  {
    if n == 0 then b else DrainOne(p, Drain(p, b, n - 1), p.senders[n - 1])
  }

  predicate PricedOut(p: Pool, b: Build, a: Address)
    requires Wf(p, b)
  {
    a in b.active && Front(p, b, a).feeCap < p.baseFee
  }

  /** Retires the senders whose front transaction cannot pay the base fee. */
  function PriceOut(p: Pool, b: Build, n: nat): (c: Build)
    requires Wf(p, b) && n <= |p.senders|
    ensures Wf(p, c) && c.at == b.at && c.active <= b.active && c.included == b.included && c.budget == b.budget
  {
    if n == 0 then b else
    var c := PriceOut(p, b, n - 1);
    var a := p.senders[n - 1];
    if PricedOut(p, c, a) then Retire(p, c, a) else c
  }

  function PriorityFee(p: Pool, tx: Tx): uint64 {
    match EffectiveGasPrice(p.baseFee, tx.feeCap, tx.tipCap)
    case Ok((price, tip)) => tip
    case Err(_) => 0
  }

  /** The active sender paying most, the first in address order among equals. */
  function Best(p: Pool, b: Build, n: nat): (r: Option<Address>)
    requires Wf(p, b) && n <= |p.senders|
    ensures r.Some? ==> r.value in b.active
  {
    if n == 0 then None else
    var r, a := Best(p, b, n - 1), p.senders[n - 1];
    if a in b.active && (r.None? || PriorityFee(p, Front(p, b, a)) > PriorityFee(p, Front(p, b, r.value)))
    then Some(a) else r
  }

  function Award(p: Pool, b: Build, a: Address): (c: Build)
    requires Wf(p, b) && a in b.active
    ensures Wf(p, c)
  {
    var total := Add64(b.budget, Front(p, b, a).gasLimit);
    if total > p.gasLimit then Retire(p, b, a) else Include(p, b, a).(budget := total)
  }

  function Round(p: Pool, b: Build): (c: Build)
    requires Wf(p, b)
    ensures Wf(p, c)
  {
    var n := |p.senders|;
    var c := PriceOut(p, Drain(p, b, n), n);
    match Best(p, c, n)
    case None => c
    case Some(a) => Award(p, c, a)
  }

  // Every round makes progress

  /** Transactions not yet taken, over the first `n` senders. */
  ghost function Left(p: Pool, b: Build, n: nat): nat
    requires Wf(p, b) && n <= |p.senders|
  {
    if n == 0 then 0 else Left(p, b, n - 1) + |p.queues[p.senders[n - 1]]| - b.at[p.senders[n - 1]]
  }

  ghost function Measure(p: Pool, b: Build): nat
    requires Wf(p, b)
  {
    Left(p, b, |p.senders|) + |b.active|
  }

  /** Advancing one queue lowers what is left; it never rises. */
  lemma {:induction false} LeftFalls(p: Pool, b: Build, c: Build, n: nat)
    requires Wf(p, b) && Wf(p, c) && n <= |p.senders|
    requires forall a | a in b.at :: a in c.at && b.at[a] <= c.at[a]
    ensures Left(p, c, n) <= Left(p, b, n)
    ensures (exists i :: 0 <= i < n && b.at[p.senders[i]] < c.at[p.senders[i]]) ==> Left(p, c, n) < Left(p, b, n)
  {
    if n > 0 {
      LeftFalls(p, b, c, n - 1);
      assert p.senders[n - 1] in b.at;
    }
  }

  /** Positions only advance, and activity is only lost. */
  ghost predicate Further(p: Pool, b: Build, c: Build) {
    && Wf(p, b) && Wf(p, c) && c.active <= b.active && c.at.Keys == b.at.Keys
    && (forall a | a in b.at :: b.at[a] <= c.at[a])
  }

  lemma FurtherMeasure(p: Pool, b: Build, c: Build)
    requires Further(p, b, c)
    ensures Measure(p, c) <= Measure(p, b)
    ensures c.active != b.active ==> Measure(p, c) < Measure(p, b)
    ensures (exists a :: a in b.at && b.at[a] < c.at[a]) ==> Measure(p, c) < Measure(p, b)
  {
    hide Left;
    LeftFalls(p, b, c, |p.senders|);
    Smaller(c.active, b.active);
    if a :| a in b.at && b.at[a] < c.at[a] {
      var i :| 0 <= i < |p.senders| && p.senders[i] == a;
    }
  }

  lemma {:induction false} Smaller(s: set<Address>, t: set<Address>)
    requires s <= t
    ensures |s| <= |t| && (s != t ==> |s| < |t|)
  {
    assert t == s + (t - s) && |t| == |s| + |t - s|;
  }

  lemma {:induction false} DrainOneFurther(p: Pool, b: Build, a: Address)
    requires Wf(p, b)
    ensures Further(p, b, DrainOne(p, b, a)) && !FreeFront(p, DrainOne(p, b, a), a)
    ensures forall c | c in b.at && c != a :: DrainOne(p, b, a).at[c] == b.at[c] && (c in b.active ==> c in DrainOne(p, b, a).active)
    decreases if a in b.active then |p.queues[a]| - b.at[a] else 0
  {
    hide IsFeePriced;
    if FreeFront(p, b, a) { DrainOneFurther(p, Include(p, b, a), a); }
  }

  lemma StillPriced(p: Pool, b: Build, c: Build, a: Address)
    requires Further(p, b, c) && !FreeFront(p, b, a) && (a in b.at ==> c.at[a] == b.at[a])
    ensures !FreeFront(p, c, a)
  {
  }

  lemma FurtherStill(p: Pool, b: Build, c: Build, d: Build)
    requires Further(p, b, c) && Further(p, c, d)
    ensures Further(p, b, d)
  {
  }

  lemma {:induction false} DrainFurther(p: Pool, b: Build, n: nat)
    requires Wf(p, b) && n <= |p.senders|
    ensures Further(p, b, Drain(p, b, n))
    decreases n
  {
    hide Wf, DrainOne;
    if n > 0 {
      hide Further;
      DrainFurther(p, b, n - 1);
      DrainOneFurther(p, Drain(p, b, n - 1), p.senders[n - 1]);
      FurtherStill(p, b, Drain(p, b, n - 1), Drain(p, b, n));
    }
  }

  /** After draining, every active sender's front transaction is fee-priced. */
  lemma {:induction false} Drained(p: Pool, b: Build, n: nat, i: nat)
    requires Wf(p, b) && i < n <= |p.senders|
    ensures !FreeFront(p, Drain(p, b, n), p.senders[i])
  {
    hide Wf, FreeFront, DrainOne;
    var c, a := Drain(p, b, n - 1), p.senders[n - 1];
    DrainOneFurther(p, c, a);
    if p.senders[i] != a {
      if i < n - 1 { Drained(p, b, n - 1, i); }
      StillPriced(p, c, DrainOne(p, c, a), p.senders[i]);
    }
  }

  lemma {:induction false} BestFound(p: Pool, b: Build, n: nat)
    requires Wf(p, b) && n <= |p.senders|
    ensures Best(p, b, n).None? ==> forall i | 0 <= i < n :: p.senders[i] !in b.active
  {
    hide PriorityFee;
    if n > 0 { BestFound(p, b, n - 1); }
  }

  lemma NobodyLeft(p: Pool, b: Build)
    requires Wf(p, b) && Best(p, b, |p.senders|).None?
    ensures b.active == {}
  {
    hide Best;
    BestFound(p, b, |p.senders|);
    forall a | a in b.at
      ensures a !in b.active
    {
      var i :| 0 <= i < |p.senders| && p.senders[i] == a;
    }
  }

  lemma RoundShrinks(p: Pool, b: Build)
    requires Wf(p, b) && b.active != {}
    ensures Measure(p, Round(p, b)) < Measure(p, b)
  {
    hide Drain, PriceOut, Best, Measure, IsFeePriced;
    var n := |p.senders|;
    var d := Drain(p, b, n);
    var c := PriceOut(p, d, n);
    DrainFurther(p, b, n);
    FurtherMeasure(p, b, c);
    match Best(p, c, n) {
      case None => NobodyLeft(p, c);
      case Some(a) =>
        FurtherMeasure(p, c, Award(p, c, a));
        assert Award(p, c, a).active != c.active || c.at[a] < Award(p, c, a).at[a];
    }
  }

  ghost function Finish(p: Pool, b: Build): (c: Build)
    requires Wf(p, b)
    ensures Wf(p, c) && c.active == {}
    decreases Measure(p, b)
  {
    if b.active == {} then b else
    RoundShrinks(p, b);
    Finish(p, Round(p, b))
  }
}
