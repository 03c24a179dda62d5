/**
 What the block builder guarantees about its choice, and the loops that make it
 (chain/blockbuilder.go).
 */
module BuilderLaws {
  import opened Core
  import opened State
  import opened FeeMarket
  import opened Transition
  import opened Builder
  import Dispatch

  // What the builder takes for fee-priced

  /** The builder's notion is the dispatch's exactly unless an attestation goes to an address with tagged code. */
  lemma FeePricedExact(w: World, tx: Tx)
    ensures (IsFeePriced(w, tx) <==> PricedByGas(w, tx)) <==> !(IsAttestation(tx) && Dispatch.IsTaggedCode(CodeAt(w, tx.to)))
  {
    assert Dispatch.ATTEST_ADDRESS[0] == 0x50 && Dispatch.EXCHANGE_ADDRESS[0] == 0xEC && Dispatch.DEPLOY_ADDRESS[0] == 0x45;
  }

  /** With tagged code there, an attestation is free for the builder and charged by the dispatch. */
  lemma TaggedAttestationDiffers(w: World, tx: Tx, runtime: Bytes)
    requires tx.to == Dispatch.ATTEST_ADDRESS
    ensures var w' := WithCode(w, tx.to, Dispatch.TagCode(runtime)); !IsFeePriced(w', tx) && PricedByGas(w', tx)
  {
    Dispatch.TagRoundTrip(runtime);
    assert Dispatch.ATTEST_ADDRESS[0] == 0x50 && Dispatch.EXCHANGE_ADDRESS[0] == 0xEC;
  }

  /** Each queue holds its own sender's transactions. */
  ghost predicate Owned(p: Pool) {
    forall a, i | a in p.queues && 0 <= i < |p.queues[a]| :: p.queues[a][i].from == a
  }

  /** No gas that can reach the budget test is so large that adding it to the limit leaves 64 bits. */
  ghost predicate Roomy(p: Pool) {
    forall a, i | a in p.queues && 0 <= i < |p.queues[a]| :: CanCompete(p, p.queues[a][i]) ==> p.gasLimit + p.queues[a][i].gasLimit < U64
  }

  predicate CanCompete(p: Pool, tx: Tx) { IsFeePriced(p.world, tx) && tx.feeCap >= p.baseFee }

  /** The gas declared by the fee-priced transactions. */
  function Declared(w: World, txs: seq<Tx>): nat {
    if |txs| == 0 then 0 else
    var tx := txs[|txs| - 1];
    Declared(w, txs[..|txs| - 1]) + if IsFeePriced(w, tx) then tx.gasLimit else 0
  }

  /** What is included of each sender is a prefix of its queue, and nothing else is included. */
  ghost predicate Prefixes(p: Pool, b: Build)
    requires Wf(p, b)
  {
    && (forall a | a in b.at :: From(b.included, a) == p.queues[a][..b.at[a]])
    && (forall a | a !in b.at :: From(b.included, a) == [])
  }

  /** A queue ends, or stops at a fee-priced transaction under the base fee or too large beside the gas declared. */
  ghost predicate Halts(p: Pool, a: Address, i: nat, declared: nat)
    requires a in p.queues
  {
    i < |p.queues[a]| ==>
      var tx := p.queues[a][i];
      IsFeePriced(p.world, tx) && (tx.feeCap < p.baseFee || declared + tx.gasLimit > p.gasLimit)
  }

  ghost predicate Stops(p: Pool, b: Build)
    requires Wf(p, b)
  {
    forall a | a in b.at && a !in b.active :: Halts(p, a, b.at[a], Declared(p.world, b.included))
  }

  /** The budget is the gas declared, in 64 bits, and never above the limit. */
  ghost predicate Within(p: Pool, b: Build) {
    b.budget == Declared(p.world, b.included) % U64 && b.budget <= p.gasLimit
  }

  /** Every included fee-priced transaction can pay the base fee. */
  ghost predicate Payable(p: Pool, txs: seq<Tx>) {
    forall i | 0 <= i < |txs| && IsFeePriced(p.world, txs[i]) :: txs[i].feeCap >= p.baseFee
  }

  ghost predicate Inv(p: Pool, b: Build): (ok: bool)
    ensures ok ==> Wf(p, b)
  {
    && Wf(p, b) && Owned(p) && Prefixes(p, b) && Payable(p, b.included) && Stops(p, b) && Within(p, b)
    && (Roomy(p) ==> Declared(p.world, b.included) < U64)
  }

  lemma FromOne(txs: seq<Tx>, tx: Tx, a: Address)
    ensures From(txs + [tx], a) == From(txs, a) + if tx.from == a then [tx] else []
  {
  }

  lemma IncludePrefixes(p: Pool, b: Build, a: Address, budget: uint64)
    requires Wf(p, b) && Owned(p) && Prefixes(p, b) && a in b.active
    ensures Prefixes(p, Include(p, b, a).(budget := budget))
  {
  }

  lemma DeclaredOne(w: World, txs: seq<Tx>, tx: Tx)
    ensures Declared(w, txs + [tx]) == Declared(w, txs) + if IsFeePriced(w, tx) then tx.gasLimit else 0
  {
  }

  function Cost(p: Pool, tx: Tx): uint64 { if IsFeePriced(p.world, tx) then tx.gasLimit else 0 }

  /** Including a front transaction keeps everything, given the budget grows by what it declares. */
  lemma IncludeInv(p: Pool, b: Build, a: Address, budget: uint64)
    requires Inv(p, b) && a in b.active
    requires IsFeePriced(p.world, Front(p, b, a)) ==> Front(p, b, a).feeCap >= p.baseFee
    requires budget <= p.gasLimit && budget == Add64(b.budget, Cost(p, Front(p, b, a)))
    ensures Inv(p, Include(p, b, a).(budget := budget))
  {
    hide From, IsFeePriced, Declared, Prefixes, Owned, Roomy, Add64;
    var tx := Front(p, b, a);
    IncludePrefixes(p, b, a, budget);
    DeclaredOne(p.world, b.included, tx);
    ModSum(b.budget, Declared(p.world, b.included), Cost(p, tx));
    if Roomy(p) { RoomFor(p, b, a); }
  }

  lemma RoomFor(p: Pool, b: Build, a: Address)
    requires Inv(p, b) && a in b.active && Roomy(p)
    requires IsFeePriced(p.world, Front(p, b, a)) ==> Front(p, b, a).feeCap >= p.baseFee
    ensures Declared(p.world, b.included) + Cost(p, Front(p, b, a)) < U64
  {
    hide From, IsFeePriced, Declared, Prefixes, Owned, Stops, Payable;
  }

  lemma RetireInv(p: Pool, b: Build, a: Address)
    requires Inv(p, b) && (a in b.at ==> Halts(p, a, b.at[a], Declared(p.world, b.included)))
    ensures Inv(p, Retire(p, b, a))
  {
    hide From, IsFeePriced, Declared, Prefixes, Owned, Roomy, Halts, Payable;
    RetirePrefixes(p, b, a);
  }

  lemma RetirePrefixes(p: Pool, b: Build, a: Address)
    requires Wf(p, b) && Prefixes(p, b)
    ensures Prefixes(p, Retire(p, b, a))
  {
    hide From;
  }

  lemma {:induction false} DrainOneInv(p: Pool, b: Build, a: Address)
    requires Inv(p, b)
    ensures Inv(p, DrainOne(p, b, a))
    decreases if a in b.active then |p.queues[a]| - b.at[a] else 0
  {
    hide IsFeePriced, Prefixes, Stops, Owned, Roomy;
    if FreeFront(p, b, a) {
      IncludeInv(p, b, a, b.budget);
      DrainOneInv(p, Include(p, b, a), a);
    }
  }

  lemma {:induction false} DrainInv(p: Pool, b: Build, n: nat)
    requires Inv(p, b) && n <= |p.senders|
    ensures Inv(p, Drain(p, b, n))
  {
    hide Inv, DrainOne;
    if n > 0 {
      DrainInv(p, b, n - 1);
      DrainOneInv(p, Drain(p, b, n - 1), p.senders[n - 1]);
    }
  }

  ghost predicate AllPriced(p: Pool, b: Build)
    requires Wf(p, b)
  {
    forall a | a in b.active :: IsFeePriced(p.world, Front(p, b, a))
  }

  lemma DrainPriced(p: Pool, b: Build)
    requires Wf(p, b)
    ensures AllPriced(p, Drain(p, b, |p.senders|))
  {
    hide IsFeePriced, Drain;
    var c := Drain(p, b, |p.senders|);
    forall a | a in c.active
      ensures IsFeePriced(p.world, Front(p, c, a))
    {
      var i :| 0 <= i < |p.senders| && p.senders[i] == a;
      Drained(p, b, |p.senders|, i);
    }
  }

  lemma {:induction false} PriceOutInv(p: Pool, b: Build, n: nat)
    requires Inv(p, b) && AllPriced(p, b) && n <= |p.senders|
    ensures Inv(p, PriceOut(p, b, n)) && AllPriced(p, PriceOut(p, b, n))
  {
    hide Inv, AllPriced, IsFeePriced;
    if n > 0 {
      PriceOutInv(p, b, n - 1);
      PriceOneInv(p, PriceOut(p, b, n - 1), p.senders[n - 1]);
    }
  }

  lemma PriceOneInv(p: Pool, b: Build, a: Address)
    requires Inv(p, b) && AllPriced(p, b)
    ensures AllPriced(p, Retire(p, b, a))
    ensures PricedOut(p, b, a) ==> Inv(p, Retire(p, b, a))
  {
  }

  /** Nobody still active is priced out. */
  lemma {:induction false} PriceOutLeaves(p: Pool, b: Build, n: nat, i: nat)
    requires Wf(p, b) && i < n <= |p.senders|
    ensures !PricedOut(p, PriceOut(p, b, n), p.senders[i])
  {
    if i < n - 1 { PriceOutLeaves(p, b, n - 1, i); }
  }

  /** With the budget within the limit, as it always is, the 64-bit test is right exactly when the sum does not wrap. */
  lemma BudgetTestExact(budget: uint64, gas: uint64, limit: uint64)
    requires budget <= limit
    ensures (Add64(budget, gas) > limit <==> budget + gas > limit) <==> budget + gas < U64
  {
  }

  lemma AwardInv(p: Pool, b: Build, a: Address)
    requires Inv(p, b) && a in b.active && IsFeePriced(p.world, Front(p, b, a)) && !PricedOut(p, b, a)
    ensures Inv(p, Award(p, b, a))
  {
    hide IsFeePriced, Prefixes, Stops, Owned, Declared, Roomy, Payable;
    var tx := Front(p, b, a);
    var total := Add64(b.budget, tx.gasLimit);
    if total > p.gasLimit {
      RetireInv(p, b, a);
    } else {
      IncludeInv(p, b, a, total);
    }
  }

  lemma RoundInv(p: Pool, b: Build)
    requires Inv(p, b)
    ensures Inv(p, Round(p, b))
  {
    hide Inv, Drain, PriceOut, Best, Award, AllPriced;
    var n := |p.senders|;
    DrainInv(p, b, n);
    DrainPriced(p, b);
    PriceOutInv(p, Drain(p, b, n), n);
    var c := PriceOut(p, Drain(p, b, n), n);
    match Best(p, c, n) {
      case None =>
      case Some(a) =>
        FrontPriced(p, c, a);
        var i :| 0 <= i < n && p.senders[i] == a;
        PriceOutLeaves(p, Drain(p, b, n), n, i);
        AwardInv(p, c, a);
    }
  }

  lemma FrontPriced(p: Pool, b: Build, a: Address)
    requires Wf(p, b) && AllPriced(p, b) && a in b.active
    ensures IsFeePriced(p.world, Front(p, b, a))
  {
  }

  lemma {:induction false} FinishInv(p: Pool, b: Build)
    requires Inv(p, b)
    ensures Inv(p, Finish(p, b))
    decreases Measure(p, b)
  {
    hide Inv, Round, Measure, Wf;
    if b.active != {} {
      RoundShrinks(p, b);
      RoundInv(p, b);
      FinishInv(p, Round(p, b));
    }
  }

  /** The winner of a round pays the highest priority fee, and among equals has the smallest address. */
  lemma {:induction false} BestPaysMost(p: Pool, b: Build, n: nat)
    requires Wf(p, b) && n <= |p.senders| && Ascending(p.senders)
    ensures var r := Best(p, b, n);
            r.Some? ==> forall i | 0 <= i < n && p.senders[i] in b.active ::
              var fee, best := PriorityFee(p, Front(p, b, p.senders[i])), PriorityFee(p, Front(p, b, r.value));
              fee <= best && (fee == best ==> p.senders[i] == r.value || Less(r.value, p.senders[i]))
    ensures var r := Best(p, b, n); r.Some? ==> exists i :: 0 <= i < n && p.senders[i] == r.value
  {
    hide PriorityFee, Less;
    if n > 0 {
      BestPaysMost(p, b, n - 1);
      BestFound(p, b, n - 1);
    }
  }

  lemma PriorityIs(p: Pool, tx: Tx)
    requires p.baseFee <= tx.feeCap
    ensures PriorityFee(p, tx) == TipPaid(p.baseFee, tx.feeCap, tx.tipCap)
  {
    PriceIs(p.baseFee, tx.feeCap, tx.tipCap);
  }

  /** No active sender whose front can pay the base fee offers a larger tip than the winner, or the same from a smaller address. */
  lemma WinnerTipsMost(p: Pool, b: Build, a: Address)
    requires Wf(p, b) && Ascending(p.senders) && a in b.active && Best(p, b, |p.senders|).Some?
    requires p.baseFee <= Front(p, b, a).feeCap && p.baseFee <= Front(p, b, Best(p, b, |p.senders|).value).feeCap
    ensures var r := Best(p, b, |p.senders|).value;
            var x, y := Front(p, b, a), Front(p, b, r);
            var tip, most := TipPaid(p.baseFee, x.feeCap, x.tipCap), TipPaid(p.baseFee, y.feeCap, y.tipCap);
            tip < most || (tip == most && (a == r || Less(r, a)))
  {
    hide PriorityFee, Less, Best, TipPaid;
    var r := Best(p, b, |p.senders|).value;
    BestPaysMost(p, b, |p.senders|);
    PriorityIs(p, Front(p, b, a));
    PriorityIs(p, Front(p, b, r));
    var i :| 0 <= i < |p.senders| && p.senders[i] == a;
  }

  // The pool of a mempool

  function Begin(p: Pool): Build {
    Build(map a | a in p.senders :: 0, set a | a in p.senders, [], 0)
  }

  /** The builder's choice. */
  ghost function Selection(w: World, baseFee: uint64, gasLimit: uint64, mempool: seq<Tx>): seq<Tx> {
    var p := PoolOf(w, baseFee, gasLimit, mempool);
    PoolReady(w, baseFee, gasLimit, mempool);
    Finish(p, Begin(p)).included
  }

  lemma {:induction false} FromMeans(mempool: seq<Tx>, a: Address)
    ensures forall i | 0 <= i < |From(mempool, a)| :: From(mempool, a)[i].from == a && From(mempool, a)[i] in mempool
    ensures Sends(mempool, a) ==> |From(mempool, a)| > 0
  {
    if |mempool| > 0 {
      var n := |mempool| - 1;
      FromMeans(mempool[..n], a);
      if i :| 0 <= i < n && mempool[i].from == a { assert mempool[..n][i].from == a; }
    }
  }

  lemma {:induction false} FromCounts(mempool: seq<Tx>, a: Address, tx: Tx)
    ensures multiset(From(mempool, a))[tx] == if tx.from == a then multiset(mempool)[tx] else 0
  {
    if |mempool| > 0 {
      var n := |mempool| - 1;
      FromCounts(mempool[..n], a, tx);
      assert mempool == mempool[..n] + [mempool[n]];
    }
  }

  lemma SortedMembers(s: seq<Tx>)
    ensures |SortTxs(s)| == |s| && forall tx :: tx in SortTxs(s) <==> tx in s
  {
    SortTxsSorts(s);
    assert |multiset(SortTxs(s))| == |multiset(s)|;
    forall tx
      ensures tx in SortTxs(s) <==> tx in s
    {
      assert tx in multiset(SortTxs(s)) <==> tx in multiset(s);
    }
  }

  lemma PoolReady(w: World, baseFee: uint64, gasLimit: uint64, mempool: seq<Tx>)
    ensures var p := PoolOf(w, baseFee, gasLimit, mempool); Wf(p, Begin(p)) && Owned(p) && Ascending(p.senders) && Inv(p, Begin(p))
  {
    hide Senders, SortTxs, From, IsFeePriced, Ascending;
    SendersMean(mempool);
    var p := PoolOf(w, baseFee, gasLimit, mempool);
    forall a | a in p.queues
      ensures |p.queues[a]| > 0 && forall i | 0 <= i < |p.queues[a]| :: p.queues[a][i].from == a
    {
      FromMeans(mempool, a);
      SortedMembers(From(mempool, a));
      forall i | 0 <= i < |p.queues[a]|
        ensures p.queues[a][i].from == a
      {
        assert p.queues[a][i] in p.queues[a];
      }
    }
    NothingFrom();
  }

  lemma NothingFrom()
    ensures forall a :: From([], a) == []
  {
  }

  /** Of a sender's queue the first `n` are included, and the next one, if any, has a reason not to be. */
  ghost predicate TakenUpTo(p: Pool, txs: seq<Tx>, a: Address, queue: seq<Tx>, n: nat) {
    && n <= |queue| && From(txs, a) == queue[..n]
    && (n < |queue| ==>
          && IsFeePriced(p.world, queue[n])
          && (queue[n].feeCap < p.baseFee || Declared(p.world, txs) + queue[n].gasLimit > p.gasLimit))
  }

  /** The guarantees of the finished choice, for every mempool and sender. */
  lemma SelectionSound(w: World, baseFee: uint64, gasLimit: uint64, mempool: seq<Tx>, a: Address)
    ensures var p, txs := PoolOf(w, baseFee, gasLimit, mempool), Selection(w, baseFee, gasLimit, mempool);
            && (exists n :: TakenUpTo(p, txs, a, SortTxs(From(mempool, a)), n))
            && Payable(p, txs)
            && Declared(w, txs) % U64 <= gasLimit && (Declared(w, txs) <= gasLimit <==> Declared(w, txs) < U64)
            && (Roomy(p) ==> Declared(w, txs) <= gasLimit)
  {
    hide Senders, SortTxs, From, IsFeePriced, Declared, Finish, Roomy, Wf, Owned, Begin;
    var p := PoolOf(w, baseFee, gasLimit, mempool);
    PoolReady(w, baseFee, gasLimit, mempool);
    FinishInv(p, Begin(p));
    var b := Finish(p, Begin(p));
    assert b.included == Selection(w, baseFee, gasLimit, mempool);
    var n: nat := 0;
    if a in b.at {
      InQueue(p, b, a);
      n := b.at[a];
    } else {
      Unlisted(p, b, a);
      Unqueued(mempool, a);
    }
    assert TakenUpTo(p, b.included, a, SortTxs(From(mempool, a)), n);
  }

  lemma InQueue(p: Pool, b: Build, a: Address)
    requires Inv(p, b) && b.active == {} && a in b.at
    ensures a in p.senders && a in p.queues && TakenUpTo(p, b.included, a, p.queues[a], b.at[a])
  {
  }

  lemma Unlisted(p: Pool, b: Build, a: Address)
    requires Inv(p, b) && a !in b.at
    ensures a !in p.senders && From(b.included, a) == []
  {
  }

  lemma Unqueued(mempool: seq<Tx>, a: Address)
    ensures a !in Senders(mempool) ==> SortTxs(From(mempool, a)) == []
  {
    hide Senders;
    SendersMean(mempool);
    FromMeans(mempool, a);
    if |From(mempool, a)| > 0 {
      assert From(mempool, a)[0] in mempool;
    }
  }

  // Who is chosen before whom

  /** The transaction `q` of `a` had to wait: it cannot pay, does not fit beside what is declared, or tips less than `tx`, or the same from a higher address. */
  ghost predicate Waits(w: World, baseFee: uint64, gasLimit: uint64, declared: nat, tx: Tx, a: Address, q: Tx) {
    && IsFeePriced(w, q)
    && (|| q.feeCap < baseFee || declared + q.gasLimit > gasLimit
        || (tx.feeCap >= baseFee &&
              var tip, tip' := TipPaid(baseFee, tx.feeCap, tx.tipCap), TipPaid(baseFee, q.feeCap, q.tipCap);
              tip' < tip || (tip' == tip && Less(tx.from, a))))
  }

  /** At position `k` a fee-priced transaction was taken while the front of `a`'s queue had to wait. */
  ghost predicate Preferred(p: Pool, txs: seq<Tx>, k: nat, a: Address)
    requires k < |txs| && a in p.queues
  {
    var n := |From(txs[..k], a)|;
    IsFeePriced(p.world, txs[k]) && a != txs[k].from && n < |p.queues[a]| ==>
      Waits(p.world, p.baseFee, p.gasLimit, Declared(p.world, txs[..k]), txs[k], a, p.queues[a][n])
  }

  ghost predicate Greedy(p: Pool, txs: seq<Tx>) {
    forall k, a | 0 <= k < |txs| && a in p.queues && a in p.senders :: Preferred(p, txs, k, a)
  }

  lemma GreedyMore(p: Pool, txs: seq<Tx>, tx: Tx)
    requires Greedy(p, txs)
    requires forall a | a in p.queues && a in p.senders :: Preferred(p, txs + [tx], |txs|, a)
    ensures Greedy(p, txs + [tx])
  {
    hide Waits, From, Declared;
    forall k, a | 0 <= k < |txs + [tx]| && a in p.queues && a in p.senders
      ensures Preferred(p, txs + [tx], k, a)
    {
      if k < |txs| {
        assert (txs + [tx])[..k] == txs[..k];
        assert Preferred(p, txs, k, a);
      }
    }
  }

  lemma {:induction false} DrainOneGreedy(p: Pool, b: Build, a: Address)
    requires Wf(p, b) && Greedy(p, b.included)
    ensures Greedy(p, DrainOne(p, b, a).included)
    decreases if a in b.active then |p.queues[a]| - b.at[a] else 0
  {
    hide Greedy, IsFeePriced;
    if FreeFront(p, b, a) {
      GreedyMore(p, b.included, Front(p, b, a));
      DrainOneGreedy(p, Include(p, b, a), a);
    }
  }

  lemma {:induction false} DrainGreedy(p: Pool, b: Build, n: nat)
    requires Wf(p, b) && Greedy(p, b.included) && n <= |p.senders|
    ensures Greedy(p, Drain(p, b, n).included)
  {
    hide Greedy, Wf, DrainOne;
    if n > 0 {
      DrainGreedy(p, b, n - 1);
      DrainOneGreedy(p, Drain(p, b, n - 1), p.senders[n - 1]);
    }
  }

  /** The front of another queue, when `a` wins the round. */
  lemma WinnerPreferred(p: Pool, b: Build, a: Address, c: Address)
    requires Inv(p, b) && AllPriced(p, b) && Ascending(p.senders) && Best(p, b, |p.senders|) == Some(a)
    requires forall i | 0 <= i < |p.senders| :: !PricedOut(p, b, p.senders[i])
    requires c in p.queues && c in p.senders
    ensures Preferred(p, b.included + [Front(p, b, a)], |b.included|, c)
  {
    hide From, Declared, IsFeePriced, Payable, Roomy, Within, Owned, Less, PriorityFee, Best, TipPaid;
    var tx := Front(p, b, a);
    var i :| 0 <= i < |p.senders| && p.senders[i] == c;
    assert (b.included + [tx])[..|b.included|] == b.included;
    assert tx.from == a by { OwnFront(p, b, a); }
    var j :| 0 <= j < |p.senders| && p.senders[j] == a;
    assert |From(b.included, c)| == b.at[c];
    if c in b.active { WinnerTipsMost(p, b, c); }
  }

  lemma OwnFront(p: Pool, b: Build, a: Address)
    requires Wf(p, b) && Owned(p) && a in b.active
    ensures Front(p, b, a).from == a
  {
  }

  lemma AwardGreedy(p: Pool, b: Build, a: Address)
    requires Inv(p, b) && AllPriced(p, b) && Ascending(p.senders) && Best(p, b, |p.senders|) == Some(a) && Greedy(p, b.included)
    requires forall i | 0 <= i < |p.senders| :: !PricedOut(p, b, p.senders[i])
    ensures Greedy(p, Award(p, b, a).included)
  {
    hide Greedy, Preferred, Inv, AllPriced, Best, PricedOut;
    forall c | c in p.queues && c in p.senders
      ensures Preferred(p, b.included + [Front(p, b, a)], |b.included|, c)
    {
      WinnerPreferred(p, b, a, c);
    }
    GreedyMore(p, b.included, Front(p, b, a));
  }

  lemma RoundGreedy(p: Pool, b: Build)
    requires Inv(p, b) && Ascending(p.senders) && Greedy(p, b.included)
    ensures Greedy(p, Round(p, b).included)
  {
    hide Inv, Drain, PriceOut, Best, Award, AllPriced, Greedy, PricedOut;
    var n := |p.senders|;
    DrainInv(p, b, n);
    DrainPriced(p, b);
    DrainGreedy(p, b, n);
    PriceOutInv(p, Drain(p, b, n), n);
    var c := PriceOut(p, Drain(p, b, n), n);
    forall i | 0 <= i < n
      ensures !PricedOut(p, c, p.senders[i])
    {
      PriceOutLeaves(p, Drain(p, b, n), n, i);
    }
    if Best(p, c, n).Some? { AwardGreedy(p, c, Best(p, c, n).value); }
  }

  lemma {:induction false} FinishGreedy(p: Pool, b: Build)
    requires Inv(p, b) && Ascending(p.senders) && Greedy(p, b.included)
    ensures Greedy(p, Finish(p, b).included)
    decreases Measure(p, b)
  {
    hide Inv, Round, Measure, Wf, Greedy;
    if b.active != {} {
      RoundShrinks(p, b);
      RoundInv(p, b);
      RoundGreedy(p, b);
      FinishGreedy(p, Round(p, b));
    }
  }

  /**
   Whenever a fee-priced transaction is taken, the front transaction of every other sender, after what was taken before,
   cannot pay the base fee, does not fit beside the gas declared so far, offers a smaller tip, or the same tip from a
   higher address.
   */
  lemma SelectionGreedy(w: World, baseFee: uint64, gasLimit: uint64, mempool: seq<Tx>, k: nat, a: Address)
    requires k < |Selection(w, baseFee, gasLimit, mempool)|
    ensures var txs, queue := Selection(w, baseFee, gasLimit, mempool), SortTxs(From(mempool, a));
            var n := |From(txs[..k], a)|;
            IsFeePriced(w, txs[k]) && a != txs[k].from && n < |queue| ==>
              Waits(w, baseFee, gasLimit, Declared(w, txs[..k]), txs[k], a, queue[n])
  {
    hide Senders, SortTxs, From, IsFeePriced, Declared, Finish, Inv, Wf, Owned, Begin, Waits, Ascending;
    var p := PoolOf(w, baseFee, gasLimit, mempool);
    PoolReady(w, baseFee, gasLimit, mempool);
    NothingChosen(p);
    FinishGreedy(p, Begin(p));
    if a in p.senders {
      assert Preferred(p, Selection(w, baseFee, gasLimit, mempool), k, a);
    } else {
      Unqueued(mempool, a);
    }
  }

  lemma NothingChosen(p: Pool)
    ensures Greedy(p, Begin(p).included)
  {
  }

  /** A transaction that can be chosen, alone, by gas and fee. */
  ghost predicate Chooseable(w: World, baseFee: uint64, gasLimit: uint64, tx: Tx) {
    IsFeePriced(w, tx) && tx.feeCap >= baseFee && tx.gasLimit <= gasLimit && gasLimit + tx.gasLimit < U64
  }

  /** Of two senders with one transaction each, of which only one fits, the one with the larger tip is included, at equal tips the smaller address. */
  lemma LargerTipWins(w: World, baseFee: uint64, gasLimit: uint64, x: Tx, y: Tx)
    requires Chooseable(w, baseFee, gasLimit, x) && Chooseable(w, baseFee, gasLimit, y) && x.from != y.from
    requires x.gasLimit + y.gasLimit > gasLimit
    requires var tip, tip' := TipPaid(baseFee, x.feeCap, x.tipCap), TipPaid(baseFee, y.feeCap, y.tipCap);
             tip > tip' || (tip == tip' && Less(x.from, y.from))
    ensures Selection(w, baseFee, gasLimit, [x, y]) == [x] && Selection(w, baseFee, gasLimit, [y, x]) == [x]
  {
    OnlyWinner(w, baseFee, gasLimit, x, y, [x, y]);
    OnlyWinner(w, baseFee, gasLimit, x, y, [y, x]);
  }

  lemma QueuesOfTwo(x: Tx, y: Tx, mempool: seq<Tx>, a: Address)
    requires x.from != y.from && (mempool == [x, y] || mempool == [y, x])
    ensures SortTxs(From(mempool, a)) == if a == x.from then [x] else if a == y.from then [y] else []
  {
    hide From, SortTxs;
    var none: seq<Tx> := [];
    assert [x] + none == [x] == none + [x] && [y] + none == [y] == none + [y] && none + none == [];
    FromTwo(x, y, a);
    FromTwo(y, x, a);
    SortOne(x);
    SortOne(y);
  }

  lemma FromTwo(u: Tx, v: Tx, a: Address)
    ensures From([u, v], a) == (if u.from == a then [u] else []) + if v.from == a then [v] else []
  {
    assert [u, v][..1] == [u] && [u][..0] == [];
    assert From([u], a) == if u.from == a then [u] else [];
  }

  lemma SortOne(x: Tx)
    ensures SortTxs([x]) == [x] && SortTxs([]) == []
  {
    assert [x][..0] == [];
  }

  lemma RoomyOfTwo(w: World, baseFee: uint64, gasLimit: uint64, x: Tx, y: Tx, mempool: seq<Tx>)
    requires Chooseable(w, baseFee, gasLimit, x) && Chooseable(w, baseFee, gasLimit, y) && x.from != y.from
    requires mempool == [x, y] || mempool == [y, x]
    ensures Roomy(PoolOf(w, baseFee, gasLimit, mempool))
  {
    hide Senders, SortTxs, From, IsFeePriced;
    var p := PoolOf(w, baseFee, gasLimit, mempool);
    forall a, i | a in p.queues && 0 <= i < |p.queues[a]|
      ensures p.gasLimit + p.queues[a][i].gasLimit < U64
    {
      QueuesOfTwo(x, y, mempool, a);
    }
  }

  lemma OnlyWinner(w: World, baseFee: uint64, gasLimit: uint64, x: Tx, y: Tx, mempool: seq<Tx>)
    requires Chooseable(w, baseFee, gasLimit, x) && Chooseable(w, baseFee, gasLimit, y) && x.from != y.from
    requires x.gasLimit + y.gasLimit > gasLimit && (mempool == [x, y] || mempool == [y, x])
    requires var tip, tip' := TipPaid(baseFee, x.feeCap, x.tipCap), TipPaid(baseFee, y.feeCap, y.tipCap);
             tip > tip' || (tip == tip' && Less(x.from, y.from))
    ensures Selection(w, baseFee, gasLimit, mempool) == [x]
  {
    hide Senders, SortTxs, From, IsFeePriced, Declared, Selection, TipPaid, Less, Roomy, PoolOf;
    var txs := Selection(w, baseFee, gasLimit, mempool);
    RoomyOfTwo(w, baseFee, gasLimit, x, y, mempool);
    OneOfTwo(w, baseFee, gasLimit, x, y, mempool);
    if txs == [y] {
      QueuesOfTwo(x, y, mempool, x.from);
      SelectionGreedy(w, baseFee, gasLimit, mempool, 0, x.from);
      NothingBefore(w, txs, x.from);
      LessTotal(x.from, y.from);
      assert false;
    }
  }

  lemma NothingBefore(w: World, txs: seq<Tx>, a: Address)
    ensures |txs| > 0 ==> From(txs[..0], a) == [] && Declared(w, txs[..0]) == 0
  {
  }

  lemma OneOfTwo(w: World, baseFee: uint64, gasLimit: uint64, x: Tx, y: Tx, mempool: seq<Tx>)
    requires Chooseable(w, baseFee, gasLimit, x) && Chooseable(w, baseFee, gasLimit, y) && x.from != y.from
    requires x.gasLimit + y.gasLimit > gasLimit && (mempool == [x, y] || mempool == [y, x])
    requires Roomy(PoolOf(w, baseFee, gasLimit, mempool))
    ensures var txs := Selection(w, baseFee, gasLimit, mempool); txs == [x] || txs == [y]
  {
    hide Senders, SortTxs, From, IsFeePriced, Declared, Selection, Roomy, PoolOf;
    var txs := Selection(w, baseFee, gasLimit, mempool);
    var p := PoolOf(w, baseFee, gasLimit, mempool);
    SelectionSound(w, baseFee, gasLimit, mempool, x.from);
    var n :| TakenUpTo(p, txs, x.from, SortTxs(From(mempool, x.from)), n);
    SelectionSound(w, baseFee, gasLimit, mempool, y.from);
    var m :| TakenUpTo(p, txs, y.from, SortTxs(From(mempool, y.from)), m);
    QueuesOfTwo(x, y, mempool, x.from);
    QueuesOfTwo(x, y, mempool, y.from);
    forall i | 0 <= i < |txs|
      ensures txs[i].from == x.from || txs[i].from == y.from
    {
      MemberFrom(txs, i);
      if txs[i].from != x.from && txs[i].from != y.from { NoOthers(w, baseFee, gasLimit, x, y, mempool, txs[i].from); }
    }
    assert p.world == w && p.baseFee == baseFee && p.gasLimit == gasLimit by { PoolFields(w, baseFee, gasLimit, mempool); }
    TwoSenders(w, txs, x, y, n, m);
    NothingDeclared(w);
  }

  lemma NothingDeclared(w: World)
    ensures Declared(w, []) == 0
  {
  }

  lemma PoolFields(w: World, baseFee: uint64, gasLimit: uint64, mempool: seq<Tx>)
    ensures var p := PoolOf(w, baseFee, gasLimit, mempool); p.world == w && p.baseFee == baseFee && p.gasLimit == gasLimit
  {
  }

  lemma NoOthers(w: World, baseFee: uint64, gasLimit: uint64, x: Tx, y: Tx, mempool: seq<Tx>, a: Address)
    requires x.from != y.from && (mempool == [x, y] || mempool == [y, x]) && a != x.from && a != y.from
    ensures From(Selection(w, baseFee, gasLimit, mempool), a) == []
  {
    hide Senders, SortTxs, From, IsFeePriced, Declared, Selection, Roomy;
    SelectionSound(w, baseFee, gasLimit, mempool, a);
    QueuesOfTwo(x, y, mempool, a);
  }

  lemma {:induction false} MemberFrom(txs: seq<Tx>, i: nat)
    requires i < |txs|
    ensures |From(txs, txs[i].from)| > 0
  {
    if i < |txs| - 1 { MemberFrom(txs[..|txs| - 1], i); }
  }

  lemma {:induction false} SizeOfTwo(w: World, txs: seq<Tx>, a: Address, b: Address)
    requires a != b && forall i | 0 <= i < |txs| :: txs[i].from == a || txs[i].from == b
    ensures |txs| == |From(txs, a)| + |From(txs, b)|
  {
    if |txs| > 0 { SizeOfTwo(w, txs[..|txs| - 1], a, b); }
  }

  /** What two senders with at most one transaction each have contributed. */
  lemma TwoSenders(w: World, txs: seq<Tx>, x: Tx, y: Tx, n: nat, m: nat)
    requires x.from != y.from && n <= 1 && m <= 1 && From(txs, x.from) == [x][..n] && From(txs, y.from) == [y][..m]
    requires forall i | 0 <= i < |txs| :: txs[i].from == x.from || txs[i].from == y.from
    ensures n == 1 && m == 0 ==> txs == [x]
    ensures n == 0 && m == 1 ==> txs == [y]
    ensures n == 0 && m == 0 ==> txs == []
    ensures n == 1 && m == 1 && IsFeePriced(w, x) && IsFeePriced(w, y) ==> Declared(w, txs) == x.gasLimit + y.gasLimit
  {
    hide IsFeePriced, From, Declared;
    SizeOfTwo(w, txs, x.from, y.from);
    if |txs| == 1 {
      assert txs == [txs[0]];
      FromSingle(txs[0], x.from);
      FromSingle(txs[0], y.from);
    } else if |txs| == 2 {
      assert txs == [txs[0], txs[1]];
      FromTwo(txs[0], txs[1], x.from);
      FromTwo(txs[0], txs[1], y.from);
      DeclaredTwo(w, txs[0], txs[1]);
      var first := txs[0].from;
      if n == 1 && m == 1 {
        assert From(txs, first)[0] == txs[0];
        if first == x.from { assert From(txs, y.from)[0] == txs[1]; } else { assert From(txs, x.from)[0] == txs[1]; }
      }
    }
  }

  lemma FromSingle(u: Tx, a: Address)
    ensures From([u], a) == if u.from == a then [u] else []
  {
    assert [u][..0] == [];
  }

  lemma DeclaredTwo(w: World, u: Tx, v: Tx)
    ensures IsFeePriced(w, u) && IsFeePriced(w, v) ==> Declared(w, [u, v]) == u.gasLimit + v.gasLimit
  {
    hide IsFeePriced, Declared;
    NothingDeclared(w);
    DeclaredOne(w, [], u);
    DeclaredOne(w, [u], v);
    var none: seq<Tx> := [];
    assert none + [u] == [u] && [u] + [v] == [u, v];
  }

  // Free transactions

  ghost predicate HasQueues(p: Pool) {
    forall i | 0 <= i < |p.senders| :: p.senders[i] in p.queues
  }

  /** The first `n` senders' queues, one after another. */
  ghost function Chained(p: Pool, n: nat): seq<Tx>
    requires n <= |p.senders| && HasQueues(p)
  {
    if n == 0 then [] else Chained(p, n - 1) + p.queues[p.senders[n - 1]]
  }

  ghost predicate AllFree(p: Pool) {
    forall a, i | a in p.queues && 0 <= i < |p.queues[a]| :: !IsFeePriced(p.world, p.queues[a][i])
  }

  lemma {:induction false} DrainOneFree(p: Pool, b: Build, a: Address)
    requires Wf(p, b) && AllFree(p) && a in b.active
    ensures var c := DrainOne(p, b, a);
            && c.included == b.included + p.queues[a][b.at[a]..] && c.active == b.active - {a}
            && forall x | x in b.at && x != a :: x in c.at && c.at[x] == b.at[x]
    decreases |p.queues[a]| - b.at[a]
  {
    hide IsFeePriced;
    var i, q := b.at[a], p.queues[a];
    var c := Include(p, b, a);
    assert !IsFeePriced(p.world, q[i]);
    assert q[i..] == [q[i]] + q[i + 1..];
    if i + 1 < |q| {
      DrainOneFree(p, c, a);
      assert b.included + [q[i]] + q[i + 1..] == b.included + q[i..];
    } else {
      assert DrainOne(p, c, a) == c;
      assert q[i + 1..] == [];
    }
  }

  /** After draining the first `n` senders their queues are taken, and the others are as they were. */
  ghost predicate DrainedTo(p: Pool, b: Build, n: nat)
    requires n <= |p.senders| && HasQueues(p)
  {
    && b.included == Chained(p, n) && (forall a :: a in b.active <==> a in p.senders[n..])
    && forall i | n <= i < |p.senders| :: p.senders[i] in b.at && b.at[p.senders[i]] == 0
  }

  lemma Distinct(s: seq<Address>, i: nat)
    requires Ascending(s) && i < |s|
    ensures s[i] in s[i..] && s[i] !in s[i + 1..] && forall a :: a in s[i..] <==> a == s[i] || a in s[i + 1..]
  {
    hide Less;
    assert s[i..] == [s[i]] + s[i + 1..];
    forall j | i < j < |s|
      ensures s[j] != s[i]
    {
      LessIrreflexive(s[i]);
    }
  }

  lemma DrainFreeStep(p: Pool, b: Build, n: nat)
    requires Wf(p, b) && AllFree(p) && Ascending(p.senders) && n < |p.senders| && HasQueues(p) && DrainedTo(p, b, n)
    ensures DrainedTo(p, DrainOne(p, b, p.senders[n]), n + 1)
  {
    hide AllFree, Ascending, DrainOne;
    var a := p.senders[n];
    Distinct(p.senders, n);
    DrainOneFree(p, b, a);
    assert p.queues[a][0..] == p.queues[a];
    var c := DrainOne(p, b, a);
    assert c.included == Chained(p, n + 1);
    forall i | n + 1 <= i < |p.senders|
      ensures p.senders[i] in c.at && c.at[p.senders[i]] == 0
    {
      assert p.senders[i] == p.senders[n + 1..][i - n - 1];
    }
  }

  lemma NothingDrained(p: Pool)
    requires Wf(p, Begin(p))
    ensures HasQueues(p) && DrainedTo(p, Begin(p), 0)
  {
    assert p.senders[0..] == p.senders;
  }

  lemma {:induction false} DrainFree(p: Pool, b: Build, n: nat)
    requires Wf(p, b) && AllFree(p) && Ascending(p.senders) && n <= |p.senders| && HasQueues(p) && DrainedTo(p, b, 0)
    ensures DrainedTo(p, Drain(p, b, n), n)
  {
    hide AllFree, Ascending, DrainOne, DrainedTo, HasQueues, Wf;
    if n > 0 {
      DrainFree(p, b, n - 1);
      DrainFreeStep(p, Drain(p, b, n - 1), n - 1);
    }
  }

  /** A mempool of free transactions only is taken whole: by sender in address order, and by nonce. */
  lemma FreeInOrder(w: World, baseFee: uint64, gasLimit: uint64, mempool: seq<Tx>)
    requires AllFree(PoolOf(w, baseFee, gasLimit, mempool))
    ensures var p := PoolOf(w, baseFee, gasLimit, mempool);
            Ascending(p.senders) && HasQueues(p) && Selection(w, baseFee, gasLimit, mempool) == Chained(p, |p.senders|)
  {
    hide Senders, SortTxs, From, AllFree, Ascending, Inv, Owned, Drain;
    var p := PoolOf(w, baseFee, gasLimit, mempool);
    PoolReady(w, baseFee, gasLimit, mempool);
    var n, b := |p.senders|, Begin(p);
    NothingDrained(p);
    DrainFree(p, b, n);
    assert p.senders[n..] == [];
    assert n > 0 ==> p.senders[0] in b.active;
    if b.active != {} {
      var c := PriceOut(p, Drain(p, b, n), n);
      assert c.active == {};
      assert Best(p, c, n).None?;
      assert Round(p, b) == c && Finish(p, c) == c;
    }
  }

  // A declared gas that wraps

  lemma OneSenderRound(p: Pool, b: Build, a: Address)
    requires Wf(p, b) && p.senders == [a] && b.active == {a}
    requires CanCompete(p, Front(p, b, a))
    ensures Round(p, b) == Award(p, b, a)
  {
    hide IsFeePriced, PriorityFee;
    assert Drain(p, b, 0) == b && Drain(p, b, 1) == b;
    assert PriceOut(p, b, 0) == b && PriceOut(p, b, 1) == b;
    assert Best(p, b, 0) == None && Best(p, b, 1) == Some(a);
  }

  lemma FinishStep(p: Pool, b: Build)
    requires Wf(p, b)
    ensures Finish(p, b) == if b.active == {} then b else Finish(p, Round(p, b))
  {
    hide Wf, Round;
  }

  /** Two competing transactions of one sender: the second is taken exactly when the 64-bit sum is within the limit. */
  lemma TwoInARow(w: World, baseFee: uint64, gasLimit: uint64, x: Tx, y: Tx)
    requires x.from == y.from && x.nonce < y.nonce && x.gasLimit <= gasLimit && x.feeCap >= baseFee && y.feeCap >= baseFee
    requires IsFeePriced(w, x) && IsFeePriced(w, y)
    ensures Selection(w, baseFee, gasLimit, [x, y]) == if Add64(x.gasLimit, y.gasLimit) <= gasLimit then [x, y] else [x]
  {
    hide IsFeePriced, Round, Senders, SortTxs, From, Finish;
    var a, p := x.from, PoolOf(w, baseFee, gasLimit, [x, y]);
    PoolOfTwo(w, baseFee, gasLimit, x, y);
    PoolReady(w, baseFee, gasLimit, [x, y]);
    var b := Begin(p);
    assert b == Build(map[a := 0], {a}, [], 0);
    OneSenderRound(p, b, a);
    FinishStep(p, b);
    SecondInARow(p, a, x, y);
  }

  lemma SecondInARow(p: Pool, a: Address, x: Tx, y: Tx)
    requires p.senders == [a] && p.queues == map[a := [x, y]] && x.gasLimit <= p.gasLimit && CanCompete(p, y)
    ensures var b := Build(map[a := 0], {a}, [], 0);
            var c := Build(map[a := 1], {a}, [x], x.gasLimit);
            && Wf(p, b) && Award(p, b, a) == c && Wf(p, c)
            && Finish(p, c).included == if Add64(x.gasLimit, y.gasLimit) <= p.gasLimit then [x, y] else [x]
  {
    hide IsFeePriced, Round, Finish, Award;
    var c := Build(map[a := 1], {a}, [x], x.gasLimit);
    AwardsOfTwo(p, a, x, y);
    OneSenderRound(p, c, a);
    FinishStep(p, c);
    FinishStep(p, Award(p, c, a));
  }

  lemma AwardsOfTwo(p: Pool, a: Address, x: Tx, y: Tx)
    requires p.senders == [a] && p.queues == map[a := [x, y]] && x.gasLimit <= p.gasLimit
    ensures var b := Build(map[a := 0], {a}, [], 0);
            var c := Build(map[a := 1], {a}, [x], x.gasLimit);
            && Wf(p, b) && Award(p, b, a) == c && Wf(p, c) && Front(p, c, a) == y && Award(p, c, a).active == {}
            && Award(p, c, a).included == if Add64(x.gasLimit, y.gasLimit) <= p.gasLimit then [x, y] else [x]
  {
    assert {a} - {a} == {} && [] + [x] == [x] && [x] + [y] == [x, y];
  }

  lemma PoolOfTwo(w: World, baseFee: uint64, gasLimit: uint64, x: Tx, y: Tx)
    requires x.from == y.from && x.nonce < y.nonce
    ensures PoolOf(w, baseFee, gasLimit, [x, y]) == Pool(w, baseFee, gasLimit, [x.from], map[x.from := [x, y]])
  {
    hide Senders, From, SortTxs;
    SendersOfTwo(x, y);
    FromOne([], x, x.from);
    FromOne([x], y, x.from);
    NothingFrom();
    assert [] + [x] == [x] && [x] + [y] == [x, y];
    SortOfTwo(x, y);
  }

  lemma SendersOfTwo(x: Tx, y: Tx)
    requires x.from == y.from
    ensures Senders([x, y]) == [x.from]
  {
    assert [x, y][..1] == [x] && [x][..0] == [];
    assert Senders([x]) == [x.from];
  }

  lemma SortOfTwo(x: Tx, y: Tx)
    requires x.nonce < y.nonce
    ensures SortTxs([x, y]) == [x, y]
  {
    assert [x, y][..1] == [x];
    SortOfOne(x);
    assert InsertTx([x], y) == [x] + [y];
  }

  lemma SortOfOne(x: Tx)
    ensures SortTxs([x]) == [x]
  {
    assert [x][..0] == [] && SortTxs([]) == [];
    assert InsertTx([], x) == [] + [x] == [x];
  }

  /** Declaring 1 and 2^64 - 1 units, one sender exceeds any limit: both are taken and the budget reads 0. */
  lemma HugeGasOverfills(w: World, gasLimit: uint64, a: Address)
    requires gasLimit > 0
    ensures var x := Tx(a, ZERO_ADDRESS, 0, 0, 1, 0, 0, 0, [], []);
            var y := Tx(a, ZERO_ADDRESS, 0, 1, U64 - 1, 0, 0, 0, [], []);
            var txs := Selection(w, 0, gasLimit, [x, y]);
            txs == [x, y] && Declared(w, txs) == U64 > gasLimit
  {
    hide Selection;
    var x := Tx(a, ZERO_ADDRESS, 0, 0, 1, 0, 0, 0, [], []);
    var y := Tx(a, ZERO_ADDRESS, 0, 1, U64 - 1, 0, 0, 0, [], []);
    DeploymentPriced(w, x);
    DeploymentPriced(w, y);
    TwoInARow(w, 0, gasLimit, x, y);
    DeclaredOne(w, [], x);
    DeclaredOne(w, [x], y);
    assert [] + [x] == [x] && [x] + [y] == [x, y];
  }

  lemma DeploymentPriced(w: World, tx: Tx)
    ensures tx.to == ZERO_ADDRESS ==> IsFeePriced(w, tx)
  {
    assert ZERO_ADDRESS[0] == 0 && Dispatch.EXCHANGE_ADDRESS[0] != 0 && Dispatch.ATTEST_ADDRESS[0] != 0;
  }

  // The order of arrival does not matter

  /** No sender has two different transactions with one nonce. */
  ghost predicate OnePerNonce(mempool: seq<Tx>) {
    forall i, j | 0 <= i < |mempool| && 0 <= j < |mempool| ::
      mempool[i].from == mempool[j].from && mempool[i].nonce == mempool[j].nonce ==> mempool[i] == mempool[j]
  }

  ghost predicate NonceDecides(s: seq<Tx>) {
    forall x, y | x in s && y in s && x.nonce == y.nonce :: x == y
  }

  lemma LastSame(s: seq<Tx>, t: seq<Tx>)
    requires ByNonce(s) && ByNonce(t) && multiset(s) == multiset(t) && |s| > 0 && |t| > 0 && NonceDecides(s)
    ensures s[|s| - 1] == t[|t| - 1]
  {
    var x, y := s[|s| - 1], t[|t| - 1];
    assert x in multiset(t) && y in multiset(s);
  }

  lemma WithoutLast(s: seq<Tx>)
    requires |s| > 0
    ensures s == s[..|s| - 1] + [s[|s| - 1]] && multiset(s[..|s| - 1]) == multiset(s) - multiset{s[|s| - 1]}
    ensures ByNonce(s) ==> ByNonce(s[..|s| - 1])
    ensures NonceDecides(s) ==> NonceDecides(s[..|s| - 1])
  {
  }

  lemma SameLength(s: seq<Tx>, t: seq<Tx>)
    requires multiset(s) == multiset(t)
    ensures |s| == |t|
  {
    assert |s| == |multiset(s)| && |t| == |multiset(t)|;
  }

  lemma {:induction false} SortedUnique(s: seq<Tx>, t: seq<Tx>)
    requires ByNonce(s) && ByNonce(t) && multiset(s) == multiset(t) && NonceDecides(s)
    ensures s == t
  {
    hide ByNonce, NonceDecides;
    SameLength(s, t);
    if |s| > 0 {
      LastSame(s, t);
      WithoutLast(s);
      WithoutLast(t);
      SortedUnique(s[..|s| - 1], t[..|t| - 1]);
    }
  }

  ghost predicate SameMembers(s: seq<Address>, t: seq<Address>) {
    forall a :: a in s <==> a in t
  }

  lemma GreatestSame(s: seq<Address>, t: seq<Address>)
    requires Ascending(s) && Ascending(t) && SameMembers(s, t) && |s| > 0
    ensures |t| > 0 && s[|s| - 1] == t[|t| - 1]
  {
    hide Less;
    var x := s[|s| - 1];
    assert x in s && x in t;
    var y := t[|t| - 1];
    assert y in t && y in s;
    LessTotal(x, y);
  }

  lemma {:induction false} AscendingUnique(s: seq<Address>, t: seq<Address>)
    requires Ascending(s) && Ascending(t) && SameMembers(s, t)
    ensures s == t
  {
    assert |t| > 0 ==> t[0] in t;
    if |s| > 0 {
      var n, k := |s| - 1, |t| - 1;
      GreatestSame(s, t);
      ShorterAscending(s);
      ShorterAscending(t);
      hide Ascending;
      forall a
        ensures a in s[..n] <==> a in t[..k]
      {
        LastOut(s, a);
        LastOut(t, a);
      }
      AscendingUnique(s[..n], t[..k]);
      assert s == s[..n] + [s[n]] && t == t[..k] + [t[k]];
    }
  }

  lemma ShorterAscending(s: seq<Address>)
    requires Ascending(s) && |s| > 0
    ensures Ascending(s[..|s| - 1])
  {
    hide Less;
  }

  lemma LastOut(s: seq<Address>, a: Address)
    requires Ascending(s) && |s| > 0
    ensures a in s[..|s| - 1] <==> a in s && a != s[|s| - 1]
  {
    LessIrreflexive(s[|s| - 1]);
    assert s == s[..|s| - 1] + [s[|s| - 1]];
  }

  lemma SameQueue(m: seq<Tx>, m': seq<Tx>, a: Address)
    requires multiset(m) == multiset(m') && OnePerNonce(m)
    ensures SortTxs(From(m, a)) == SortTxs(From(m', a))
  {
    hide SortTxs, From;
    var f, f' := From(m, a), From(m', a);
    FromMeans(m, a);
    forall tx: Tx
      ensures multiset(f)[tx] == multiset(f')[tx]
    {
      FromCounts(m, a, tx);
      FromCounts(m', a, tx);
    }
    assert multiset(f) == multiset(f');
    SortTxsSorts(f);
    SortTxsSorts(f');
    SortedMembers(f);
    assert NonceDecides(SortTxs(f));
    SortedUnique(SortTxs(f), SortTxs(f'));
  }

  lemma SameSenders(m: seq<Tx>, m': seq<Tx>)
    requires multiset(m) == multiset(m')
    ensures Senders(m) == Senders(m')
  {
    hide Senders, Ascending;
    SendersMean(m);
    SendersMean(m');
    forall a
      ensures a in Senders(m) <==> a in Senders(m')
    {
      if i :| 0 <= i < |m| && m[i].from == a { assert m[i] in multiset(m'); }
      if i :| 0 <= i < |m'| && m'[i].from == a { assert m'[i] in multiset(m); }
    }
    AscendingUnique(Senders(m), Senders(m'));
  }

  /** Two mempools with the same transactions give the same block. */
  lemma OrderIrrelevant(w: World, baseFee: uint64, gasLimit: uint64, m: seq<Tx>, m': seq<Tx>)
    requires multiset(m) == multiset(m') && OnePerNonce(m)
    ensures Selection(w, baseFee, gasLimit, m) == Selection(w, baseFee, gasLimit, m')
  {
    hide Senders, SortTxs, From, Finish, Begin;
    SameSenders(m, m');
    forall a
      ensures SortTxs(From(m, a)) == SortTxs(From(m', a))
    {
      SameQueue(m, m', a);
    }
    assert PoolOf(w, baseFee, gasLimit, m) == PoolOf(w, baseFee, gasLimit, m');
  }

  // The loops

  method GroupBySender(mempool: seq<Tx>) returns (bySender: map<Address, seq<Tx>>)
    ensures forall a :: a in bySender <==> a in Senders(mempool)
    ensures forall a | a in bySender :: bySender[a] == From(mempool, a)
  {
    bySender := map[];
    for i := 0 to |mempool|
      invariant forall a :: if a in bySender then bySender[a] == From(mempool[..i], a) != [] else From(mempool[..i], a) == []
    {
      hide From;
      var tx := mempool[i];
      assert mempool[..i + 1] == mempool[..i] + [tx];
      forall a
        ensures From(mempool[..i + 1], a) == From(mempool[..i], a) + if tx.from == a then [tx] else []
      {
        FromOne(mempool[..i], tx, a);
      }
      bySender := bySender[tx.from := (if tx.from in bySender then bySender[tx.from] else []) + [tx]];
    }
    assert mempool[..|mempool|] == mempool;
    forall a
      ensures a in bySender <==> a in Senders(mempool)
    {
      Queued(mempool, a);
    }
  }

  lemma Queued(mempool: seq<Tx>, a: Address)
    ensures a in Senders(mempool) <==> From(mempool, a) != []
  {
    hide Senders;
    SendersMean(mempool);
    FromMeans(mempool, a);
    if |From(mempool, a)| > 0 { assert From(mempool, a)[0] in mempool; }
  }

  method SortSenders(addrs: seq<Address>) returns (r: seq<Address>)
    requires forall i, j | 0 <= i < j < |addrs| :: addrs[i] != addrs[j]
    ensures Ascending(r) && forall a :: a in r <==> a in addrs
  {
    r := [];
    for i := 0 to |addrs|
      invariant Ascending(r) && forall a :: a in r <==> a in addrs[..i]
    {
      InsertAddrSorts(r, addrs[i]);
      r := InsertAddr(r, addrs[i]);
    }
  }

  /** Sorts each queue by nonce and the senders by address, whatever order the map yields them in. */
  method SortQueues(bySender: map<Address, seq<Tx>>) returns (senders: seq<Address>, queues: map<Address, seq<Tx>>)
    ensures Ascending(senders) && forall a :: a in senders <==> a in bySender
    ensures queues == map a | a in bySender :: SortTxs(bySender[a])
  {
    hide SortTxs, Ascending;
    var unsorted: seq<Address> := [];
    queues := map[];
    var rest := bySender.Keys;
    while rest != {}
      invariant rest <= bySender.Keys && (forall a :: a in unsorted <==> a in bySender && a !in rest)
      invariant forall i, j | 0 <= i < j < |unsorted| :: unsorted[i] != unsorted[j]
      invariant queues.Keys == bySender.Keys - rest && forall a | a in queues :: queues[a] == SortTxs(bySender[a])
      decreases |rest|
    {
      var a :| a in rest;
      rest := rest - {a};
      queues := queues[a := SortTxs(bySender[a])];
      unsorted := unsorted + [a];
    }
    senders := SortSenders(unsorted);
  }

  /** Takes the free transactions at the front of every active queue. */
  method DrainAll(p: Pool, b: Build) returns (c: Build)
    requires Wf(p, b)
    ensures c == Drain(p, b, |p.senders|)
  {
    c := b;
    for k := 0 to |p.senders|
      invariant c == Drain(p, b, k)
    {
      hide Drain, DrainOne;
      c := DrainQueue(p, c, p.senders[k]);
      DrainStep(p, b, k);
    }
  }

  lemma DrainStep(p: Pool, b: Build, k: nat)
    requires Wf(p, b) && k < |p.senders|
    ensures Drain(p, b, k + 1) == DrainOne(p, Drain(p, b, k), p.senders[k])
  {
  }

  ghost function Upto(p: Pool, b: Build, a: Address, i: nat, included: seq<Tx>): Build
    requires Wf(p, b) && a in b.active
  {
    Build(b.at[a := i], if i < |p.queues[a]| then b.active else b.active - {a}, included, b.budget)
  }

  lemma UptoStep(p: Pool, b: Build, a: Address, i: nat, included: seq<Tx>)
    requires Wf(p, b) && a in b.active && i < |p.queues[a]| && Wf(p, Upto(p, b, a, i, included))
    requires !IsFeePriced(p.world, p.queues[a][i])
    ensures var d := Upto(p, b, a, i + 1, included + [p.queues[a][i]]);
            Wf(p, d) && DrainOne(p, Upto(p, b, a, i, included), a) == DrainOne(p, d, a)
  {
    hide IsFeePriced;
    assert Include(p, Upto(p, b, a, i, included), a) == Upto(p, b, a, i + 1, included + [p.queues[a][i]]);
  }

  lemma UptoEnd(p: Pool, b: Build, a: Address, i: nat, included: seq<Tx>)
    requires Wf(p, b) && a in b.active && i <= |p.queues[a]| && Wf(p, Upto(p, b, a, i, included))
    requires i < |p.queues[a]| ==> IsFeePriced(p.world, p.queues[a][i])
    ensures DrainOne(p, Upto(p, b, a, i, included), a) == Upto(p, b, a, i, included)
  {
  }

  method DrainQueue(p: Pool, b: Build, a: Address) returns (c: Build)
    requires Wf(p, b)
    ensures c == DrainOne(p, b, a)
  {
    if a !in b.active {
      return b;
    }
    var queue, i, included := p.queues[a], b.at[a], b.included;
    assert Upto(p, b, a, i, included) == b;
    hide IsFeePriced, DrainOne, Wf;
    while i < |queue| && !IsFeePriced(p.world, queue[i])
      invariant b.at[a] <= i <= |queue|
      invariant Wf(p, Upto(p, b, a, i, included)) && DrainOne(p, b, a) == DrainOne(p, Upto(p, b, a, i, included), a)
      decreases |queue| - i
    {
      UptoStep(p, b, a, i, included);
      included := included + [queue[i]];
      i := i + 1;
    }
    UptoEnd(p, b, a, i, included);
    c := b.(at := b.at[a := i], included := included, active := if i >= |queue| then b.active - {a} else b.active);
  }

  method RetirePricedOut(p: Pool, b: Build) returns (c: Build)
    requires Wf(p, b)
    ensures c == PriceOut(p, b, |p.senders|)
  {
    c := b;
    for k := 0 to |p.senders|
      invariant c == PriceOut(p, b, k)
    {
      var a := p.senders[k];
      if a in c.active && p.queues[a][c.at[a]].feeCap < p.baseFee {
        c := c.(active := c.active - {a});
      }
    }
  }

  method PickWinner(p: Pool, b: Build) returns (best: Option<Address>)
    requires Wf(p, b)
    ensures best == Best(p, b, |p.senders|)
  {
    best := None;
    for k := 0 to |p.senders|
      invariant best == Best(p, b, k)
    {
      hide PriorityFee;
      var a := p.senders[k];
      if a in b.active {
        var fee := PriorityFee(p, p.queues[a][b.at[a]]);
        if best.None? || fee > PriorityFee(p, p.queues[best.value][b.at[best.value]]) {
          best := Some(a);
        }
      }
    }
  }

  /** Rounds of drain, filter and award until no sender is active. */
  method BuildBlockTxs(w: World, baseFee: uint64, gasLimit: uint64, mempool: seq<Tx>) returns (txs: seq<Tx>)
    ensures txs == Selection(w, baseFee, gasLimit, mempool)
  {
    hide Senders, SortTxs, From, Drain, PriceOut, Best, Wf, Inv, Ascending, Measure;
    var bySender := GroupBySender(mempool);
    var senders, queues := SortQueues(bySender);
    SendersMean(mempool);
    AscendingUnique(senders, Senders(mempool));
    var p := Pool(w, baseFee, gasLimit, senders, queues);
    assert queues == PoolOf(w, baseFee, gasLimit, mempool).queues;
    PoolReady(w, baseFee, gasLimit, mempool);
    var b := Build(map a | a in senders :: 0, set a | a in senders, [], 0);
    while b.active != {}
      invariant Wf(p, b) && Finish(p, Begin(p)) == Finish(p, b)
      decreases Measure(p, b)
    {
      RoundShrinks(p, b);
      b := OneRound(p, b);
    }
    txs := b.included;
  }

  method OneRound(p: Pool, b: Build) returns (c: Build)
    requires Wf(p, b)
    ensures c == Round(p, b)
  {
    hide Drain, PriceOut, Best;
    c := DrainAll(p, b);
    c := RetirePricedOut(p, c);
    var winner := PickWinner(p, c);
    if winner.None? {
      return;
    }
    var a := winner.value;
    var tx := p.queues[a][c.at[a]];
    if Add64(c.budget, tx.gasLimit) > p.gasLimit {
      c := c.(active := c.active - {a});
      return;
    }
    var i := c.at[a] + 1;
    c := Build(c.at[a := i], if i >= |p.queues[a]| then c.active - {a} else c.active, c.included + [tx], Add64(c.budget, tx.gasLimit));
  }
}
