/**
 The state transition (chain/transition.go): how one transaction and one block change the
 state, and what happens to the total supply. Exchange orders and embedded-EVM
 transactions are executed by code outside this model, given here as a function.
 */
module Transition {
  import opened Core
  import opened State
  import opened Dispatch
  import opened FeeMarket
  import opened Vm
  import opened VmExec
  import opened Ledger

  const BLOCK_REWARD: int := 50

  datatype Tx = Tx(from: Address, to: Address, value: uint64, nonce: uint64, gasLimit: uint64, chainId: uint64,
                   feeCap: uint64, tipCap: uint64, data: Bytes, signature: Bytes)

  datatype TxError =
    BadSig | BadNonce | InsufficientBalance | CantAffordGas | Fee(e: FeeError) | Outside

  /** A transaction's effect: the state it leaves, the gas it is priced for, and its tip. */
  datatype Applied = Applied(world: World, gas: uint64, tip: uint64)

  /** The injected signature check, the digest, and the execution of exchange and EVM transactions. */
  datatype Rules = Rules(
    sum: Bytes -> Hash,
    verifySig: Tx -> bool,
    outside: (World, Tx, uint64, nat, uint64) -> Result<Applied, TxError>)

  predicate IsExchange(tx: Tx) { tx.to == EXCHANGE_ADDRESS }

  predicate IsEvm(w: World, tx: Tx) { tx.to == DEPLOY_ADDRESS || IsTaggedCode(CodeAt(w, tx.to)) }

  predicate IsAttestation(tx: Tx) { tx.to == ATTEST_ADDRESS }

  predicate IsContract(w: World, tx: Tx) {
    tx.to == ZERO_ADDRESS || |tx.data| > 0 || |CodeAt(w, tx.to)| > 0
  }

  /** Executed outside this model. */
  predicate IsOutside(w: World, tx: Tx) { IsExchange(tx) || IsEvm(w, tx) }

  function Bumped(a: Account): Account { a.(nonce := Add64(a.nonce, 1)) }

  /** The up-front gas reservation, or None when its 64-bit product overflows. */
  function Reserve(gasLimit: uint64, feeCap: uint64): Option<uint64> {
    var r := Mul64(gasLimit, feeCap);
    if feeCap != 0 && gasLimit != 0 && r / feeCap != gasLimit then None else Some(r)
  }

  /** The division check catches an overflow exactly when there is one. */
  lemma ReserveExact(gasLimit: uint64, feeCap: uint64)
    ensures Reserve(gasLimit, feeCap) == if gasLimit * feeCap < U64 then Some(gasLimit * feeCap) else None
  {
    var p := gasLimit * feeCap;
    if feeCap != 0 && gasLimit != 0 {
      if p < U64 {
        MulDiv(gasLimit, feeCap);
      } else {
        var r := p % U64;
        DivFacts(r, feeCap);
        var q := r / feeCap;
        assert q * feeCap <= r < p;
        assert q == gasLimit ==> q * feeCap == p;
      }
    }
  }

  function MessageOf(tx: Tx): Message {
    Message(tx.from, if tx.to == ZERO_ADDRESS then None else Some(tx.to), tx.value, tx.gasLimit, tx.nonce, tx.data)
  }

  /** The nonce advanced and an amount taken from the sender. */
  function Charged(w: World, from: Address, amount: nat): World
    requires amount <= AccountAt(w, from).balance
  {
    var x := AccountAt(w, from);
    WithAccount(w, from, Bumped(x.(balance := x.balance - amount)))
  }

  function ApplyContract(rules: Rules, w: World, tx: Tx, baseFee: uint64): Result<Applied, TxError> {
    if ValidateFeeCapTip(tx.feeCap, tx.tipCap).Some? then Err(Fee(TipExceedsFeeCap)) else
    var from, reserve := AccountAt(w, tx.from), Reserve(tx.gasLimit, tx.feeCap);
    if reserve.None? || from.balance < reserve.value then Err(CantAffordGas) else
    match EffectiveGasPrice(baseFee, tx.feeCap, tx.tipCap)
    case Err(e) => Err(Fee(e))
    case Ok((price, tip)) =>
      var (receipt, w2) := Execute(rules.sum, Charged(w, tx.from, reserve.value), MessageOf(tx));
      Ok(Applied(Refunded(w2, tx.from, reserve.value, receipt.gasUsed, price), receipt.gasUsed, Mul64(receipt.gasUsed, tip)))
  }

  /** Gives back what the reservation holds beyond the gas used at the effective price. */
  function Refunded(w: World, from: Address, reserve: uint64, gasUsed: uint64, price: uint64): World {
    var refund := (reserve - Mul64(gasUsed, price)) % U64;
    var acct := AccountAt(w, from);
    WithAccount(w, from, acct.(balance := Add64(acct.balance, refund)))
  }

  function ApplyPlain(w: World, tx: Tx): Result<Applied, TxError> {
    var from := AccountAt(w, tx.from);
    if from.balance < tx.value then Err(InsufficientBalance)
    else if tx.from == tx.to then Ok(Applied(WithAccount(w, tx.from, Bumped(from)), 0, 0))
    else
      var to := AccountAt(w, tx.to);
      var w1 := WithAccount(w, tx.from, Bumped(from.(balance := from.balance - tx.value)));
      Ok(Applied(WithAccount(w1, tx.to, to.(balance := Add64(to.balance, tx.value))), 0, 0))
  }

  function ApplyTx(rules: Rules, w: World, tx: Tx, height: uint64, index: nat, baseFee: uint64): Result<Applied, TxError> {
    if !rules.verifySig(tx) then Err(BadSig)
    else if tx.nonce != AccountAt(w, tx.from).nonce then Err(BadNonce)
    else if IsOutside(w, tx) then rules.outside(w, tx, height, index, baseFee)
    else if IsAttestation(tx) then Ok(Applied(WithAccount(w, tx.from, Bumped(AccountAt(w, tx.from))), 0, 0))
    else if IsContract(w, tx) then ApplyContract(rules, w, tx, baseFee)
    else ApplyPlain(w, tx)
  }

  /** The first `n` transactions in order, gas and tips accumulated in 64 bits. */
  function ApplyTxs(rules: Rules, w: World, txs: seq<Tx>, n: nat, height: uint64, baseFee: uint64): Result<Applied, TxError>
    requires n <= |txs|
  {
    if n == 0 then Ok(Applied(w, 0, 0)) else
    match ApplyTxs(rules, w, txs, n - 1, height, baseFee)
    case Err(e) => Err(e)
    case Ok(a) =>
      match ApplyTx(rules, a.world, txs[n - 1], height, n - 1, baseFee)
      case Err(e) => Err(e)
      case Ok(b) => Ok(Applied(b.world, Add64(a.gas, b.gas), Add64(a.tip, b.tip)))
  }

  function Rewarded(w: World, coinbase: Address, tip: uint64): World {
    var acct := AccountAt(w, coinbase);
    WithAccount(w, coinbase, acct.(balance := Add64(acct.balance, Add64(BLOCK_REWARD, tip))))
  }

  /** A block's transactions, then the reward and the tips to its coinbase; genesis is not rewarded. */
  function ApplyBlock(rules: Rules, w: World, txs: seq<Tx>, height: uint64, coinbase: Address, baseFee: uint64)
    : Result<(World, uint64), TxError>
  {
    match ApplyTxs(rules, w, txs, |txs|, height, baseFee)
    case Err(e) => Err(e)
    case Ok(a) => Ok((if height == 0 then a.world else Rewarded(a.world, coinbase, a.tip), a.gas))
  }

  // Supply

  lemma RefundSupply(w: World, from: Address, reserve: uint64, gasUsed: uint64, price: uint64, paid: nat)
    requires Mul64(gasUsed, price) == paid <= reserve && Supply(w) + reserve < U64
    ensures Supply(Refunded(w, from, reserve, gasUsed, price)) == Supply(w) + reserve - paid
  {
    hide Mul64, Add64;
    var acct := AccountAt(w, from);
    SmallMod(reserve - paid);
    SetBalance(w, from, acct.(balance := Add64(acct.balance, reserve - paid)));
    SmallSum(acct.balance, reserve - paid);
  }

  lemma SmallMod(x: nat)
    ensures x < U64 ==> x % U64 == x
  {
  }

  lemma SmallSum(x: uint64, y: uint64)
    ensures x + y < U64 ==> Add64(x, y) == x + y
  {
  }

  lemma RewardSupply(w: World, coinbase: Address, tip: uint64)
    requires Supply(w) + BLOCK_REWARD + tip < U64
    ensures Supply(Rewarded(w, coinbase, tip)) == Supply(w) + BLOCK_REWARD + tip
  {
    var acct := AccountAt(w, coinbase);
    SetBalance(w, coinbase, acct.(balance := Add64(acct.balance, Add64(BLOCK_REWARD, tip))));
  }

  /** A contract transaction burns the base fee and sets the tip aside; the refund never underflows. */
  lemma ContractSupply(rules: Rules, w: World, tx: Tx, baseFee: uint64)
    requires Supply(w) < U64
    ensures var r := ApplyContract(rules, w, tx, baseFee);
            r.Ok? ==> Supply(r.value.world) + baseFee * r.value.gas + r.value.tip == Supply(w)
  {
    hide Execute, Refunded, Supply, Reserve, Mul64;
    var r := ApplyContract(rules, w, tx, baseFee);
    if r.Ok? {
      var from, reserve := AccountAt(w, tx.from), Reserve(tx.gasLimit, tx.feeCap).value;
      ReserveExact(tx.gasLimit, tx.feeCap);
      var (price, tip) := EffectiveGasPrice(baseFee, tx.feeCap, tx.tipCap).value;
      var x := Bumped(from.(balance := from.balance - reserve));
      var w1 := WithAccount(w, tx.from, x);
      SetBalance(w, tx.from, x);
      ExecuteKeeps(rules.sum, w1, MessageOf(tx));
      var (receipt, w2) := Execute(rules.sum, w1, MessageOf(tx));
      Paid(receipt.gasUsed, tx.gasLimit, baseFee, tip, price, tx.feeCap);
      Mul64Exact(receipt.gasUsed, tip);
      Mul64Exact(receipt.gasUsed, price);
      RefundSupply(w2, tx.from, reserve, receipt.gasUsed, price, receipt.gasUsed * price);
    }
  }

  lemma Paid(gas: nat, gasLimit: nat, baseFee: nat, tip: nat, price: nat, feeCap: nat)
    requires gas <= gasLimit && price == baseFee + tip && price <= feeCap
    ensures gas * price <= gasLimit * feeCap && gas * price == baseFee * gas + gas * tip && gas * tip <= gas * price
  {
  }

  lemma PlainSupply(w: World, tx: Tx)
    requires Supply(w) < U64
    ensures var r := ApplyPlain(w, tx); r.Ok? ==> Supply(r.value.world) == Supply(w) && r.value.gas == 0 && r.value.tip == 0
  {
    hide Supply;
    var from, to := AccountAt(w, tx.from), AccountAt(w, tx.to);
    SetBalance(w, tx.from, Bumped(from));
    if from.balance >= tx.value && tx.from != tx.to {
      var x := Bumped(from.(balance := from.balance - tx.value));
      var w1 := WithAccount(w, tx.from, x);
      SetBalance(w, tx.from, x);
      SetBalance(w1, tx.to, to.(balance := Add64(to.balance, tx.value)));
      assert AccountAt(w1, tx.to) == to;
    }
  }

  /** One native transaction: what leaves the supply is the burnt base fee plus the tip it sets aside. */
  lemma TxSupply(rules: Rules, w: World, tx: Tx, height: uint64, index: nat, baseFee: uint64)
    requires Supply(w) < U64 && !IsOutside(w, tx)
    ensures var r := ApplyTx(rules, w, tx, height, index, baseFee);
            r.Ok? ==> Supply(r.value.world) + baseFee * r.value.gas + r.value.tip == Supply(w)
  {
    hide Supply, ApplyContract, ApplyPlain;
    ContractSupply(rules, w, tx, baseFee);
    PlainSupply(w, tx);
    SetBalance(w, tx.from, Bumped(AccountAt(w, tx.from)));
    assert baseFee * 0 == 0;
  }

  /** None of the first `n` transactions is handed outside. */
  ghost predicate Native(rules: Rules, w: World, txs: seq<Tx>, n: nat, height: uint64, baseFee: uint64)
    requires n <= |txs|
  {
    n > 0 ==>
      && Native(rules, w, txs, n - 1, height, baseFee)
      && (var r := ApplyTxs(rules, w, txs, n - 1, height, baseFee); r.Ok? ==> !IsOutside(r.value.world, txs[n - 1]))
  }

  /** The 64-bit totals lose nothing that matters: tips add up, and so does the burnt fee. */
  lemma {:induction false} TxsSupply(rules: Rules, w: World, txs: seq<Tx>, n: nat, height: uint64, baseFee: uint64)
    requires n <= |txs| && Supply(w) < U64 && Native(rules, w, txs, n, height, baseFee)
    ensures var r := ApplyTxs(rules, w, txs, n, height, baseFee);
            r.Ok? ==> Supply(r.value.world) + baseFee * r.value.gas + r.value.tip == Supply(w)
  {
    hide Supply, ApplyTx, IsOutside;
    var r := ApplyTxs(rules, w, txs, n, height, baseFee);
    if n > 0 && r.Ok? {
      TxsSupply(rules, w, txs, n - 1, height, baseFee);
      var a := ApplyTxs(rules, w, txs, n - 1, height, baseFee).value;
      NotNegative(baseFee, a.gas);
      TxSupply(rules, a.world, txs[n - 1], height, n - 1, baseFee);
      var b := ApplyTx(rules, a.world, txs[n - 1], height, n - 1, baseFee).value;
      NotNegative(baseFee, b.gas);
      SumsHold(baseFee, a.gas, b.gas, Supply(w));
    }
  }

  lemma NotNegative(x: nat, y: nat)
    ensures 0 <= x * y
  {
  }

  lemma SumsHold(baseFee: uint64, g: uint64, g': uint64, s: nat)
    requires baseFee * g + baseFee * g' <= s < U64
    ensures baseFee * Add64(g, g') == baseFee * g + baseFee * g'
  {
    assert baseFee * g + baseFee * g' == baseFee * (g + g');
    if baseFee > 0 {
      MulGrows(g + g', baseFee);
      assert baseFee * (g + g') == (g + g') * baseFee;
    }
  }

  /** One rewarded block: the supply grows by the block reward and shrinks by the burnt base fee. */
  lemma BlockSupply(rules: Rules, w: World, txs: seq<Tx>, height: uint64, coinbase: Address, baseFee: uint64)
    requires height != 0 && Supply(w) + BLOCK_REWARD < U64 && Native(rules, w, txs, |txs|, height, baseFee)
    ensures var r := ApplyBlock(rules, w, txs, height, coinbase, baseFee);
            r.Ok? ==> Supply(r.value.0) + baseFee * r.value.1 == Supply(w) + BLOCK_REWARD
  {
    hide Supply, ApplyTxs, Native, Rewarded;
    TxsSupply(rules, w, txs, |txs|, height, baseFee);
    var r := ApplyTxs(rules, w, txs, |txs|, height, baseFee);
    if r.Ok? {
      var a := r.value;
      NotNegative(baseFee, a.gas);
      RewardSupply(a.world, coinbase, a.tip);
    }
  }

  // Who pays whom

  /** A plain transfer goes through exactly when it is covered: nonce and value, from sender to receiver, and nothing else. */
  lemma PlainMoves(w: World, tx: Tx)
    requires Supply(w) < U64
    ensures var r := ApplyPlain(w, tx);
            && (r.Ok? <==> tx.value <= AccountAt(w, tx.from).balance)
            && (r.Ok? ==> Moved(WithAccount(w, tx.from, Bumped(AccountAt(w, tx.from))), r.value.world, tx.from, tx.to, tx.value))
  {
    hide Supply;
    if tx.from != tx.to { TwoBalances(w.accounts, tx.from, tx.to); }
    assert Supply(w) == Total(w.accounts) by { SupplyIs(w); }
  }

  /** The sender's tip per unit of gas: what was offered, cut to what the fee cap leaves above the base fee. */
  function TipPaid(baseFee: uint64, feeCap: uint64, tipCap: uint64): nat
    requires baseFee <= feeCap
  {
    if tipCap <= feeCap - baseFee then tipCap else feeCap - baseFee
  }

  lemma PriceIs(baseFee: uint64, feeCap: uint64, tipCap: uint64)
    ensures var p := EffectiveGasPrice(baseFee, feeCap, tipCap);
            && (p.Ok? <==> baseFee <= feeCap)
            && (p.Ok? ==> p.value.1 == TipPaid(baseFee, feeCap, tipCap) && p.value.0 == baseFee + p.value.1)
  {
  }

  /** A contract transaction is applied exactly when its caps are in order and the reservation is covered; else the first fault is reported. */
  lemma ContractCondition(rules: Rules, w: World, tx: Tx, baseFee: uint64)
    ensures ApplyContract(rules, w, tx, baseFee).Ok? <==>
            tx.tipCap <= tx.feeCap && baseFee <= tx.feeCap && tx.gasLimit * tx.feeCap <= AccountAt(w, tx.from).balance
    ensures var r := ApplyContract(rules, w, tx, baseFee);
            r.Err? ==>
              r.error == if tx.tipCap > tx.feeCap then Fee(TipExceedsFeeCap)
                         else if tx.gasLimit * tx.feeCap > AccountAt(w, tx.from).balance then CantAffordGas
                         else Fee(FeeCapBelowBaseFee)
  {
    hide Execute, Refunded, Reserve;
    ReserveExact(tx.gasLimit, tx.feeCap);
    PriceIs(baseFee, tx.feeCap, tx.tipCap);
  }

  /**
   An applied contract transaction has reserved `gasLimit * feeCap`, executed the message that its fields spell on the
   world so charged, and given back to the sender what the gas used at the effective price leaves of the reservation;
   nothing else is changed, and the gas reported is the gas used.
   */
  lemma ContractExact(rules: Rules, w: World, tx: Tx, baseFee: uint64)
    requires Supply(w) < U64
    requires tx.tipCap <= tx.feeCap && baseFee <= tx.feeCap && 0 <= tx.gasLimit * tx.feeCap <= AccountAt(w, tx.from).balance
    ensures var x, tip := AccountAt(w, tx.from), TipPaid(baseFee, tx.feeCap, tx.tipCap);
            var w1 := WithAccount(w, tx.from, x.(balance := x.balance - tx.gasLimit * tx.feeCap, nonce := (x.nonce + 1) % U64));
            var to := if tx.to == ZERO_ADDRESS then None else Some(tx.to);
            var (receipt, w2) := Execute(rules.sum, w1, Message(tx.from, to, tx.value, tx.gasLimit, tx.nonce, tx.data));
            var r := ApplyContract(rules, w, tx, baseFee);
            && r.Ok? && r.value.gas == receipt.gasUsed && r.value.tip == receipt.gasUsed * tip
            && r.value.world.code == w2.code && r.value.world.storage == w2.storage
            && forall b :: var y, z := AccountAt(w2, b), AccountAt(r.value.world, b);
                 && z == y.(balance := z.balance)
                 && z.balance == y.balance + if b == tx.from then tx.gasLimit * tx.feeCap - receipt.gasUsed * (baseFee + tip) else 0
  {
    hide Execute, Refunded, Supply, Reserve, Mul64;
    var from, reserve := AccountAt(w, tx.from), tx.gasLimit * tx.feeCap;
    ReserveExact(tx.gasLimit, tx.feeCap);
    PriceIs(baseFee, tx.feeCap, tx.tipCap);
    var tip := TipPaid(baseFee, tx.feeCap, tx.tipCap);
    var price := baseFee + tip;
    var w1 := WithAccount(w, tx.from, Bumped(from.(balance := from.balance - reserve)));
    SetBalance(w, tx.from, Bumped(from.(balance := from.balance - reserve)));
    ExecuteKeeps(rules.sum, w1, MessageOf(tx));
    var (receipt, w2) := Execute(rules.sum, w1, MessageOf(tx));
    Paid(receipt.gasUsed, tx.gasLimit, baseFee, tip, price, tx.feeCap);
    NotNegative(receipt.gasUsed, tip);
    NotNegative(receipt.gasUsed, price);
    Mul64Exact(receipt.gasUsed, tip);
    Mul64Exact(receipt.gasUsed, price);
    SetBalance(w2, tx.from, AccountAt(w2, tx.from));
    RefundExact(w2, tx.from, reserve, receipt.gasUsed, price, receipt.gasUsed * price);
  }

  lemma RefundExact(w: World, from: Address, reserve: uint64, gasUsed: uint64, price: uint64, paid: nat)
    requires Mul64(gasUsed, price) == paid <= reserve && AccountAt(w, from).balance + reserve < U64
    ensures var w' := Refunded(w, from, reserve, gasUsed, price);
            && w'.code == w.code && w'.storage == w.storage
            && forall b :: var y, z := AccountAt(w, b), AccountAt(w', b);
                 z == y.(balance := z.balance) && z.balance == y.balance + if b == from then reserve - paid else 0
  {
    hide Mul64;
  }

  /** A contract transaction whose execution fails does nothing but advance the nonce and pay for its gas. */
  lemma FailedContractPays(rules: Rules, w: World, tx: Tx, baseFee: uint64, reserve: uint64, price: uint64, tip: uint64)
    requires Supply(w) < U64 && ValidateFeeCapTip(tx.feeCap, tx.tipCap).None?
    requires Reserve(tx.gasLimit, tx.feeCap) == Some(reserve) && reserve <= AccountAt(w, tx.from).balance
    requires EffectiveGasPrice(baseFee, tx.feeCap, tx.tipCap) == Ok((price, tip))
    ensures var receipt := Execute(rules.sum, Charged(w, tx.from, reserve), MessageOf(tx)).0;
            receipt.err.Some? ==>
              && 0 <= receipt.gasUsed * price <= reserve && 0 <= receipt.gasUsed * tip < U64
              && ApplyContract(rules, w, tx, baseFee)
                 == Ok(Applied(Charged(w, tx.from, receipt.gasUsed * price), receipt.gasUsed, receipt.gasUsed * tip))
  {
    hide Execute, Supply, Reserve, Mul64;
    ReserveExact(tx.gasLimit, tx.feeCap);
    ExecuteKeeps(rules.sum, Charged(w, tx.from, reserve), MessageOf(tx));
    var receipt := Execute(rules.sum, Charged(w, tx.from, reserve), MessageOf(tx)).0;
    Paid(receipt.gasUsed, tx.gasLimit, baseFee, tip, price, tx.feeCap);
    NotNegative(receipt.gasUsed, price);
    NotNegative(receipt.gasUsed, tip);
    Mul64Exact(receipt.gasUsed, price);
    Mul64Exact(receipt.gasUsed, tip);
    RefundedCharge(w, tx.from, reserve, receipt.gasUsed, price, receipt.gasUsed * price);
  }

  /** Refunding what was charged too much is charging less. */
  lemma RefundedCharge(w: World, from: Address, reserve: uint64, gasUsed: uint64, price: uint64, paid: nat)
    requires paid <= reserve <= AccountAt(w, from).balance && Mul64(gasUsed, price) == paid
    ensures Refunded(Charged(w, from, reserve), from, reserve, gasUsed, price) == Charged(w, from, paid)
  {
    hide Mul64;
  }

  /** The reward and the tips go to the coinbase, exactly, and to nobody else. */
  lemma RewardPaid(w: World, coinbase: Address, tip: uint64, a: Address)
    requires Supply(w) + BLOCK_REWARD + tip < U64
    ensures var x, y := AccountAt(w, a), AccountAt(Rewarded(w, coinbase, tip), a);
            y == x.(balance := y.balance) && y.balance == x.balance + if a == coinbase then BLOCK_REWARD + tip else 0
  {
    hide Supply;
    SetBalance(w, coinbase, AccountAt(w, coinbase));
  }

  // Nonces

  function Count(txs: seq<Tx>, n: nat, a: Address): nat
    requires n <= |txs|
  {
    if n == 0 then 0 else Count(txs, n - 1, a) + if txs[n - 1].from == a then 1 else 0
  }

  lemma ContractNonce(rules: Rules, w: World, tx: Tx, baseFee: uint64, a: Address)
    ensures var r := ApplyContract(rules, w, tx, baseFee);
            r.Ok? ==> AccountAt(r.value.world, a).nonce == Add64(AccountAt(w, a).nonce, if a == tx.from then 1 else 0)
  {
    hide Execute, Supply, Mul64;
    var r, reserve := ApplyContract(rules, w, tx, baseFee), Reserve(tx.gasLimit, tx.feeCap);
    if r.Ok? {
      var w1 := Charged(w, tx.from, reserve.value);
      ExecuteKeeps(rules.sum, w1, MessageOf(tx));
      var w2 := Execute(rules.sum, w1, MessageOf(tx)).1;
      assert AccountAt(w2, a).(balance := 0) == AccountAt(w1, a).(balance := 0);
      SmallSum(AccountAt(w, a).nonce, 0);
    }
  }

  /** A native transaction is signed, carries the sender's nonce, and advances that nonce and no other. */
  lemma TxNonce(rules: Rules, w: World, tx: Tx, height: uint64, index: nat, baseFee: uint64, a: Address)
    requires !IsOutside(w, tx)
    ensures var r := ApplyTx(rules, w, tx, height, index, baseFee);
            r.Ok? ==>
              && rules.verifySig(tx) && tx.nonce == AccountAt(w, tx.from).nonce
              && AccountAt(r.value.world, a).nonce == Add64(AccountAt(w, a).nonce, if a == tx.from then 1 else 0)
  {
    hide ApplyContract;
    ContractNonce(rules, w, tx, baseFee, a);
  }

  /** A sender's nonce counts its transactions. */
  lemma {:induction false} NoncesSoFar(rules: Rules, w: World, txs: seq<Tx>, n: nat, height: uint64, baseFee: uint64, a: Address)
    requires n <= |txs| && Native(rules, w, txs, n, height, baseFee)
    requires ApplyTxs(rules, w, txs, n, height, baseFee).Ok?
    ensures AccountAt(ApplyTxs(rules, w, txs, n, height, baseFee).value.world, a).nonce
         == (AccountAt(w, a).nonce + Count(txs, n, a)) % U64
  {
    hide ApplyTx, IsOutside, AccountAt, Add64;
    SmallMod(AccountAt(w, a).nonce);
    if n > 0 {
      var before := ApplyTxs(rules, w, txs, n - 1, height, baseFee).value.world;
      NoncesSoFar(rules, w, txs, n - 1, height, baseFee, a);
      TxNonce(rules, before, txs[n - 1], height, n - 1, baseFee, a);
      ModSum(AccountAt(before, a).nonce, AccountAt(w, a).nonce + Count(txs, n - 1, a), if txs[n - 1].from == a then 1 else 0);
    }
  }

  /** Within a native block each transaction carries its sender's first nonce plus the number of earlier ones, so none repeats. */
  lemma {:induction false} BlockNonces(rules: Rules, w: World, txs: seq<Tx>, n: nat, height: uint64, baseFee: uint64, k: nat)
    requires k < n <= |txs| && Native(rules, w, txs, n, height, baseFee)
    requires ApplyTxs(rules, w, txs, n, height, baseFee).Ok?
    ensures txs[k].nonce == (AccountAt(w, txs[k].from).nonce + Count(txs, k, txs[k].from)) % U64
    decreases n
  {
    hide ApplyTx, IsOutside, AccountAt, Add64;
    if k < n - 1 {
      BlockNonces(rules, w, txs, n - 1, height, baseFee, k);
    } else {
      var before, a := ApplyTxs(rules, w, txs, k, height, baseFee).value.world, txs[k].from;
      NoncesSoFar(rules, w, txs, k, height, baseFee, a);
      TxNonce(rules, before, txs[k], height, k, baseFee, a);
    }
  }

  // Code

  /** The address a transaction deploys to, if it is a deployment. */
  predicate DeploysAt(rules: Rules, tx: Tx, a: Address) {
    tx.to == ZERO_ADDRESS && CreateAddress(rules.sum, tx.from, tx.nonce) == a
  }

  /** A native transaction changes no code but at the address it deploys to, where it leaves its data. */
  lemma TxCode(rules: Rules, w: World, tx: Tx, height: uint64, index: nat, baseFee: uint64, a: Address)
    requires !IsOutside(w, tx)
    ensures var r := ApplyTx(rules, w, tx, height, index, baseFee);
            r.Ok? && CodeAt(r.value.world, a) != CodeAt(w, a) ==> DeploysAt(rules, tx, a) && CodeAt(r.value.world, a) == tx.data
  {
    hide ApplyContract, CreateAddress;
    ContractCode(rules, w, tx, baseFee, a);
  }

  lemma ContractCode(rules: Rules, w: World, tx: Tx, baseFee: uint64, a: Address)
    ensures var r := ApplyContract(rules, w, tx, baseFee);
            r.Ok? && CodeAt(r.value.world, a) != CodeAt(w, a) ==> DeploysAt(rules, tx, a) && CodeAt(r.value.world, a) == tx.data
  {
    hide Execute, Supply, Mul64, CreateAddress;
    var r, reserve := ApplyContract(rules, w, tx, baseFee), Reserve(tx.gasLimit, tx.feeCap);
    if r.Ok? { ExecuteKeeps(rules.sum, Charged(w, tx.from, reserve.value), MessageOf(tx)); }
  }

  /** Code stays as it was over a native block none of whose transactions deploys there. */
  lemma {:induction false} BlockCode(rules: Rules, w: World, txs: seq<Tx>, n: nat, height: uint64, baseFee: uint64, a: Address)
    requires n <= |txs| && Native(rules, w, txs, n, height, baseFee)
    requires ApplyTxs(rules, w, txs, n, height, baseFee).Ok? && forall k | 0 <= k < n :: !DeploysAt(rules, txs[k], a)
    ensures CodeAt(ApplyTxs(rules, w, txs, n, height, baseFee).value.world, a) == CodeAt(w, a)
  {
    hide ApplyTx, IsOutside, CodeAt, DeploysAt;
    if n > 0 {
      BlockCode(rules, w, txs, n - 1, height, baseFee, a);
      TxCode(rules, ApplyTxs(rules, w, txs, n - 1, height, baseFee).value.world, txs[n - 1], height, n - 1, baseFee, a);
    }
  }

  // What is priced by gas

  /** What the dispatch sends to an execution that is charged for gas. */
  predicate PricedByGas(w: World, tx: Tx) {
    !IsExchange(tx) && (IsEvm(w, tx) || (!IsAttestation(tx) && IsContract(w, tx)))
  }

  /** An exchange or embedded-EVM transaction is handed over with the state before it, its position in the block, and the block's height and base fee. */
  lemma OutsideSees(rules: Rules, w: World, txs: seq<Tx>, k: nat, height: uint64, baseFee: uint64)
    requires k < |txs| && ApplyTxs(rules, w, txs, k, height, baseFee).Ok?
    requires var a := ApplyTxs(rules, w, txs, k, height, baseFee).value;
             rules.verifySig(txs[k]) && txs[k].nonce == AccountAt(a.world, txs[k].from).nonce && IsOutside(a.world, txs[k])
    ensures var a := ApplyTxs(rules, w, txs, k, height, baseFee).value;
            var r, r' := rules.outside(a.world, txs[k], height, k, baseFee), ApplyTxs(rules, w, txs, k + 1, height, baseFee);
            && (r.Err? ==> r' == Err(r.error))
            && (r.Ok? ==> r' == Ok(Applied(r.value.world, (a.gas + r.value.gas) % U64, (a.tip + r.value.tip) % U64)))
  {
    hide ApplyTx;
    var a := ApplyTxs(rules, w, txs, k, height, baseFee).value;
    assert ApplyTx(rules, a.world, txs[k], height, k, baseFee) == rules.outside(a.world, txs[k], height, k, baseFee) by {
      HandedOver(rules, a.world, txs[k], height, k, baseFee);
    }
  }

  lemma HandedOver(rules: Rules, w: World, tx: Tx, height: uint64, index: nat, baseFee: uint64)
    requires rules.verifySig(tx) && tx.nonce == AccountAt(w, tx.from).nonce && IsOutside(w, tx)
    ensures ApplyTx(rules, w, tx, height, index, baseFee) == rules.outside(w, tx, height, index, baseFee)
  {
    hide IsOutside, ApplyContract, ApplyPlain;
  }

  /** Of the transactions executed here, those priced by gas are charged like contracts and the others use none. */
  lemma PricedIsCharged(rules: Rules, w: World, tx: Tx, height: uint64, index: nat, baseFee: uint64)
    requires !IsOutside(w, tx) && rules.verifySig(tx) && tx.nonce == AccountAt(w, tx.from).nonce
    ensures var r := ApplyTx(rules, w, tx, height, index, baseFee);
            && (PricedByGas(w, tx) ==> r == ApplyContract(rules, w, tx, baseFee))
            && (!PricedByGas(w, tx) && r.Ok? ==> r.value.gas == 0 && r.value.tip == 0)
  {
    hide ApplyContract;
  }

  // In place, on the database

  /** Runs the VM between the reservation and the refund, both written straight to the database. */
  method ApplyContractTx(rules: Rules, st: StateDB, tx: Tx, baseFee: uint64) returns (r: Result<(uint64, uint64), TxError>)
    modifies st
    ensures var a := ApplyContract(rules, old(st.View()), tx, baseFee);
            && (r.Ok? ==> a == Ok(Applied(st.View(), r.value.0, r.value.1)))
            && (r.Err? ==> a == Err(r.error) && st.View() == old(st.View()))
  {
    hide Execute;
    if ValidateFeeCapTip(tx.feeCap, tx.tipCap).Some? {
      return Err(Fee(TipExceedsFeeCap));
    }
    var from, reserve := AccountAt(World(st.accounts, st.code, st.storage), tx.from), Reserve(tx.gasLimit, tx.feeCap);
    if reserve.None? || from.balance < reserve.value {
      return Err(CantAffordGas);
    }
    var p := EffectiveGasPrice(baseFee, tx.feeCap, tx.tipCap);
    if p.Err? {
      return Err(Fee(p.error));
    }
    st.SetAccount(tx.from, Bumped(from.(balance := from.balance - reserve.value)));
    var receipt := ExecuteMessage(rules.sum, st, MessageOf(tx));
    var refund := (reserve.value - Mul64(receipt.gasUsed, p.value.0)) % U64;
    var acct := AccountAt(World(st.accounts, st.code, st.storage), tx.from);
    st.SetAccount(tx.from, acct.(balance := Add64(acct.balance, refund)));
    r := Ok((receipt.gasUsed, Mul64(receipt.gasUsed, p.value.1)));
  }

  method ApplyOneTx(rules: Rules, st: StateDB, tx: Tx, height: uint64, index: nat, baseFee: uint64)
    returns (r: Result<(uint64, uint64), TxError>)
    modifies st
    ensures var a := ApplyTx(rules, old(st.View()), tx, height, index, baseFee);
            && (r.Ok? ==> a == Ok(Applied(st.View(), r.value.0, r.value.1)))
            && (r.Err? ==> a == Err(r.error))
  {
    hide ApplyContract;
    if !rules.verifySig(tx) {
      return Err(BadSig);
    }
    var w := World(st.accounts, st.code, st.storage);
    var from := AccountAt(w, tx.from);
    if tx.nonce != from.nonce {
      return Err(BadNonce);
    }
    if IsOutside(w, tx) {
      match rules.outside(w, tx, height, index, baseFee) {
        case Err(e) =>
          return Err(e);
        case Ok(a) =>
          st.accounts, st.code, st.storage := a.world.accounts, a.world.code, a.world.storage;
          return Ok((a.gas, a.tip));
      }
    }
    if IsAttestation(tx) {
      st.SetAccount(tx.from, Bumped(from));
      return Ok((0, 0));
    }
    if IsContract(w, tx) {
      r := ApplyContractTx(rules, st, tx, baseFee);
      return;
    }
    if from.balance < tx.value {
      return Err(InsufficientBalance);
    }
    if tx.from == tx.to {
      st.SetAccount(tx.from, Bumped(from));
      return Ok((0, 0));
    }
    var to := AccountAt(w, tx.to);
    st.SetAccount(tx.from, Bumped(from.(balance := from.balance - tx.value)));
    st.SetAccount(tx.to, to.(balance := Add64(to.balance, tx.value)));
    r := Ok((0, 0));
  }

  /** The transaction loop of a block, its totals accumulated as it goes. */
  method ApplyTxsAt(rules: Rules, st: StateDB, txs: seq<Tx>, height: uint64, baseFee: uint64)
    returns (r: Result<(uint64, uint64), TxError>)
    modifies st
    ensures var a := ApplyTxs(rules, old(st.View()), txs, |txs|, height, baseFee);
            && (r.Ok? ==> a == Ok(Applied(st.View(), r.value.0, r.value.1)))
            && (r.Err? ==> a == Err(r.error))
  {
    hide ApplyTx;
    var gas, tip := 0, 0;
    for i := 0 to |txs|
      invariant ApplyTxs(rules, old(st.View()), txs, i, height, baseFee) == Ok(Applied(st.View(), gas, tip))
    {
      var a := ApplyOneTx(rules, st, txs[i], height, i, baseFee);
      if a.Err? {
        ErrorStays(rules, old(st.View()), txs, i + 1, |txs|, height, baseFee);
        return Err(a.error);
      }
      gas, tip := Add64(gas, a.value.0), Add64(tip, a.value.1);
    }
    r := Ok((gas, tip));
  }

  lemma {:induction false} ErrorStays(rules: Rules, w: World, txs: seq<Tx>, i: nat, n: nat, height: uint64, baseFee: uint64)
    requires i <= n <= |txs| && ApplyTxs(rules, w, txs, i, height, baseFee).Err?
    ensures ApplyTxs(rules, w, txs, n, height, baseFee) == ApplyTxs(rules, w, txs, i, height, baseFee)
    decreases n - i
  {
    hide ApplyTx;
    if i < n { ErrorStays(rules, w, txs, i, n - 1, height, baseFee); }
  }

  method ApplyBlockRewarded(rules: Rules, st: StateDB, txs: seq<Tx>, height: uint64, coinbase: Address, baseFee: uint64)
    returns (r: Result<uint64, TxError>)
    modifies st
    ensures var a := ApplyBlock(rules, old(st.View()), txs, height, coinbase, baseFee);
            && (r.Ok? ==> a == Ok((st.View(), r.value)))
            && (r.Err? ==> a == Err(r.error))
  {
    hide ApplyTxs;
    var a := ApplyTxsAt(rules, st, txs, height, baseFee);
    if a.Err? {
      return Err(a.error);
    }
    if height != 0 {
      var acct := AccountAt(World(st.accounts, st.code, st.storage), coinbase);
      st.SetAccount(coinbase, acct.(balance := Add64(acct.balance, Add64(BLOCK_REWARD, a.value.1))));
    }
    r := Ok(a.value.0);
  }
}
