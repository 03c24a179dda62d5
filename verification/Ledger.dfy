/**
 The total supply of a world, and the two things every StackVM message keeps: the supply,
 and each account's nonce, code hash and storage root.
 */
module Ledger {
  import opened Core
  import opened State
  import opened Vm

  function Balance(m: map<Address, Account>, a: Address): nat {
    if a in m then m[a].balance else 0
  }

  /** The sum of all balances, as a mathematical integer. */
  ghost function Total(m: map<Address, Account>): nat {
    if m == map[] then 0 else
    var a :| a in m;
    m[a].balance + Total(m - {a})
  }

  ghost function Supply(w: World): nat { Total(w.accounts) }

  lemma {:induction false} TotalRemove(m: map<Address, Account>, a: Address)
    requires a in m
    ensures Total(m) == m[a].balance + Total(m - {a})
    decreases |m|
  {
    var b :| b in m && Total(m) == m[b].balance + Total(m - {b});
    if b != a {
      TotalRemove(m - {b}, a);
      TotalRemove(m - {a}, b);
      assert m - {b} - {a} == m - {a} - {b};
    }
  }

  lemma TotalSet(m: map<Address, Account>, a: Address, x: Account)
    ensures Total(m[a := x]) == Total(m) - Balance(m, a) + x.balance
    ensures Balance(m, a) <= Total(m)
  {
    TotalRemove(m[a := x], a);
    assert m[a := x] - {a} == m - {a};
    if a in m { TotalRemove(m, a); } else { assert m - {a} == m; }
  }

  lemma TwoBalances(m: map<Address, Account>, a: Address, b: Address)
    requires a != b
    ensures Balance(m, a) + Balance(m, b) <= Total(m)
  {
  }

  lemma SetBalance(w: World, a: Address, x: Account)
    ensures Supply(WithAccount(w, a, x)) == Supply(w) - AccountAt(w, a).balance + x.balance
    ensures AccountAt(w, a).balance <= Supply(w)
  {
    TotalSet(w.accounts, a, x);
  }

  // StackVM messages

  /** Balances may have moved; nothing else about any account has changed. */
  ghost predicate OnlyBalances(w: World, w': World) {
    forall a :: AccountAt(w', a).(balance := 0) == AccountAt(w, a).(balance := 0)
  }

  /** What a step of the machine keeps, for a supply that fits in 64 bits. */
  ghost predicate Kept(w: World, w': World) {
    OnlyBalances(w, w') && (Supply(w) < U64 ==> Supply(w') == Supply(w))
  }

  /** A transfer goes through exactly when it can be paid, and then moves that value and nothing else. */
  lemma TransferMoves(w: World, from: Address, to: Address, value: uint64)
    requires Supply(w) < U64
    ensures var t := Transfer(w, from, to, value);
            && (t.Some? <==> value == 0 || from == to || value <= AccountAt(w, from).balance)
            && (t.Some? ==> Moved(w, t.value, from, to, value))
  {
    hide Supply;
    if from != to { TwoBalances(w.accounts, from, to); }
    assert Supply(w) == Total(w.accounts) by { SupplyIs(w); }
  }

  lemma SupplyIs(w: World)
    ensures Supply(w) == Total(w.accounts)
  {
    hide Total;
  }

  /** Over the integers, `value` has left one balance for the other and nothing else has changed. */
  ghost predicate Moved(w: World, w': World, from: Address, to: Address, value: nat) {
    && w'.code == w.code && w'.storage == w.storage
    && (from == to ==> forall a :: AccountAt(w', a) == AccountAt(w, a))
    && (from != to ==> forall a :: var x, y := AccountAt(w, a), AccountAt(w', a);
          && y.nonce == x.nonce && y.codeHash == x.codeHash && y.storageRoot == x.storageRoot
          && y.balance == x.balance - (if a == from then value else 0) + (if a == to then value else 0))
  }

  lemma TransferKeeps(w: World, from: Address, to: Address, value: uint64)
    ensures var t := Transfer(w, from, to, value); t.Some? ==> Kept(w, t.value) && t.value.code == w.code
  {
    var t := Transfer(w, from, to, value);
    if t.Some? && value != 0 && from != to {
      var f, g := AccountAt(w, from), AccountAt(w, to);
      var w1 := WithAccount(w, from, f.(balance := f.balance - value));
      SetBalance(w, from, f.(balance := f.balance - value));
      assert AccountAt(w1, to) == g;
      TwoBalances(w.accounts, from, to);
      SetBalance(w1, to, g.(balance := Add64(g.balance, value)));
    }
  }

  lemma {:induction false} RunKeeps(c: Context, gas: nat, w: World, f: Frame)
    requires Ready(c, f.pc)
    ensures var o := Run(c, gas, w, f); o.Done? ==> Kept(w, o.world) && o.world.code == w.code
    decreases gas, 1
  {
    hide Advance, OnlyBalances, Supply;
    AdvanceKeeps(c, gas, w, f);
    var m := Advance(c, gas, w, f);
    if m.Go? {
      RunKeeps(c, m.gas, m.world, m.frame);
      var o := Run(c, m.gas, m.world, m.frame);
      if o.Done? { KeptTwice(w, m.world, o.world); }
    }
  }

  lemma KeptTwice(w: World, w1: World, w2: World)
    requires Kept(w, w1) && Kept(w1, w2)
    ensures Kept(w, w2)
  {
  }

  lemma AdvanceKeeps(c: Context, gas: nat, w: World, f: Frame)
    requires Ready(c, f.pc)
    ensures var m := Advance(c, gas, w, f);
            && (m.Go? ==> Kept(w, m.world) && m.world.code == w.code)
            && (m.End? && m.outcome.Done? ==> Kept(w, m.outcome.world) && m.outcome.world.code == w.code)
    decreases gas, 0
  {
    hide LocalStep, Call, GasCost;
    if f.pc < |c.code| {
      var op := c.code[f.pc];
      if op == CALL && GAS_CALL <= gas { CallKeeps(c, gas - GAS_CALL, w, f); }
    }
  }

  lemma CallKeeps(c: Context, gas: nat, w: World, f: Frame)
    requires Ready(c, f.pc) && f.pc < |c.code| && c.code[f.pc] == CALL
    ensures var r := Call(c, gas, w, f); r.Resumed? ==> Kept(w, r.world) && r.world.code == w.code
    decreases gas, 2
  {
    hide OnlyBalances, Supply, Run, Transfer, Returned, Answered, EnsureMem, CodeAddress;
    NothingKept(w);
    if |f.stack| >= 7 {
      var to, value := CodeAddress(Top(f, 1)), CallValue(Top(f, 2));
      var off, size := ToIndex(Top(f, 3)), ToIndex(Top(f, 4));
      TransferKeeps(w, c.self, to, value);
      var t := Transfer(w, c.self, to, value);
      if t.Some? && off.Some? && size.Some? && off.value + size.value <= MAX_MEM {
        var input := EnsureMem(f.mem, off.value + size.value)[off.value..off.value + size.value];
        var c' := Enter(CodeAt(t.value, to), to, value, input, c.depth + 1);
        RunKeeps(c', gas, t.value, START);
        var o := Run(c', gas, t.value, START);
        if o.Done? { KeptTwice(w, t.value, o.world); }
      }
    }
  }

  /**
   A message moves balances but makes and burns none, touches no other account field, and stays in
   budget; code appears only by a deployment, at its derived address.
   */
  lemma ExecuteKeeps(sum: Bytes -> Hash, w: World, m: Message)
    ensures var (r, w') := Execute(sum, w, m);
            && Kept(w, w') && r.gasUsed <= m.gasLimit
            && (r.err.Some? ==> w' == w)
            && w'.code == if m.to.None? && r.err.None? then WithCode(w, CreateAddress(sum, m.from, m.nonce), m.data).code
                          else w.code
  {
    hide OnlyBalances, Run;
    if m.to.None? {
      var addr := CreateAddress(sum, m.from, m.nonce);
      TransferKeeps(w, m.from, addr, m.value);
      var t := Transfer(w, m.from, addr, m.value);
      if t.Some? { CodeKeeps(t.value, addr, m.data); KeptTwice(w, t.value, WithCode(t.value, addr, m.data)); }
    } else {
      var self := m.to.value;
      TransferKeeps(w, m.from, self, m.value);
      var t := Transfer(w, m.from, self, m.value);
      if t.Some? {
        var c := Enter(CodeAt(t.value, self), self, m.value, m.data, 0);
        RunKeeps(c, m.gasLimit, t.value, START);
        var o := Run(c, m.gasLimit, t.value, START);
        if o.Done? { KeptTwice(w, t.value, o.world); }
      }
    }
    NothingKept(w);
  }

  lemma NothingKept(w: World)
    ensures Kept(w, w)
  {
  }

  lemma CodeKeeps(w: World, a: Address, c: Bytes)
    ensures Kept(w, WithCode(w, a, c))
  {
  }

  /** Every message ends, after at most one instruction more than its gas limit. */
  lemma InstructionBound(c: Context, gasLimit: uint64, w: World)
    requires Ready(c, START.pc)
    ensures var o := Run(c, gasLimit, w, START);
            o.gas <= gasLimit && o.steps <= gasLimit + 1 <= gasLimit + gasLimit / GAS_CALL + 1
  {
  }
}
