/**
 The StackVM as it is written (vm/stackvm.go): a chain of journal scopes updated in place,
 one gas meter shared by all frames, and the interpreter loop. Every method is proved to
 compute what the copying semantics of `Vm` says.
 */
module VmExec {
  import opened Core
  import opened State
  import opened Vm

  class GasMeter {
    const limit: uint64
    var used: uint64

    ghost predicate Valid()
      reads this
    {
      used <= limit
    }

    function Left(): nat
      requires Valid()
      reads this
    {
      limit - used
    }

    constructor (limit: uint64)
      ensures Valid() && this.limit == limit && Left() == limit
    {
      this.limit := limit;
      used := 0;
    }

    /** Charges `cost`; a budget that cannot cover it is emptied. The addition may wrap. */
    method Charge(cost: uint64) returns (ok: bool)
      requires Valid()
      modifies this
      ensures Valid() && (ok <==> cost <= old(Left()))
      ensures Left() == if ok then old(Left()) - cost else 0
    {
      if Add64(used, cost) > limit || Add64(used, cost) < used {
        used := limit;
        return false;
      }
      used := Add64(used, cost);
      ok := true;
    }
  }

  // Journal scopes

  /** A map with the writes of another on top; writing the blank value clears the key. */
  function Over<K, V(==)>(below: map<K, V>, over: map<K, V>, blank: V): map<K, V> {
    map k | k in below.Keys + over.Keys && (k in over ==> over[k] != blank) :: if k in over then over[k] else below[k]
  }

  lemma OverNothing<K, V>(below: map<K, V>, blank: V)
    ensures Over(below, map[], blank) == below
  {
  }

  lemma OverTwice<K, V>(below: map<K, V>, a: map<K, V>, b: map<K, V>, blank: V)
    ensures Over(Over(below, a, blank), b, blank) == Over(below, a + b, blank)
  {
  }

  lemma OverSet<K, V>(below: map<K, V>, over: map<K, V>, k: K, v: V, blank: V)
    ensures Over(below, over[k := v], blank) ==
            if v == blank then Over(below, over, blank) - {k} else Over(below, over, blank)[k := v]
  {
  }

  lemma OneLess<K, V>(over: map<K, V>, todo: set<K>, k: K)
    requires k in todo && todo <= over.Keys
    ensures over - (todo - {k}) == (over - todo)[k := over[k]]
  {
  }

  /** The world below with a scope's writes on top. */
  function Flush(w: World, acct: map<Address, Account>, code: map<Address, Bytes>, storage: map<StorageKey, Hash>): World {
    World(w.accounts + acct, Over(w.code, code, []), Over(w.storage, storage, ZERO_HASH))
  }

  /** Flushing two scopes one after the other is flushing them merged: commit changes no view. */
  lemma FlushTwice(w: World, a: map<Address, Account>, c: map<Address, Bytes>, s: map<StorageKey, Hash>,
                   a': map<Address, Account>, c': map<Address, Bytes>, s': map<StorageKey, Hash>)
    ensures Flush(Flush(w, a, c, s), a', c', s') == Flush(w, a + a', c + c', s + s')
  {
    hide Over;
    assert w.accounts + a + a' == w.accounts + (a + a');
    OverTwice(w.code, c, c', []);
    OverTwice(w.storage, s, s', ZERO_HASH);
  }

  lemma FlushNothing(w: World)
    ensures Flush(w, map[], map[], map[]) == w
  {
  }

  /** Copying the entries of one map over another, in whatever order the iteration takes. */
  method CopyInto<K(==), V>(dst: map<K, V>, src: map<K, V>) returns (m: map<K, V>)
    ensures m == dst + src
  {
    m := dst;
    var todo := src.Keys;
    while todo != {}
      invariant todo <= src.Keys
      invariant m == dst + (src - todo)
    {
      var k :| k in todo;
      m := m[k := src[k]];
      todo := todo - {k};
    }
    assert src - {} == src;
  }

  class Scope {
    const base: StateDB?
    const parent: Scope?
    /** The scopes and the database this scope reads through to. */
    ghost const below: set<object>
    var acct: map<Address, Account>
    var code: map<Address, Bytes>
    var storage: map<StorageKey, Hash>

    ghost predicate Valid()
      reads this, below
      decreases below
    {
      && this !in below
      && (parent == null ==> base != null && below == {base})
      && (parent != null ==> parent in below && parent !in parent.below && below == parent.below + {parent} && parent.Valid())
    }

    ghost function Under(): World
      requires Valid()
      reads this, below
      decreases below, 0
    {
      if parent == null then base.View() else parent.View()
    }

    /** The world as this scope sees it. */
    ghost function View(): World
      requires Valid()
      reads this, below
      decreases below, 1
    {
      Flush(Under(), acct, code, storage)
    }

    constructor Root(base: StateDB)
      ensures Valid() && below == {base} && parent == null && this.base == base && View() == base.View()
    {
      this.base := base;
      parent := null;
      below := {base};
      acct, code, storage := map[], map[], map[];
      new;
      FlushNothing(base.View());
    }

    constructor Child(parent: Scope)
      requires parent.Valid()
      ensures Valid() && below == parent.below + {parent} && this.parent == parent && View() == parent.View()
    {
      base := null;
      this.parent := parent;
      below := parent.below + {parent};
      acct, code, storage := map[], map[], map[];
      new;
      FlushNothing(parent.View());
    }

    function GetAccount(a: Address): (r: Account)
      requires Valid()
      reads this, below
      ensures r == AccountAt(View(), a)
      decreases below
    {
      if a in acct then acct[a]
      else if parent != null then parent.GetAccount(a)
      else AccountAt(World(base.accounts, base.code, base.storage), a)
    }

    function GetCode(a: Address): (r: Bytes)
      requires Valid()
      reads this, below
      ensures r == CodeAt(View(), a)
      decreases below
    {
      if a in code then code[a]
      else if parent != null then parent.GetCode(a)
      else CodeAt(World(base.accounts, base.code, base.storage), a)
    }

    function GetStorage(a: Address, k: Hash): (r: Hash)
      requires Valid()
      reads this, below
      ensures r == WordAt(View(), a, k)
      decreases below
    {
      if (a, k) in storage then storage[(a, k)]
      else if parent != null then parent.GetStorage(a, k)
      else WordAt(World(base.accounts, base.code, base.storage), a, k)
    }

    method SetAccount(a: Address, x: Account)
      requires Valid()
      modifies this
      ensures Valid() && View() == WithAccount(old(View()), a, x)
    {
      hide Over;
      acct := acct[a := x];
      assert Under().accounts + acct == (Under().accounts + old(acct))[a := x];
    }

    method SetCode(a: Address, c: Bytes)
      requires Valid()
      modifies this
      ensures Valid() && View() == WithCode(old(View()), a, c)
    {
      hide Over;
      OverSet(Under().code, code, a, c, []);
      code := code[a := c];
    }

    method SetStorage(a: Address, k: Hash, v: Hash)
      requires Valid()
      modifies this
      ensures Valid() && View() == WithWord(old(View()), a, k, v)
    {
      hide Over;
      OverSet(Under().storage, storage, (a, k), v, ZERO_HASH);
      storage := storage[(a, k) := v];
    }

    method Transfer(from: Address, to: Address, value: uint64) returns (ok: bool)
      requires Valid()
      modifies this
      ensures Valid()
      ensures var t := Vm.Transfer(old(View()), from, to, value);
              (ok <==> t.Some?) && View() == if ok then t.value else old(View())
    {
      hide Flush;
      if value == 0 || from == to {
        return true;
      }
      var f := GetAccount(from);
      if f.balance < value {
        return false;
      }
      SetAccount(from, f.(balance := f.balance - value));
      var t := GetAccount(to);
      SetAccount(to, t.(balance := Add64(t.balance, value)));
      ok := true;
    }

    /** Hands this scope's writes one level down: the parent then sees what this scope saw. */
    method CommitToParent()
      requires Valid() && parent != null
      modifies parent
      ensures Valid() && parent.View() == old(View())
    {
      hide Over, Flush;
      ghost var w := parent.Under();
      assert Under() == parent.View() == Flush(w, parent.acct, parent.code, parent.storage);
      FlushTwice(w, parent.acct, parent.code, parent.storage, acct, code, storage);
      parent.acct := CopyInto(parent.acct, acct);
      parent.code := CopyInto(parent.code, code);
      parent.storage := CopyInto(parent.storage, storage);
      assert parent.Under() == w;
      assert parent.View() == Flush(w, parent.acct, parent.code, parent.storage);
    }

    method CommitToBase()
      requires Valid() && parent == null
      modifies base
      ensures base.View() == old(View())
    {
      hide Over;
      ghost var w := base.View();
      var todo := acct.Keys;
      assert w.accounts + (acct - todo) == w.accounts;
      while todo != {}
        invariant todo <= acct.Keys
        invariant base.View() == w.(accounts := w.accounts + (acct - todo))
      {
        var a :| a in todo;
        OneLess(acct, todo, a);
        assert w.accounts + (acct - todo)[a := acct[a]] == (w.accounts + (acct - todo))[a := acct[a]];
        base.SetAccount(a, acct[a]);
        todo := todo - {a};
      }
      assert acct - {} == acct;
      CommitCode(w);
      CommitStorage(w);
    }

    method CommitCode(ghost w: World)
      requires parent == null && base != null && base.View() == w.(accounts := w.accounts + acct)
      modifies base
      ensures base.View() == w.(accounts := w.accounts + acct, code := Over(w.code, code, []))
    {
      hide Over;
      var todo := code.Keys;
      assert code - todo == map[];
      OverNothing(w.code, []);
      while todo != {}
        invariant todo <= code.Keys
        invariant base.View() == w.(accounts := w.accounts + acct, code := Over(w.code, code - todo, []))
      {
        var a :| a in todo;
        OneLess(code, todo, a);
        OverSet(w.code, code - todo, a, code[a], []);
        base.SetCode(a, code[a]);
        todo := todo - {a};
      }
      assert code - {} == code;
    }

    method CommitStorage(ghost w: World)
      requires parent == null && base != null
      requires base.View() == w.(accounts := w.accounts + acct, code := Over(w.code, code, []))
      modifies base
      ensures base.View() == Flush(w, acct, code, storage)
    {
      hide Over;
      var todo := storage.Keys;
      assert storage - todo == map[];
      OverNothing(w.storage, ZERO_HASH);
      while todo != {}
        invariant todo <= storage.Keys
        invariant base.View() == Flush(w, acct, code, storage).(storage := Over(w.storage, storage - todo, ZERO_HASH))
      {
        var k :| k in todo;
        OneLess(storage, todo, k);
        OverSet(w.storage, storage - todo, k, storage[k], ZERO_HASH);
        base.SetStorage(k.0, k.1, storage[k]);
        todo := todo - {k};
      }
      assert storage - {} == storage;
    }
  }

  // The interpreter

  /** The jump-destination scan: JUMPDEST bytes at instruction starts only. */
  method ValidJumpdests(code: Bytes) returns (dests: set<nat>)
    ensures dests == JumpDests(code)
  {
    dests := {};
    var i := 0;
    while i < |code|
      invariant JumpDests(code) == dests + set p | p in Starts(code, i) && code[p] == JUMPDEST
      decreases |code| - i
    {
      var op := code[i];
      if op == JUMPDEST {
        dests := dests + {i};
        i := i + 1;
      } else if PUSH1 <= op <= PUSH32 {
        i := i + (op - PUSH1) as int + 2;
      } else {
        i := i + 1;
      }
    }
  }

  /** `r` and the scope are what the outcome `o` says; a failed frame's scope is left to be discarded. */
  ghost predicate Matches(o: Outcome, r: Result<Bytes, VmError>, g: GasMeter, sc: Scope)
    requires g.Valid() && sc.Valid()
    reads g, sc, sc.below
  {
    && g.Left() == o.gas
    && (r.Ok? ==> o.Done? && o.ret == r.value && o.world == sc.View())
    && (r.Err? ==> o.Failed? && o.err == r.error)
  }

  method RunFrame(g: GasMeter, sc: Scope, depth: nat, code: Bytes, self: Address, value: uint64, data: Bytes)
    returns (r: Result<Bytes, VmError>)
    requires g.Valid() && sc.Valid() && {g as object} !! sc.below
    modifies g, sc
    ensures g.Valid() && sc.Valid()
    ensures Matches(Run(Enter(code, self, value, data, depth), old(g.Left()), old(sc.View()), START), r, g, sc)
    decreases g.Left(), 1
  {
    hide Flush, Advance, JumpDests, Starts;
    var dests := ValidJumpdests(code);
    var c := Context(code, dests, self, value, data, depth);
    var f := START;
    ghost var gas, world := g.Left(), sc.View();
    ghost var n: nat := 0;
    StartIsReady(code, self, value, data, depth);
    while f.pc < |code|
      invariant g.Valid() && sc.Valid() && g.Left() <= gas && Ready(c, f.pc)
      invariant Run(c, gas, world, START) == Extend(Run(c, g.Left(), sc.View(), f), n)
      decreases g.Left()
    {
      ghost var move := Advance(c, g.Left(), sc.View(), f);
      var t := Turn(g, sc, c, f);
      if t.Off? {
        return t.result;
      }
      f := t.frame;
      n := n + move.steps;
    }
    PastTheEnd(c, g.Left(), sc.View(), f);
    r := Ok([]);
  }

  lemma PastTheEnd(c: Context, gas: nat, w: World, f: Frame)
    requires Ready(c, f.pc) && f.pc >= |c.code|
    ensures Run(c, gas, w, f) == Done([], w, gas, 0)
  {
  }

  /** One turn of the loop either goes on to the next loop head or ends the frame. */
  datatype Turned = On(frame: Frame) | Off(result: Result<Bytes, VmError>)

  method Turn(g: GasMeter, sc: Scope, c: Context, f: Frame) returns (t: Turned)
    requires g.Valid() && sc.Valid() && {g as object} !! sc.below && Ready(c, f.pc) && f.pc < |c.code|
    modifies g, sc
    ensures g.Valid() && sc.Valid()
    ensures var m := Advance(c, old(g.Left()), old(sc.View()), f);
            && (t.On? ==> m.Go? && t.frame == m.frame && g.Left() == m.gas && sc.View() == m.world)
            && (t.Off? ==> m.End? && Matches(m.outcome, t.result, g, sc))
    decreases g.Left(), 0
  {
    hide Flush, LocalStep, WorldStep, Call, GasCost, JumpDests, Starts;
    var op := c.code[f.pc];
    var ok := g.Charge(GasCost(op));
    if !ok {
      return Off(Err(OutOfGas));
    }
    if op == CALL {
      var a := OpCall(g, sc, c, f);
      return if a.Err? then Off(Err(a.error)) else On(a.value);
    }
    if op == SLOAD || op == SSTORE {
      var a := StorageOp(sc, c, f, op);
      return if a.Err? then Off(Err(a.error)) else On(a.value);
    }
    match LocalStep(c, f, op) {
      case Halt(ret) =>
        return Off(Ok(ret));
      case Fault(e) =>
        return Off(Err(e));
      case Next(f') =>
        return On(f');
    }
  }

  method StorageOp(sc: Scope, c: Context, f: Frame, op: byte) returns (r: Result<Frame, VmError>)
    requires sc.Valid() && Ready(c, f.pc) && f.pc < |c.code| && op == c.code[f.pc] && (op == SLOAD || op == SSTORE)
    modifies sc
    ensures sc.Valid()
    ensures var (s, w) := WorldStep(c, old(sc.View()), f, op);
            && (r.Ok? ==> s == Next(r.value) && sc.View() == w)
            && (r.Err? ==> s == Fault(r.error))
  {
    hide Flush;
    if op == SLOAD {
      if |f.stack| < 1 {
        return Err(StackUnderflow);
      }
      var v := sc.GetStorage(c.self, ToHash(Top(f, 0)));
      match Push(Popped(f, 1), ToWord(v)) {
        case Fault(e) => return Err(e);
        case Next(f') => return Ok(f');
      }
    }
    if |f.stack| < 2 {
      return Err(StackUnderflow);
    }
    sc.SetStorage(c.self, ToHash(Top(f, 0)), ToHash(Top(f, 1)));
    r := Ok(Popped(f, 2));
  }

  method OpCall(g: GasMeter, sc: Scope, c: Context, f: Frame) returns (r: Result<Frame, VmError>)
    requires g.Valid() && sc.Valid() && {g as object} !! sc.below
    requires Ready(c, f.pc) && f.pc < |c.code| && c.code[f.pc] == CALL
    modifies g, sc
    ensures g.Valid() && sc.Valid()
    ensures var a := Call(c, old(g.Left()), old(sc.View()), f);
            && g.Left() == a.gas
            && (r.Ok? ==> a.Resumed? && a.frame == r.value && a.world == sc.View())
            && (r.Err? ==> a.Aborted? && a.err == r.error)
    decreases g.Left(), 2
  {
    hide Flush, Run, Vm.Transfer, EnsureMem, Answered, Returned, CodeAddress;
    if |f.stack| < 7 {
      return Err(StackUnderflow);
    }
    if c.depth + 1 > MAX_CALL_DEPTH {
      return Ok(Answered(f, f.mem, 0));
    }
    var to, value := CodeAddress(Top(f, 1)), CallValue(Top(f, 2));
    var off, size := ToIndex(Top(f, 3)), ToIndex(Top(f, 4));
    if off.None? || size.None? || off.value + size.value > MAX_MEM {
      return Err(MemoryLimit);
    }
    var mem := EnsureMem(f.mem, off.value + size.value);
    var input := mem[off.value..off.value + size.value];
    var child := new Scope.Child(sc);
    var ok := child.Transfer(c.self, to, value);
    if !ok {
      return Ok(Answered(f, mem, 0));
    }
    var ret := RunFrame(g, child, c.depth + 1, child.GetCode(to), to, value, input);
    if ret.Err? {
      if ret.error == OutOfGas {
        return Err(OutOfGas);
      }
      return Ok(Answered(f, mem, 0));
    }
    child.CommitToParent();
    match Returned(mem, ToIndex(Top(f, 5)), ToIndex(Top(f, 6)), ret.value) {
      case None => return Err(MemoryLimit);
      case Some(mem') => return Ok(Answered(f, mem', 1));
    }
  }

  // Messages

  /** Applies a message to the database: nothing of it remains unless it succeeds. */
  method ExecuteMessage(sum: Bytes -> Hash, st: StateDB, m: Message) returns (r: Receipt)
    modifies st
    ensures (r, st.View()) == Execute(sum, old(st.View()), m)
  {
    hide Flush, Run, Vm.Transfer;
    var g := new GasMeter(m.gasLimit);
    var root := new Scope.Root(st);
    if m.to.None? {
      r := CreateContract(sum, g, root, st, m);
      return;
    }
    var self := m.to.value;
    var ok := root.Transfer(m.from, self, m.value);
    if !ok {
      return Failure(InsufficientFunds, g.used);
    }
    var ret := RunFrame(g, root, 0, root.GetCode(self), self, m.value, m.data);
    if ret.Err? {
      return Failure(ret.error, if ret.error == OutOfGas then g.limit else g.used);
    }
    root.CommitToBase();
    r := Receipt(None, g.used, ret.value, None);
  }

  method CreateContract(sum: Bytes -> Hash, g: GasMeter, root: Scope, st: StateDB, m: Message) returns (r: Receipt)
    requires root.Valid() && root.parent == null && root.base == st && g.Valid() && g.limit == m.gasLimit && g.used == 0
    requires root.View() == st.View() && {g as object} !! {st as object, root}
    modifies g, root, st
    ensures (r, st.View()) == Create(sum, old(st.View()), m)
  {
    hide Flush, Vm.Transfer;
    var ok := g.Charge(GAS_CREATE);
    if !ok {
      return Failure(OutOfGas, g.limit);
    }
    var addr := CreateAddress(sum, m.from, m.nonce);
    ok := root.Transfer(m.from, addr, m.value);
    if !ok {
      return Failure(InsufficientFunds, g.used);
    }
    root.SetCode(addr, m.data);
    root.CommitToBase();
    r := Receipt(None, g.used, [], Some(addr));
  }
}
