/**
 Messages and calls to contracts (vm/stackvm.go): as whom, with what input and on what state a contract runs, what
 its caller gets back, and whose storage can change.
 */
module Contracts {
  import opened Core
  import opened State
  import opened Vm
  import opened VmLaws
  import opened Ledger
  import opened Expressions
  import opened Programs

  // Contracts that are programs

  /** A program that fits a stack of its own, at the start of the code. */
  predicate Deployable(p: Stmt) {
    Sound(p) && Space(p) <= MAX_STACK && CodeSize(p) <= 0xFFFF_FFFF
  }

  /** A frame ends as the program does; one that comes to the end of its code returns nothing. */
  predicate TurnsOut(o: Outcome, r: Ending) {
    match r
    case Went(st, g) => o.Done? && o.ret == [] && o.world == st.world && o.gas == g
    case Ended(ret, w, g) => o.Done? && o.ret == ret && o.world == w && o.gas == g
    case Starved => o.Failed? && o.err == OutOfGas && o.gas == 0
  }

  lemma NothingHeld()
    ensures Holds([], map[])
  {
    hide ToHash;
    forall i: nat
      ensures Spells([], 32 * i, VarAt(map[], i))
    {
      ZeroSpelt();
    }
  }

  /** A frame whose code is that of a program runs the program, as its own address, with its own value and input. */
  lemma FramesRunPrograms(self: Address, value: uint64, data: Bytes, depth: nat, gas: nat, w: World, p: Stmt)
    requires Deployable(p) && |data| < TT256
    ensures TurnsOut(Run(Enter(Code(p, 0), self, value, data, depth), gas, w, START), Exec(p, Env(self, value, data), Store(map[], w), gas))
  {
    hide Code, Exec, Space, CodeSize, Sound, Holds, Run, JumpDests;
    var c, st := Enter(Code(p, 0), self, value, data, depth), Store(map[], w);
    StartIsReady(Code(p, 0), self, value, data, depth);
    NothingHeld();
    assert c.code[0..|c.code|] == c.code;
    var h, n := ProgramsRun(c, gas, START, p, st);
    var r := Exec(p, EnvOf(c), st, gas);
    if r.Went? { PastTheEnd(c, r.gas, r.st.world, h); }
  }

  /** What a message to a contract comes to. */
  predicate Answers(receipt: Receipt, w': World, r: Ending, gasLimit: uint64, w: World) {
    match r
    case Went(st, g) => g <= gasLimit && receipt == Receipt(None, gasLimit - g, [], None) && w' == st.world
    case Ended(ret, w1, g) => g <= gasLimit && receipt == Receipt(None, gasLimit - g, ret, None) && w' == w1
    case Starved => receipt == Failure(OutOfGas, gasLimit) && w' == w
  }

  /** A message to a contract moves the value and runs the contract's program as the contract, on the message's value and data. */
  lemma MessagesRunPrograms(sum: Bytes -> Hash, w: World, m: Message, p: Stmt)
    requires Deployable(p) && m.to.Some? && CodeAt(w, m.to.value) == Code(p, 0) && |m.data| < TT256
    ensures var t, (receipt, w') := Transfer(w, m.from, m.to.value, m.value), Execute(sum, w, m);
            && (t.None? ==> receipt == Failure(InsufficientFunds, 0) && w' == w)
            && (t.Some? ==>
                  Answers(receipt, w', Exec(p, Env(m.to.value, m.value, m.data), Store(map[], t.value), m.gasLimit), m.gasLimit, w))
  {
    hide Code, Exec, Run, Transfer, JumpDests;
    var t := Transfer(w, m.from, m.to.value, m.value);
    TransferLeavesCode(w, m.from, m.to.value, m.value);
    if t.Some? { FramesRunPrograms(m.to.value, m.value, m.data, 0, m.gasLimit, t.value, p); }
  }

  // Calls

  /** The bytes of memory from `off` on, zeros past its end. */
  function Arguments(mem: Bytes, off: nat, size: nat): Bytes {
    seq(size, j requires 0 <= j < size => if off + j < |mem| then mem[off + j] else 0)
  }

  function WorldOf(r: Ending): World
    requires !r.Starved?
  {
    if r.Went? then r.st.world else r.world
  }

  function ReturnOf(r: Ending): Bytes
    requires r.Ended? || r.Went?
  {
    if r.Ended? then r.ret else []
  }

  /** How far memory reaches after a call with these ranges. */
  function Reach(mem: Bytes, off: nat, size: nat, retOff: nat, retSize: nat): nat {
    Max(Max(|mem|, off + size), if retSize == 0 then 0 else retOff + retSize)
  }

  lemma ReturnWritten(mem: Bytes, off: nat, size: nat, retOff: nat, retSize: nat, ret: Bytes) returns (m: Bytes)
    requires off + size <= MAX_MEM && retOff + retSize <= MAX_MEM
    ensures Returned(EnsureMem(mem, off + size), Some(retOff), Some(retSize), ret) == Some(m)
    ensures WrittenAt(mem, retOff, ret[..if retSize < |ret| then retSize else |ret|], m, Reach(mem, off, size, retOff, retSize))
  {
    m := Returned(EnsureMem(mem, off + size), Some(retOff), Some(retSize), ret).value;
  }

  lemma ArgumentsRead(mem: Bytes, off: nat, size: nat)
    ensures EnsureMem(mem, off + size)[off..off + size] == Arguments(mem, off, size)
  {
  }

  /** The seven arguments of a CALL, the first on top. The gas is ignored, and so are the upper bytes of the address. */
  datatype Seven = Seven(gas: Word, addr: Word, value: Word, off: Word, size: Word, retOff: Word, retSize: Word)

  function To(x: Seven): Address { ToHash(x.addr)[12..] }

  /** A value that is no 64-bit number counts as none. */
  function Sending(x: Seven): uint64 { if x.value < 0x1_0000_0000_0000_0000 then x.value else 0 }

  ghost predicate Asked(c: Context, f: Frame, s: seq<Word>, x: Seven) {
    At(c, f, CALL) && f.stack == s + [x.retSize, x.retOff, x.size, x.off, x.value, x.addr, x.gas]
  }

  /** A call that gets as far as the callee's code. */
  ghost predicate Entering(c: Context, w: World, f: Frame, s: seq<Word>, x: Seven) {
    Asked(c, f, s, x) && c.depth < 1024 && x.off + x.size <= MAX_MEM && Transfer(w, c.self, To(x), Sending(x)).Some?
  }

  /** One whose return range is in order as well. */
  ghost predicate Calling(c: Context, w: World, f: Frame, s: seq<Word>, x: Seven) {
    Entering(c, w, f, s, x) && x.retOff + x.retSize <= MAX_MEM
  }

  lemma CallEnters(c: Context, gas: nat, w: World, f: Frame, s: seq<Word>, x: Seven)
    requires Entering(c, w, f, s, x)
    ensures var w1, mem := Transfer(w, c.self, To(x), Sending(x)).value, EnsureMem(f.mem, x.off + x.size);
            var o := Run(Enter(CodeAt(w1, To(x)), To(x), Sending(x), Arguments(f.mem, x.off, x.size), c.depth + 1), gas, w1, START);
            && (o.Failed? && o.err == OutOfGas ==> Call(c, gas, w, f) == Aborted(OutOfGas, o.gas, o.steps))
            && (o.Failed? && o.err != OutOfGas ==> Call(c, gas, w, f) == Resumed(Frame(f.pc + 1, s + [0], mem), w, o.gas, o.steps))
            && (o.Done? && Returned(mem, Some(x.retOff), Some(x.retSize), o.ret).Some? ==>
                  Call(c, gas, w, f) == Resumed(Frame(f.pc + 1, s + [1], Returned(mem, Some(x.retOff), Some(x.retSize), o.ret).value),
                                                o.world, o.gas, o.steps))
            && (o.Done? && x.retOff + x.retSize > MAX_MEM ==> Call(c, gas, w, f) == Aborted(MemoryLimit, o.gas, o.steps))
  {
    hide ToHash, ToWord, BigEndian, FromBigEndian, Alu, Run, JumpDests, EnsureMem, Splice, Transfer;
    VmLaws.Arguments(f, s, x.retSize, x.retOff, x.size, x.off, x.value, x.addr, x.gas);
    ArgumentsRead(f.mem, x.off, x.size);
  }

  lemma CallTurn(c: Context, gas: nat, w: World, f: Frame)
    requires At(c, f, CALL) && gas >= 700
    ensures var r := Call(c, gas - 700, w, f);
            && (r.Resumed? ==> Reaches(c, gas, w, f, r.gas, r.world, r.frame, r.steps + 1))
            && (r.Aborted? ==> Stops(c, gas, w, f, r.err, r.gas))
  {
    hide Call, LocalStep, WorldStep;
    var r := Call(c, gas - 700, w, f);
    assert r.Resumed? ==> Advance(c, gas, w, f) == Go(r.frame, r.world, r.gas, r.steps + 1);
    assert r.Aborted? ==> Advance(c, gas, w, f) == End(Failed(r.err, r.gas, r.steps + 1));
  }

  /**
   A call to a contract moves the value from the running contract and runs the callee's program as the callee, on the
   value and the argument bytes; the caller goes on with 1 on the stack, the callee's world and gas, and as much of
   what was returned as its return range has room for. If the program runs dry, so does the caller.
   */
  lemma CallsRunPrograms(c: Context, gas: nat, w: World, f: Frame, s: seq<Word>, x: Seven, p: Stmt) returns (mem: Bytes, n: nat)
    requires Calling(c, w, f, s, x) && gas >= 700 && Deployable(p) && CodeAt(w, To(x)) == Code(p, 0)
    ensures var st := Store(map[], Transfer(w, c.self, To(x), Sending(x)).value);
            var r := Exec(p, Env(To(x), Sending(x), Arguments(f.mem, x.off, x.size)), st, gas - 700);
            && (r.Starved? ==> Stops(c, gas, w, f, OutOfGas, 0))
            && (!r.Starved? ==>
                  && Reaches(c, gas, w, f, r.gas, WorldOf(r), Frame(f.pc + 1, s + [1], mem), n)
                  && var ret := ReturnOf(r);
                     WrittenAt(f.mem, x.retOff, ret[..if x.retSize < |ret| then x.retSize else |ret|], mem,
                               Reach(f.mem, x.off, x.size, x.retOff, x.retSize)))
  {
    hide Code, Exec, Run, Transfer, JumpDests, Returned, EnsureMem, Call, Reaches, Stops, WrittenAt, Sound, Space, CodeSize, ToHash;
    var w1, args := Transfer(w, c.self, To(x), Sending(x)).value, Arguments(f.mem, x.off, x.size);
    TransferLeavesCode(w, c.self, To(x), Sending(x));
    CallEnters(c, gas - 700, w, f, s, x);
    FramesRunPrograms(To(x), Sending(x), args, c.depth + 1, gas - 700, w1, p);
    CallTurn(c, gas, w, f);
    var r := Exec(p, Env(To(x), Sending(x), args), Store(map[], w1), gas - 700);
    var call := Call(c, gas - 700, w, f);
    if r.Starved? {
      mem, n := [], 0;
    } else {
      mem := ReturnWritten(f.mem, x.off, x.size, x.retOff, x.retSize, ReturnOf(r));
      n := call.steps + 1;
    }
  }

  /** A callee that fails is undone, value and all: the caller goes on with 0 on the stack and the gas that was left. */
  lemma CallsFail(c: Context, gas: nat, w: World, f: Frame, s: seq<Word>, x: Seven, e: VmError, left: nat) returns (n: nat)
    requires Entering(c, w, f, s, x) && gas >= 700 && e != OutOfGas
    requires var w1 := Transfer(w, c.self, To(x), Sending(x)).value;
             Stops(Enter(CodeAt(w1, To(x)), To(x), Sending(x), Arguments(f.mem, x.off, x.size), c.depth + 1), gas - 700, w1, START, e, left)
    ensures Reaches(c, gas, w, f, left, w, Frame(f.pc + 1, s + [0], EnsureMem(f.mem, x.off + x.size)), n)
  {
    hide Run, Transfer, JumpDests, Returned, EnsureMem, Call, Reaches, ToHash;
    CallEnters(c, gas - 700, w, f, s, x);
    CallTurn(c, gas, w, f);
    n := Call(c, gas - 700, w, f).steps + 1;
  }

  /** A return range beyond the limit ends the caller, once the callee has ended well, with the gas the callee left. */
  lemma CallsOverrun(c: Context, gas: nat, w: World, f: Frame, s: seq<Word>, x: Seven)
    requires Entering(c, w, f, s, x) && gas >= 700 && x.retOff + x.retSize > MAX_MEM
    ensures var w1 := Transfer(w, c.self, To(x), Sending(x)).value;
            var o := Run(Enter(CodeAt(w1, To(x)), To(x), Sending(x), Arguments(f.mem, x.off, x.size), c.depth + 1), gas - 700, w1, START);
            o.Done? ==> Stops(c, gas, w, f, MemoryLimit, o.gas)
  {
    hide Run, Transfer, JumpDests, Returned, EnsureMem, Call, Stops, ToHash;
    CallEnters(c, gas - 700, w, f, s, x);
    CallTurn(c, gas, w, f);
  }

  /**
   A call at the depth limit, or of a value that is not there, is answered with 0 and nothing happens; one with bad
   argument bytes ends the caller.
   */
  lemma CallsRefused(c: Context, gas: nat, w: World, f: Frame, s: seq<Word>, x: Seven)
    requires Asked(c, f, s, x) && gas >= 700
    ensures c.depth >= 1024 ==> Reaches(c, gas, w, f, gas - 700, w, Frame(f.pc + 1, s + [0], f.mem), 1)
    ensures c.depth < 1024 && x.off + x.size > MAX_MEM ==> Stops(c, gas, w, f, MemoryLimit, gas - 700)
    ensures c.depth < 1024 && x.off + x.size <= MAX_MEM && Transfer(w, c.self, To(x), Sending(x)).None? ==>
              Reaches(c, gas, w, f, gas - 700, w, Frame(f.pc + 1, s + [0], EnsureMem(f.mem, x.off + x.size)), 1)
  {
    hide ToHash, ToWord, Alu, Run, JumpDests, Returned, EnsureMem, Transfer, Reaches, Stops;
    VmLaws.Arguments(f, s, x.retSize, x.retOff, x.size, x.off, x.value, x.addr, x.gas);
    CallTurn(c, gas, w, f);
  }

  /** A message whose code fails changes nothing and uses the gas spent up to the failure, or all of it when it ran out. */
  lemma MessagesFail(sum: Bytes -> Hash, w: World, m: Message, w1: World, e: VmError, left: nat)
    requires m.to.Some? && Transfer(w, m.from, m.to.value, m.value) == Some(w1) && left <= m.gasLimit
    requires Stops(Enter(CodeAt(w1, m.to.value), m.to.value, m.value, m.data, 0), m.gasLimit, w1, START, e, left)
    ensures Execute(sum, w, m) == (Failure(e, if e == OutOfGas then m.gasLimit else m.gasLimit - left), w)
  {
    hide Run, Transfer, JumpDests;
  }

  // Whose storage can change

  /** No instruction of the code is a CALL. */
  ghost predicate NeverCalls(code: Bytes) {
    forall i | i in Starts(code, 0) :: code[i] != CALL
  }

  ghost predicate OnlySlotsOf(a: Address, w: World, w': World) {
    && w'.accounts == w.accounts && w'.code == w.code
    && forall b, k | b != a :: WordAt(w', b, k) == WordAt(w, b, k)
  }

  lemma TurnsOwnSlots(c: Context, gas: nat, w: World, f: Frame)
    requires Ready(c, f.pc) && NeverCalls(c.code)
    ensures var m := Advance(c, gas, w, f);
            && (m.Go? ==> OnlySlotsOf(c.self, w, m.world))
            && (m.End? && m.outcome.Done? ==> OnlySlotsOf(c.self, w, m.outcome.world))
  {
    hide LocalStep, Call, Starts, GasCost, ToHash;
  }

  /** A frame that never calls changes nothing but the storage of its own address. */
  lemma {:induction false} OwnSlotsOnly(c: Context, gas: nat, w: World, f: Frame)
    requires Ready(c, f.pc) && NeverCalls(c.code)
    ensures var o := Run(c, gas, w, f); o.Done? ==> OnlySlotsOf(c.self, w, o.world)
    decreases gas
  {
    hide Advance, NeverCalls;
    TurnsOwnSlots(c, gas, w, f);
    var m := Advance(c, gas, w, f);
    if m.Go? { OwnSlotsOnly(c, m.gas, m.world, m.frame); }
  }

  lemma TransferLeavesSlots(w: World, from: Address, to: Address, value: uint64)
    ensures var t := Transfer(w, from, to, value); t.Some? ==> t.value.storage == w.storage && t.value.code == w.code
  {
  }

  /** A call to a contract that never calls leaves the storage of every other account, the caller's among them, as it was. */
  lemma CalleeOwnSlots(c: Context, gas: nat, w: World, f: Frame, s: seq<Word>, x: Seven)
    requires Calling(c, w, f, s, x) && NeverCalls(CodeAt(w, To(x)))
    ensures var r := Call(c, gas, w, f);
            r.Resumed? ==> r.world.code == w.code && forall b, k | b != To(x) :: WordAt(r.world, b, k) == WordAt(w, b, k)
  {
    hide Run, Transfer, JumpDests, Returned, EnsureMem, Call, NeverCalls, ToHash;
    var w1, args := Transfer(w, c.self, To(x), Sending(x)).value, Arguments(f.mem, x.off, x.size);
    TransferLeavesSlots(w, c.self, To(x), Sending(x));
    CallEnters(c, gas, w, f, s, x);
    var d := Enter(CodeAt(w1, To(x)), To(x), Sending(x), args, c.depth + 1);
    StartIsReady(CodeAt(w1, To(x)), To(x), Sending(x), args, c.depth + 1);
    OwnSlotsOnly(d, gas, w1, START);
    var o := Run(d, gas, w1, START);
    if o.Done? { var m := ReturnWritten(f.mem, x.off, x.size, x.retOff, x.retSize, o.ret); }
  }

  /** A message to a contract that never calls changes no storage but the contract's. */
  lemma MessageOwnSlots(sum: Bytes -> Hash, w: World, m: Message)
    requires m.to.Some? && NeverCalls(CodeAt(w, m.to.value))
    ensures var w' := Execute(sum, w, m).1;
            w'.code == w.code && forall b, k | b != m.to.value :: WordAt(w', b, k) == WordAt(w, b, k)
  {
    hide Run, Transfer, JumpDests, NeverCalls;
    var t := Transfer(w, m.from, m.to.value, m.value);
    TransferLeavesSlots(w, m.from, m.to.value, m.value);
    if t.Some? {
      var d := Enter(CodeAt(t.value, m.to.value), m.to.value, m.value, m.data, 0);
      StartIsReady(CodeAt(t.value, m.to.value), m.to.value, m.value, m.data, 0);
      OwnSlotsOnly(d, m.gasLimit, t.value, START);
    }
  }

  /** The storage of an account without code, other than the running one, is as it was. */
  ghost predicate BareStay(self: Address, w: World, w': World) {
    w'.code == w.code && forall b, k | b != self && CodeAt(w, b) == [] :: WordAt(w', b, k) == WordAt(w, b, k)
  }

  /** Whatever a frame calls, at any depth, no account without code but its own ever has its storage changed. */
  lemma {:induction false} BareSlotsStay(c: Context, gas: nat, w: World, f: Frame)
    requires Ready(c, f.pc)
    ensures var o := Run(c, gas, w, f); o.Done? ==> BareStay(c.self, w, o.world)
    decreases gas, 1
  {
    hide Advance;
    BareTurns(c, gas, w, f);
    var m := Advance(c, gas, w, f);
    if m.Go? { BareSlotsStay(c, m.gas, m.world, m.frame); }
  }

  lemma BareTurns(c: Context, gas: nat, w: World, f: Frame)
    requires Ready(c, f.pc)
    ensures var m := Advance(c, gas, w, f);
            && (m.Go? ==> BareStay(c.self, w, m.world))
            && (m.End? && m.outcome.Done? ==> BareStay(c.self, w, m.outcome.world))
    decreases gas, 0
  {
    hide LocalStep, Call, GasCost, ToHash;
    if f.pc < |c.code| && c.code[f.pc] == CALL && GAS_CALL <= gas { BareCalls(c, gas - GAS_CALL, w, f); }
  }

  lemma BareCalls(c: Context, gas: nat, w: World, f: Frame)
    requires Ready(c, f.pc) && f.pc < |c.code| && c.code[f.pc] == CALL
    ensures var r := Call(c, gas, w, f); r.Resumed? ==> BareStay(c.self, w, r.world)
    decreases gas, 2
  {
    hide Run, Transfer, Returned, Answered, EnsureMem, CodeAddress;
    if |f.stack| >= 7 {
      var to, value := CodeAddress(Top(f, 1)), CallValue(Top(f, 2));
      var off, size := ToIndex(Top(f, 3)), ToIndex(Top(f, 4));
      TransferLeavesSlots(w, c.self, to, value);
      var t := Transfer(w, c.self, to, value);
      if t.Some? && off.Some? && size.Some? && off.value + size.value <= MAX_MEM {
        var input := EnsureMem(f.mem, off.value + size.value)[off.value..off.value + size.value];
        var d := Enter(CodeAt(t.value, to), to, value, input, c.depth + 1);
        BareSlotsStay(d, gas, t.value, START);
        if CodeAt(t.value, to) == [] { EmptyRuns(to, value, input, c.depth + 1, gas, t.value); }
      }
    }
  }

  // A contract that returns its input

  function Copy(n: nat): Stmt {
    if n == 0 then Drop(Const(0)) else Seq(Copy(n - 1), Set(n - 1, Input(Const((32 * (n - 1)) % TT256))))
  }

  /** Returns the `n` words it is called with. */
  function Echo(n: nat): Stmt { Seq(Copy(n), Give(0, n)) }

  lemma {:induction false} CopyIs(n: nat)
    requires n <= MAX_VARS
    ensures Sound(Copy(n)) && Space(Copy(n)) <= 2 && CodeSize(Copy(n)) == 34 + 68 * n
  {
    hide ToHash, PushNat, Push32, Value, Price, Exec, Code;
    if n > 0 {
      CopyIs(n - 1);
      InputSizes((32 * (n - 1)) % TT256);
    } else {
      ConstSizes(0);
    }
  }

  lemma ConstSizes(v: Word)
    ensures |Compiled(Const(v))| == 33 && Room(Const(v)) == 1 && Legal(Const(v))
  {
    PushSize(v);
  }

  lemma InputSizes(v: Word)
    ensures |Compiled(Input(Const(v)))| == 34 && Room(Input(Const(v))) == 1 && Legal(Input(Const(v))) && Price(Input(Const(v))) == 6
  {
    PushSize(v);
  }

  lemma CopyStep(i: nat, k: Env, st: Store, gas: nat)
    requires i < MAX_VARS && Sound(Set(i, Input(Const(32 * i))))
    ensures Exec(Set(i, Input(Const(32 * i))), k, st, gas) ==
            if gas < 12 then Starved else Went(Assigned(st, i, InputWord(k.data, 32 * i)), gas - 12)
  {
    hide InputWord;
    var e := Const(32 * i);
    assert Value(e, k, st.world, st.vars) == 32 * i && Price(e) == 3;
    assert Value(Input(e), k, st.world, st.vars) == InputWord(k.data, 32 * i) && Price(Input(e)) == 6;
  }

  lemma CopyMore(n: nat)
    requires 0 < n <= MAX_VARS
    ensures Copy(n) == Seq(Copy(n - 1), Set(n - 1, Input(Const(32 * (n - 1)))))
    ensures Sound(Copy(n)) ==> Sound(Copy(n - 1)) && Sound(Set(n - 1, Input(Const(32 * (n - 1)))))
  {
    assert (32 * (n - 1)) % TT256 == 32 * (n - 1);
    hide Legal;
  }

  lemma {:induction false} CopyRuns(n: nat, k: Env, st: Store, gas: nat)
    requires n <= MAX_VARS && gas >= 5 + 12 * n && Sound(Copy(n))
    ensures var r := Exec(Copy(n), k, st, gas);
            && r.Went? && r.gas == gas - 5 - 12 * n && r.st.world == st.world
            && forall i | 0 <= i < n :: VarAt(r.st.vars, i) == InputWord(k.data, 32 * i)
    decreases n
  {
    hide InputWord, Exec, Value, Sound, Copy, Code, CodeSize, Space;
    if n > 0 {
      CopyMore(n);
      var x := Set(n - 1, Input(Const(32 * (n - 1))));
      CopyRuns(n - 1, k, st, gas);
      SeqIs(Copy(n - 1), x, k, st, gas, 0);
      var r1 := Exec(Copy(n - 1), k, st, gas);
      CopyStep(n - 1, k, r1.st, r1.gas);
    } else {
      assert Copy(0) == Drop(Const(0)) by { CopyNothing(); }
      DropNothing(k, st, gas);
    }
  }

  lemma CopyNothing()
    ensures Copy(0) == Drop(Const(0))
  {
  }

  lemma DropNothing(k: Env, st: Store, gas: nat)
    requires gas >= 5
    ensures Exec(Drop(Const(0)), k, st, gas) == Went(st, gas - 5)
  {
  }

  lemma {:induction false} WordsOfInput(vars: Vars, data: Bytes, i: nat, n: nat)
    requires i <= n <= MAX_VARS && |data| == 32 * n && forall j | i <= j < n :: VarAt(vars, j) == InputWord(data, 32 * j)
    ensures Words(vars, i, n) == data[32 * i..]
    decreases n - i
  {
    hide ToHash, ToWord, InputWord;
    if i < n {
      WordsOfInput(vars, data, i + 1, n);
      WordOfInput(data, 32 * i);
      assert data[32 * i..] == data[32 * i..32 * i + 32] + data[32 * (i + 1)..];
    }
  }

  lemma WordOfInput(data: Bytes, i: nat)
    requires i + 32 <= |data| && i <= 0xFFFF_FFFF
    ensures ToHash(InputWord(data, i)) == data[i..i + 32]
  {
    hide ToHash, ToWord;
    HashOfWord(Window(data, i, 32));
  }

  lemma GiveIs(n: nat, k: Env, st: Store, gas: nat)
    requires n <= MAX_VARS && gas >= 6
    ensures Sound(Give(0, n)) && Exec(Give(0, n), k, st, gas) == Ended(Words(st.vars, 0, n), st.world, gas - 6)
    ensures CodeSize(Give(0, n)) == 67 && Space(Give(0, n)) == 2
  {
    hide Words;
  }

  /** The echo contract returns whatever words it is given, changes nothing, and takes 12 units of gas a word and 11 more. */
  lemma EchoReturns(n: nat, k: Env, w: World, gas: nat)
    requires n <= MAX_VARS && |k.data| == 32 * n && gas >= 11 + 12 * n
    ensures Deployable(Echo(n)) && Exec(Echo(n), k, Store(map[], w), gas) == Ended(k.data, w, gas - 11 - 12 * n)
  {
    hide Exec, Copy, Words, Value, Code, InputWord, Sound, Space, CodeSize;
    CopyIs(n);
    var st := Store(map[], w);
    CopyRuns(n, k, st, gas);
    var r1 := Exec(Copy(n), k, st, gas);
    GiveIs(n, k, r1.st, r1.gas);
    SoundSeq(Copy(n), Give(0, n));
    SeqIs(Copy(n), Give(0, n), k, st, gas, 0);
    WordsOfInput(r1.st.vars, k.data, 0, n);
    assert k.data[32 * 0..] == k.data;
  }

  lemma SoundSeq(a: Stmt, b: Stmt)
    ensures Sound(Seq(a, b)) <==> Sound(a) && Sound(b)
    ensures Space(Seq(a, b)) == Max(Space(a), Space(b)) && CodeSize(Seq(a, b)) == CodeSize(a) + CodeSize(b)
  {
    hide Compiled, Room, Legal;
  }

  /**
   A call of an echo contract puts the argument bytes into the return range, as many as it has room for, and changes no
   other byte of memory, no storage, and no balance but by the value sent.
   */
  lemma EchoedBack(c: Context, gas: nat, w: World, f: Frame, s: seq<Word>, x: Seven, n: nat) returns (mem: Bytes, m: nat)
    requires Calling(c, w, f, s, x) && n <= MAX_VARS && x.size == 32 * n && CodeAt(w, To(x)) == Code(Echo(n), 0)
    requires gas >= 711 + 12 * n
    ensures Reaches(c, gas, w, f, gas - 711 - 12 * n, Transfer(w, c.self, To(x), Sending(x)).value, Frame(f.pc + 1, s + [1], mem), m)
    ensures WrittenAt(f.mem, x.retOff, Arguments(f.mem, x.off, if x.retSize < 32 * n then x.retSize else 32 * n), mem,
                      Reach(f.mem, x.off, 32 * n, x.retOff, x.retSize))
  {
    hide Reaches, WrittenAt, Exec, Code, Transfer, Echo, Deployable, At, ToHash;
    var args := Arguments(f.mem, x.off, 32 * n);
    EchoReturns(n, Env(To(x), Sending(x), args), Transfer(w, c.self, To(x), Sending(x)).value, gas - 700);
    mem, m := CallsRunPrograms(c, gas, w, f, s, x, Echo(n));
    var k := if x.retSize < 32 * n then x.retSize else 32 * n;
    assert args[..k] == Arguments(f.mem, x.off, k);
  }

  // Deployments

  /** Unless two of the strings hashed share their last 20 bytes, deployments have the same address only for the same sender and nonce. */
  lemma DeploymentsApart(sum: Bytes -> Hash, a: Address, n: uint64, b: Address, m: uint64)
    requires var x, y := a + BigEndian(n, 8), b + BigEndian(m, 8); sum(x)[12..] == sum(y)[12..] ==> x == y
    ensures CreateAddress(sum, a, n) == CreateAddress(sum, b, m) <==> a == b && n == m
  {
    hide BigEndian, FromBigEndian;
    var x, y := a + BigEndian(n, 8), b + BigEndian(m, 8);
    if x == y {
      assert a == x[..20] && b == y[..20] && BigEndian(n, 8) == x[20..] && BigEndian(m, 8) == y[20..];
      WordWidth();
      BigEndianRoundTrip(n, 8);
      BigEndianRoundTrip(m, 8);
    }
  }

  /** A deployment that is paid for places the data as code at the new address, with the value, and costs 32000 units of gas. */
  lemma Deploys(sum: Bytes -> Hash, w: World, m: Message)
    requires m.to.None?
    ensures var (receipt, w') := Execute(sum, w, m);
            var a, t := CreateAddress(sum, m.from, m.nonce), Transfer(w, m.from, CreateAddress(sum, m.from, m.nonce), m.value);
            && (m.gasLimit < 32000 ==> receipt == Failure(OutOfGas, m.gasLimit) && w' == w)
            && (m.gasLimit >= 32000 && t.None? ==> receipt == Failure(InsufficientFunds, 32000) && w' == w)
            && (m.gasLimit >= 32000 && t.Some? ==>
                  && receipt == Receipt(None, 32000, [], Some(a)) && w'.accounts == t.value.accounts && w'.storage == w.storage
                  && forall b :: CodeAt(w', b) == if b == a then m.data else CodeAt(w, b))
  {
    TransferLeavesSlots(w, m.from, CreateAddress(sum, m.from, m.nonce), m.value);
    hide Transfer, CreateAddress;
  }
}
