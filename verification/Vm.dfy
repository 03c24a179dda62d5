/**
 The StackVM (vm/stackvm.go) as a semantics that copies: a nested CALL runs on a copy of
 the whole world, and the copy replaces the caller's world only when the call succeeds.
 `gas` is always the gas that remains of the one budget all frames share.
 */
module Vm {
  import opened Core
  import opened State

  const TT256: int := 0x1_0000000000000000_0000000000000000_0000000000000000_0000000000000000
  type Word = w: int | 0 <= w < 0x1_0000000000000000_0000000000000000_0000000000000000_0000000000000000

  const MAX_STACK: int := 1024
  const MAX_CALL_DEPTH: int := 1024
  const MAX_MEM: int := 0x1_0000
  const GAS_CREATE: int := 32000
  const GAS_CALL: int := 700

  datatype VmError =
    OutOfGas | StackUnderflow | StackOverflow | InvalidJump | InvalidOpcode | MemoryLimit | InsufficientFunds

  const STOP: byte := 0x00
  const ADD: byte := 0x01
  const MUL: byte := 0x02
  const SUB: byte := 0x03
  const DIV: byte := 0x04
  const LT: byte := 0x10
  const GT: byte := 0x11
  const EQ: byte := 0x14
  const ISZERO: byte := 0x15
  const CALLVALUE: byte := 0x34
  const CALLDATALOAD: byte := 0x35
  const CALLDATASIZE: byte := 0x36
  const POP: byte := 0x50
  const MLOAD: byte := 0x51
  const MSTORE: byte := 0x52
  const SLOAD: byte := 0x54
  const SSTORE: byte := 0x55
  const JUMP: byte := 0x56
  const JUMPI: byte := 0x57
  const JUMPDEST: byte := 0x5b
  const PUSH1: byte := 0x60
  const PUSH32: byte := 0x7f
  const DUP1: byte := 0x80
  const SWAP1: byte := 0x90
  const CALL: byte := 0xf1
  const RETURN: byte := 0xf3

  function GasCost(op: byte): (cost: nat)
    ensures cost <= 5000 && (op == CALL ==> cost == GAS_CALL)
  {
    if op == STOP || op == RETURN then 0
    else if op == ADD || op == SUB then 3
    else if op == MUL || op == DIV then 5
    else if op == LT || op == GT || op == EQ || op == ISZERO then 3
    else if op == CALLVALUE || op == CALLDATASIZE then 2
    else if op == CALLDATALOAD then 3
    else if op == POP then 2
    else if op == MLOAD || op == MSTORE then 3
    else if op == SLOAD then 200
    else if op == SSTORE then 5000
    else if op == JUMP then 8
    else if op == JUMPI then 10
    else if op == JUMPDEST then 1
    else if PUSH1 <= op <= PUSH32 then 3
    else if op == DUP1 || op == SWAP1 then 3
    else if op == CALL then GAS_CALL
    else 0
  }

  // Linear disassembly

  /** Bytes an instruction occupies: itself and its PUSH immediates. */
  function Size(op: byte): nat {
    if PUSH1 <= op <= PUSH32 then op - PUSH1 + 2 else 1
  }

  /** The instruction starts found by reading `code` from offset `i` on. */
  function Starts(code: Bytes, i: nat): (s: set<nat>)
    ensures forall p | p in s :: i <= p < |code|
    decreases |code| - i
  {
    if i >= |code| then {} else {i} + Starts(code, i + Size(code[i]))
  }

  /** A program counter that is past the end or at an instruction start. */
  predicate AtStart(code: Bytes, pc: nat) {
    pc >= |code| || pc in Starts(code, 0)
  }

  function JumpDests(code: Bytes): set<nat> {
    set p | p in Starts(code, 0) && code[p] == JUMPDEST
  }

  lemma {:induction false} NextStart(code: Bytes, i: nat, p: nat)
    requires p in Starts(code, i)
    ensures p + Size(code[p]) >= |code| || p + Size(code[p]) in Starts(code, i)
    decreases |code| - i
  {
    if p != i { NextStart(code, i + Size(code[i]), p); }
  }

  /** No instruction start lies among the immediate bytes of another instruction. */
  lemma {:induction false} ImmediatesAreNotStarts(code: Bytes, i: nat, p: nat, q: nat)
    requires p in Starts(code, i) && p < q < p + Size(code[p])
    ensures q !in Starts(code, i)
    decreases |code| - i
  {
    if p != i { ImmediatesAreNotStarts(code, i + Size(code[i]), p, q); }
  }

  // One frame, apart from the world

  datatype Frame = Frame(pc: nat, stack: seq<Word>, mem: Bytes)

  datatype Step = Next(frame: Frame) | Halt(ret: Bytes) | Fault(err: VmError)

  /** What a frame is started with; its jump destinations are analysed once. */
  datatype Context = Context(code: Bytes, dests: set<nat>, self: Address, value: uint64, data: Bytes, depth: nat)

  function Enter(code: Bytes, self: Address, value: uint64, data: Bytes, depth: nat): Context {
    Context(code, JumpDests(code), self, value, data, depth)
  }

  const START := Frame(0, [], [])

  predicate Ready(c: Context, pc: nat) {
    c.dests == JumpDests(c.code) && AtStart(c.code, pc)
  }

  function Top(f: Frame, i: nat): Word
    requires i < |f.stack|
  {
    f.stack[|f.stack| - 1 - i]
  }

  /** `n` words popped, the program counter moved on, nothing pushed yet. */
  function Popped(f: Frame, n: nat): Frame
    requires n <= |f.stack|
  {
    f.(stack := f.stack[..|f.stack| - n], pc := f.pc + 1)
  }

  function Push(f: Frame, v: Word): Step {
    if |f.stack| >= MAX_STACK then Fault(StackOverflow) else Next(f.(stack := f.stack + [v]))
  }

  function Flag(b: bool): Word { if b then 1 else 0 }

  predicate IsBinary(op: byte) {
    op in {ADD, SUB, MUL, DIV, LT, GT, EQ}
  }

  /** The two-operand opcodes; `a` is the top of the stack, `b` the word below it. */
  function Alu(op: byte, a: Word, b: Word): Word
    requires IsBinary(op)
  {
    if op == ADD then (a + b) % TT256
    else if op == SUB then (a - b) % TT256
    else if op == MUL then (a * b) % TT256
    else if op == DIV then (if b == 0 then 0 else Quotient(a, b))
    else if op == LT then Flag(a < b)
    else if op == GT then Flag(a > b)
    else Flag(a == b)
  }

  function Quotient(a: Word, b: Word): (q: Word)
    requires b > 0
    ensures q * b <= a < (q + 1) * b
  {
    DivFacts(a, b);
    a / b
  }

  function ToIndex(v: Word): Option<nat> {
    if v > 0xFFFF_FFFF then None else Some(v)
  }

  function Zeros(n: nat): (z: Bytes)
    ensures |z| == n
  {
    seq(n, _ => 0)
  }

  function EnsureMem(mem: Bytes, size: nat): (m: Bytes)
    ensures |m| >= size && mem <= m
  {
    if |mem| >= size then mem else mem + Zeros(size - |mem|)
  }

  /** `n` bytes of `b` from `start`, zero-padded past the end. */
  function Window(b: Bytes, start: nat, n: nat): (r: Bytes)
    ensures |r| == n
  {
    if start >= |b| then Zeros(n)
    else if start + n <= |b| then b[start..start + n]
    else b[start..] + Zeros(n - (|b| - start))
  }

  lemma {:induction false} PowSum(a: nat, b: nat)
    ensures Pow256(a + b) == Pow256(a) * Pow256(b)
  {
    if a > 0 {
      PowSum(a - 1, b);
      assert Pow256(a + b) == 256 * Pow256(a - 1 + b);
      assert 256 * (Pow256(a - 1) * Pow256(b)) == (256 * Pow256(a - 1)) * Pow256(b);
    }
  }

  lemma Pow32()
    ensures Pow256(32) == TT256
  {
    WordWidth();
    hide Pow256;
    PowSum(8, 8);
    PowSum(16, 16);
  }

  lemma WordFits(n: nat)
    requires n <= 32
    ensures Pow256(n) <= TT256 && Pow256(32) == TT256
  {
    Pow32();
    hide Pow256;
    PowSum(n, 32 - n);
    MulGrows(Pow256(n), Pow256(32 - n));
  }

  function ToWord(b: Bytes): Word
    requires |b| <= 32
  {
    WordFits(|b|);
    FromBigEndian(b)
  }

  /** A word as a 32-byte storage key or value, and back. */
  function ToHash(v: Word): Hash { BigEndian(v, 32) }

  lemma WordRoundTrip(v: Word)
    ensures ToWord(ToHash(v)) == v
  {
    WordFits(32);
    BigEndianRoundTrip(v, 32);
  }

  function Splice(mem: Bytes, at: nat, b: Bytes): (m: Bytes)
    requires at + |b| <= |mem|
    ensures |m| == |mem|
  {
    mem[..at] + b + mem[at + |b|..]
  }

  /** Every opcode that neither touches the world nor calls, in the order its checks are made. */
  function LocalStep(c: Context, f: Frame, op: byte): (s: Step)
    requires Ready(c, f.pc) && f.pc < |c.code| && op == c.code[f.pc]
    requires op != SLOAD && op != SSTORE && op != CALL
  {
    var n := |f.stack|;
    if op == STOP then Halt([])
    else if IsBinary(op) then
      if n < 2 then Fault(StackUnderflow) else Push(Popped(f, 2), Alu(op, Top(f, 0), Top(f, 1)))
    else if op == ISZERO then
      if n < 1 then Fault(StackUnderflow) else Push(Popped(f, 1), Flag(Top(f, 0) == 0))
    else if op == CALLVALUE then Push(Popped(f, 0), c.value)
    else if op == CALLDATASIZE then Push(Popped(f, 0), |c.data| % TT256)
    else if op == CALLDATALOAD then
      if n < 1 then Fault(StackUnderflow) else Push(Popped(f, 1), DataWord(c.data, Top(f, 0)))
    else if op == POP then
      if n < 1 then Fault(StackUnderflow) else Next(Popped(f, 1))
    else if op == MLOAD then
      if n < 1 then Fault(StackUnderflow) else MemLoad(f, ToIndex(Top(f, 0)))
    else if op == MSTORE then
      if n < 2 then Fault(StackUnderflow) else MemStore(f, ToIndex(Top(f, 0)), Top(f, 1))
    else if op == JUMP then
      if n < 1 then Fault(StackUnderflow) else JumpTo(c.dests, Popped(f, 1), ToIndex(Top(f, 0)))
    else if op == JUMPI then
      if n < 2 then Fault(StackUnderflow)
      else if Top(f, 1) != 0 then JumpTo(c.dests, Popped(f, 2), ToIndex(Top(f, 0))) else Next(Popped(f, 2))
    else if op == JUMPDEST then Next(Popped(f, 0))
    else if PUSH1 <= op <= PUSH32 then
      var k := op - PUSH1 + 1;
      Push(f.(pc := f.pc + 1 + k), ToWord(Window(c.code, f.pc + 1, k)))
    else if op == DUP1 then
      if n < 1 then Fault(StackUnderflow) else Push(Popped(f, 0), Top(f, 0))
    else if op == SWAP1 then
      if n < 2 then Fault(StackUnderflow)
      else Next(f.(stack := f.stack[..n - 2] + [Top(f, 0), Top(f, 1)], pc := f.pc + 1))
    else if op == RETURN then
      if n < 2 then Fault(StackUnderflow) else Return(f, ToIndex(Top(f, 0)), ToIndex(Top(f, 1)))
    else Fault(InvalidOpcode)
  }

  /** A step that goes on has cost gas and lands on an instruction start. */
  lemma LocalStepAdvances(c: Context, f: Frame, op: byte)
    requires Ready(c, f.pc) && f.pc < |c.code| && op == c.code[f.pc]
    requires op != SLOAD && op != SSTORE && op != CALL
    ensures var s := LocalStep(c, f, op); s.Next? ==> GasCost(op) > 0 && AtStart(c.code, s.frame.pc)
  {
    hide Alu, ToWord, Window, EnsureMem, Splice, ToHash, DataWord;
    NextStart(c.code, 0, f.pc);
  }

  lemma StartIsReady(code: Bytes, self: Address, value: uint64, data: Bytes, depth: nat)
    ensures Ready(Enter(code, self, value, data, depth), START.pc)
  {
  }

  function DataWord(data: Bytes, off: Word): Word {
    match ToIndex(off)
    case None => 0
    case Some(i) => ToWord(Window(data, i, 32))
  }

  function MemLoad(f: Frame, idx: Option<nat>): Step
    requires |f.stack| >= 1
  {
    if idx.None? || idx.value + 32 > MAX_MEM then Fault(MemoryLimit) else
    var mem := EnsureMem(f.mem, idx.value + 32);
    Push(Popped(f, 1).(mem := mem), ToWord(mem[idx.value..idx.value + 32]))
  }

  function MemStore(f: Frame, idx: Option<nat>, v: Word): Step
    requires |f.stack| >= 2
  {
    if idx.None? || idx.value + 32 > MAX_MEM then Fault(MemoryLimit) else
    Next(Popped(f, 2).(mem := Splice(EnsureMem(f.mem, idx.value + 32), idx.value, ToHash(v))))
  }

  function JumpTo(dests: set<nat>, f: Frame, d: Option<nat>): (s: Step)
    ensures s.Next? ==> s.frame.pc in dests
  {
    if d.None? || d.value !in dests then Fault(InvalidJump) else Next(f.(pc := d.value))
  }

  function Return(f: Frame, off: Option<nat>, size: Option<nat>): Step {
    if off.None? || size.None? || off.value + size.value > MAX_MEM then Fault(MemoryLimit)
    else Halt(EnsureMem(f.mem, off.value + size.value)[off.value..off.value + size.value])
  }

  // The world

  /** Moves value between two accounts; the credit is an unchecked 64-bit addition. */
  function Transfer(w: World, from: Address, to: Address, value: uint64): Option<World> {
    if value == 0 || from == to then Some(w) else
    var f := AccountAt(w, from);
    if f.balance < value then None else
    var w1 := WithAccount(w, from, f.(balance := f.balance - value));
    var t := AccountAt(w1, to);
    Some(WithAccount(w1, to, t.(balance := Add64(t.balance, value))))
  }

  /** The storage opcodes: SLOAD reads the current frame's world, SSTORE updates it. */
  function WorldStep(c: Context, w: World, f: Frame, op: byte): (r: (Step, World))
    requires Ready(c, f.pc) && f.pc < |c.code| && op == c.code[f.pc]
    requires op == SLOAD || op == SSTORE
    ensures !r.0.Halt? && (r.0.Next? ==> AtStart(c.code, r.0.frame.pc))
  {
    NextStart(c.code, 0, f.pc);
    var n := |f.stack|;
    if op == SLOAD then
      if n < 1 then (Fault(StackUnderflow), w)
      else (Push(Popped(f, 1), ToWord(WordAt(w, c.self, ToHash(Top(f, 0))))), w)
    else
      if n < 2 then (Fault(StackUnderflow), w)
      else (Next(Popped(f, 2)), WithWord(w, c.self, ToHash(Top(f, 0)), ToHash(Top(f, 1))))
  }

  /** How a frame ends; `steps` counts the instructions fetched in it and in the frames it called. */
  datatype Outcome =
    | Done(ret: Bytes, world: World, gas: nat, steps: nat)
    | Failed(err: VmError, gas: nat, steps: nat)

  /** What a CALL leaves the calling frame with. */
  datatype CallResult =
    | Resumed(frame: Frame, world: World, gas: nat, steps: nat)
    | Aborted(err: VmError, gas: nat, steps: nat)

  function CodeAddress(v: Word): Address { ToHash(v)[12..] }

  function CallValue(v: Word): uint64 { if v < U64 then v else 0 }

  /** The seven popped words, the answer pushed by the caller. */
  function Answered(f: Frame, mem: Bytes, flag: Word): Frame
    requires |f.stack| >= 7
  {
    Popped(f, 7).(mem := mem, stack := Popped(f, 7).stack + [flag])
  }

  /** Copies the callee's return data into the caller's memory, or fails on a bad range. */
  function Returned(mem: Bytes, off: Option<nat>, size: Option<nat>, ret: Bytes): Option<Bytes> {
    if off.None? || size.None? || off.value + size.value > MAX_MEM then None
    else if size.value == 0 then Some(mem)
    else
      var n := if size.value > |ret| then |ret| else size.value;
      Some(Splice(EnsureMem(mem, off.value + size.value), off.value, ret[..n]))
  }

  /** One turn of the interpreter loop: on to the next loop head of this frame, or to its end. */
  datatype Move =
    | Go(frame: Frame, world: World, gas: nat, steps: nat)
    | End(outcome: Outcome)

  function Advance(c: Context, gas: nat, w: World, f: Frame): (m: Move)
    requires Ready(c, f.pc)
    ensures m.Go? ==> m.gas < gas && m.steps + m.gas <= gas && Ready(c, m.frame.pc)
    ensures m.End? ==> m.outcome.gas <= gas && m.outcome.steps + m.outcome.gas <= gas + 1
    decreases gas, 0
  {
    if f.pc >= |c.code| then End(Done([], w, gas, 0)) else
    var op := c.code[f.pc];
    if GasCost(op) > gas then End(Failed(OutOfGas, 0, 1)) else
    var gas' := gas - GasCost(op);
    if op == CALL then
      match Call(c, gas', w, f)
      case Aborted(e, g, n) => End(Failed(e, g, n + 1))
      case Resumed(f', w', g, n) => Go(f', w', g, n + 1)
    else if op == SLOAD || op == SSTORE then
      var (s, w') := WorldStep(c, w, f, op);
      match s
      case Next(f') => Go(f', w', gas', 1)
      case Fault(e) => End(Failed(e, gas', 1))
    else
      LocalStepAdvances(c, f, op);
      match LocalStep(c, f, op)
      case Next(f') => Go(f', w, gas', 1)
      case Halt(ret) => End(Done(ret, w, gas', 1))
      case Fault(e) => End(Failed(e, gas', 1))
  }

  /** A frame runs until it ends; every turn uses up gas, so it does. */
  function Run(c: Context, gas: nat, w: World, f: Frame): (o: Outcome)
    requires Ready(c, f.pc)
    ensures o.gas <= gas && o.steps + o.gas <= gas + 1
    decreases gas, 1
  {
    match Advance(c, gas, w, f)
    case End(o) => o
    case Go(f', w', g, n) => Extend(Run(c, g, w', f'), n)
  }

  /** The loop heads a frame passes through. */
  function Heads(c: Context, gas: nat, w: World, f: Frame): seq<Frame>
    requires Ready(c, f.pc)
    decreases gas
  {
    match Advance(c, gas, w, f)
    case End(_) => [f]
    case Go(f', w', g, _) => [f] + Heads(c, g, w', f')
  }

  function Extend(o: Outcome, n: nat): Outcome {
    o.(steps := o.steps + n)
  }

  /** CALL: a failing callee is undone and answered with 0, unless the shared gas ran out. */
  function Call(c: Context, gas: nat, w: World, f: Frame): (r: CallResult)
    requires Ready(c, f.pc) && f.pc < |c.code| && c.code[f.pc] == CALL
    ensures r.gas <= gas && r.steps + r.gas <= gas + 1
    ensures r.Resumed? ==> Ready(c, r.frame.pc)
    decreases gas, 2
  {
    NextStart(c.code, 0, f.pc);
    if |f.stack| < 7 then Aborted(StackUnderflow, gas, 0) else
    if c.depth + 1 > MAX_CALL_DEPTH then Resumed(Answered(f, f.mem, 0), w, gas, 0) else
    var to, value := CodeAddress(Top(f, 1)), CallValue(Top(f, 2));
    var off, size := ToIndex(Top(f, 3)), ToIndex(Top(f, 4));
    if off.None? || size.None? || off.value + size.value > MAX_MEM then Aborted(MemoryLimit, gas, 0) else
    var mem := EnsureMem(f.mem, off.value + size.value);
    var input := mem[off.value..off.value + size.value];
    match Transfer(w, c.self, to, value)
    case None => Resumed(Answered(f, mem, 0), w, gas, 0)
    case Some(w1) =>
      match Run(Enter(CodeAt(w1, to), to, value, input, c.depth + 1), gas, w1, START)
      case Failed(e, g, n) => if e == OutOfGas then Aborted(e, g, n) else Resumed(Answered(f, mem, 0), w, g, n)
      case Done(ret, w2, g, n) =>
        match Returned(mem, ToIndex(Top(f, 5)), ToIndex(Top(f, 6)), ret)
        case None => Aborted(MemoryLimit, g, n)
        case Some(mem') => Resumed(Answered(f, mem', 1), w2, g, n)
  }

  lemma OutsideImmediates(code: Bytes, p: nat, q: nat)
    requires p in Starts(code, 0) && q < |code| && q in Starts(code, 0)
    ensures !(p < q < p + Size(code[p]))
  {
    hide Starts, Size;
    if p < q < p + Size(code[p]) { ImmediatesAreNotStarts(code, 0, p, q); }
  }

  /** Jump safety: whatever is jumped to, no frame ever executes a PUSH immediate as an opcode. */
  lemma {:induction false} JumpSafety(c: Context, gas: nat, w: World, f: Frame, i: nat, p: nat)
    requires Ready(c, f.pc) && i < |Heads(c, gas, w, f)|
    requires p in Starts(c.code, 0)
    ensures var pc := Heads(c, gas, w, f)[i].pc;
            AtStart(c.code, pc) && (pc < |c.code| ==> !(p < pc < p + Size(c.code[p])))
    decreases gas
  {
    hide Advance, Starts, Size;
    if i == 0 {
      if f.pc < |c.code| { OutsideImmediates(c.code, p, f.pc); }
    } else {
      var m := Advance(c, gas, w, f);
      assert Heads(c, gas, w, f)[i] == Heads(c, m.gas, m.world, m.frame)[i - 1];
      JumpSafety(c, m.gas, m.world, m.frame, i - 1, p);
    }
  }

  /** A CALL answered with 0 leaves the caller's world as it was, at any depth. */
  lemma FailedCallLeavesNoTrace(c: Context, gas: nat, w: World, f: Frame)
    requires Ready(c, f.pc) && f.pc < |c.code| && c.code[f.pc] == CALL
    ensures var r := Call(c, gas, w, f);
            r.Resumed? ==> |r.frame.stack| > 0 && Top(r.frame, 0) <= 1 && (Top(r.frame, 0) == 0 ==> r.world == w)
  {
  }

  // Messages

  datatype Message = Message(from: Address, to: Option<Address>, value: uint64, gasLimit: uint64, nonce: uint64, data: Bytes)

  datatype Receipt = Receipt(err: Option<VmError>, gasUsed: uint64, ret: Bytes, contract: Option<Address>)

  function CreateAddress(sum: Bytes -> Hash, from: Address, nonce: uint64): Address {
    sum(from + BigEndian(nonce, 8))[12..]
  }

  function Failure(e: VmError, used: uint64): Receipt { Receipt(Some(e), used, [], None) }

  /** A message against a world: the receipt, and the world it leaves. */
  function Execute(sum: Bytes -> Hash, w: World, m: Message): (Receipt, World) {
    if m.to.None? then Create(sum, w, m) else
    var self := m.to.value;
    match Transfer(w, m.from, self, m.value)
    case None => (Failure(InsufficientFunds, 0), w)
    case Some(w1) =>
      match Run(Enter(CodeAt(w1, self), self, m.value, m.data, 0), m.gasLimit, w1, START)
      case Failed(e, g, _) => (Failure(e, if e == OutOfGas then m.gasLimit else m.gasLimit - g), w)
      case Done(ret, w2, g, _) => (Receipt(None, m.gasLimit - g, ret, None), w2)
  }

  function Create(sum: Bytes -> Hash, w: World, m: Message): (Receipt, World) {
    if GAS_CREATE > m.gasLimit then (Failure(OutOfGas, m.gasLimit), w) else
    var addr := CreateAddress(sum, m.from, m.nonce);
    match Transfer(w, m.from, addr, m.value)
    case None => (Failure(InsufficientFunds, GAS_CREATE), w)
    case Some(w1) => (Receipt(None, GAS_CREATE, [], Some(addr)), WithCode(w1, addr, m.data))
  }
}
