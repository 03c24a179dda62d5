/**
 What the instructions of the StackVM (vm/stackvm.go) mean to a program: what is pushed, stored or sent
 can be read back, and straight-line code computes the expression it was written for.
 */
module VmLaws {
  import opened Core
  import opened State
  import opened Vm

  /** The instruction at the frame's program counter. */
  predicate At(c: Context, f: Frame, op: byte) {
    Ready(c, f.pc) && f.pc < |c.code| && c.code[f.pc] == op
  }

  /** A PUSH pushes, for 3 units of gas, the word its immediate bytes spell, those past the end of the code read as zero. */
  lemma PushSpells(c: Context, gas: nat, w: World, f: Frame, op: byte)
    requires At(c, f, op) && PUSH1 <= op <= PUSH32 && |f.stack| < MAX_STACK && gas >= 3
    ensures LocalStep(c, f, op).Next? && Reaches(c, gas, w, f, gas - 3, w, LocalStep(c, f, op).frame, 1)
    ensures var s, k := LocalStep(c, f, op), op - PUSH1 + 1;
            && s.Next? && s.frame.pc == f.pc + 1 + k && s.frame.mem == f.mem
            && |s.frame.stack| == |f.stack| + 1 && s.frame.stack[..|f.stack|] == f.stack
            && forall i | 0 <= i < k ::
                 BigEndian(Top(s.frame, 0), k)[i] == if f.pc + 1 + i < |c.code| then c.code[f.pc + 1 + i] else 0
  {
    hide Alu, EnsureMem, Splice, ToHash, DataWord, BigEndian, FromBigEndian, Pow256, Reaches;
    BigEndianSpells(Window(c.code, f.pc + 1, op - PUSH1 + 1));
    OneStep(c, gas, w, f, op, LocalStep(c, f, op).frame);
  }

  lemma BigEndianSpells(b: Bytes)
    ensures BigEndian(FromBigEndian(b), |b|) == b
  {
    hide BigEndian, FromBigEndian, Pow256;
    BigEndianRoundTrip(FromBigEndian(b), |b|);
    BigEndianInjective(BigEndian(FromBigEndian(b), |b|), b);
  }

  /** MSTORE writes a word that MLOAD reads back, and no byte outside it; new memory is zero. */
  lemma MemoryReadsBack(f: Frame, g: Frame, i: nat, v: Word)
    requires |f.stack| >= 2 && i + 32 <= MAX_MEM && 1 <= |g.stack| <= MAX_STACK
    requires MemStore(f, Some(i), v).Next? ==> g.mem == MemStore(f, Some(i), v).frame.mem
    ensures MemStore(f, Some(i), v).Next? && |g.mem| >= i + 32
    ensures MemLoad(g, Some(i)) == Next(Frame(g.pc + 1, g.stack[..|g.stack| - 1] + [v], g.mem))
    ensures forall j | 0 <= j < |g.mem| && !(i <= j < i + 32) :: g.mem[j] == if j < |f.mem| then f.mem[j] else 0
  {
    hide ToHash, ToWord;
    var mem := EnsureMem(f.mem, i + 32);
    assert g.mem == Splice(mem, i, ToHash(v));
    assert g.mem[i..i + 32] == ToHash(v);
    WordRoundTrip(v);
  }

  /** SSTORE writes the running contract's slot, SLOAD reads it back, and no other slot or map changes. */
  lemma StorageReadsBack(c: Context, w: World, f: Frame, d: Context, g: Frame, s: seq<Word>, t: seq<Word>, k: Word, v: Word)
    requires At(c, f, SSTORE) && At(d, g, SLOAD) && d.self == c.self
    requires f.stack == s + [v, k] && g.stack == t + [k] && |t| < MAX_STACK
    ensures var (step, w') := WorldStep(c, w, f, SSTORE);
            && step == Next(Frame(f.pc + 1, s, f.mem))
            && WorldStep(d, w', g, SLOAD) == (Next(Frame(g.pc + 1, t + [v], g.mem)), w')
            && w'.accounts == w.accounts && w'.code == w.code
            && (forall a, h | (a, h) != (c.self, ToHash(k)) :: WordAt(w', a, h) == WordAt(w, a, h))
  {
    hide ToHash, ToWord;
    WordRoundTrip(v);
    ZeroWord();
    assert f.stack[..|f.stack| - 2] == s;
  }

  lemma ZeroWord()
    ensures ToWord(ZERO_HASH) == 0
  {
    hide ToHash, ToWord;
    WordRoundTrip(0);
    ZeroSpelt();
  }

  lemma ZeroSpelt()
    ensures ToHash(0) == ZERO_HASH
  {
    hide FromBigEndian, Pow256;
    ZeroDigits(32);
  }

  lemma {:induction false} ZeroDigits(n: nat)
    ensures BigEndian(0, n) == Zeros(n)
  {
    if n > 0 { ZeroDigits(n - 1); }
  }

  /**
   A CALL to an account without code moves exactly the value to exactly that account and answers 1; memory
   only grows, to cover the ranges named.
   */
  lemma PlainCall(c: Context, gas: nat, w: World, f: Frame, s: seq<Word>, to: Address, value: uint64, g: Word,
                  off: nat, size: nat, retOff: nat, retSize: nat)
    requires At(c, f, CALL) && c.depth < MAX_CALL_DEPTH && CodeAt(w, to) == []
    requires off + size <= MAX_MEM && retOff + retSize <= MAX_MEM
    requires f.stack == s + [retSize, retOff, size, off, value, AddressWord(to), g]
    requires Transfer(w, c.self, to, value).Some?
    ensures var mem := EnsureMem(EnsureMem(f.mem, off + size), if retSize == 0 then 0 else retOff + retSize);
            Call(c, gas, w, f) == Resumed(Frame(f.pc + 1, s + [1], mem), Transfer(w, c.self, to, value).value, gas, 0)
  {
    hide ToHash, ToWord, BigEndian, FromBigEndian, Alu, Run, JumpDests, Returned, EnsureMem, Transfer, CodeAddress, AddressWord;
    var w1 := Transfer(w, c.self, to, value).value;
    AddressSpells(to);
    TransferLeavesCode(w, c.self, to, value);
    Arguments(f, s, retSize, retOff, size, off, value, AddressWord(to), g);
    var mem := EnsureMem(f.mem, off + size);
    EmptyRuns(to, value, mem[off..off + size], c.depth + 1, gas, w1);
    NothingReturned(mem, retOff, retSize);
  }

  lemma Arguments(f: Frame, s: seq<Word>, a: Word, b: Word, c: Word, d: Word, e: Word, g: Word, h: Word)
    requires f.stack == s + [a, b, c, d, e, g, h]
    ensures Top(f, 6) == a && Top(f, 5) == b && Top(f, 4) == c && Top(f, 3) == d && Top(f, 2) == e && Top(f, 1) == g
    ensures Popped(f, 7) == Frame(f.pc + 1, s, f.mem)
  {
    assert f.stack[..|f.stack| - 7] == s;
  }

  lemma TransferLeavesCode(w: World, from: Address, to: Address, value: uint64)
    ensures var t := Transfer(w, from, to, value); t.Some? ==> t.value.code == w.code
  {
  }

  lemma NothingReturned(mem: Bytes, off: nat, size: nat)
    requires off + size <= MAX_MEM
    ensures Returned(mem, Some(off), Some(size), []) == Some(EnsureMem(mem, if size == 0 then 0 else off + size))
  {
    if size > 0 {
      var m := EnsureMem(mem, off + size);
      assert Splice(m, off, []) == m;
    }
  }

  function AddressWord(a: Address): Word { ToWord(a) }

  lemma AddressSpells(a: Address)
    ensures CodeAddress(AddressWord(a)) == a
  {
    hide BigEndian, FromBigEndian, Pow256;
    var pad := Zeros(12) + a;
    LeadingZeros(12, a);
    BigEndianSpells(pad);
    WordFits(20);
  }

  lemma {:induction false} LeadingZeros(n: nat, b: Bytes)
    ensures FromBigEndian(Zeros(n) + b) == FromBigEndian(b)
    decreases |b|, n
  {
    if |b| > 0 {
      var m := |b| - 1;
      LeadingZeros(n, b[..m]);
      assert (Zeros(n) + b)[..n + m] == Zeros(n) + b[..m];
    } else if n > 0 {
      LeadingZeros(n - 1, b);
      assert (Zeros(n) + b)[..n - 1] == Zeros(n - 1) + b;
    }
  }

  lemma EmptyRuns(to: Address, value: uint64, data: Bytes, depth: nat, gas: nat, w: World)
    ensures Run(Enter([], to, value, data, depth), gas, w, START) == Done([], w, gas, 0)
  {
    hide JumpDests;
  }

  /** A message to an account without code is a transfer and costs no gas. */
  lemma PlainMessage(sum: Bytes -> Hash, w: World, m: Message)
    requires m.to.Some? && CodeAt(w, m.to.value) == []
    ensures var t := Transfer(w, m.from, m.to.value, m.value);
            Execute(sum, w, m) == if t.None? then (Failure(InsufficientFunds, 0), w) else (Receipt(None, 0, [], None), t.value)
  {
    hide JumpDests;
    var t := Transfer(w, m.from, m.to.value, m.value);
    if t.Some? {
      assert CodeAt(t.value, m.to.value) == [];
      EmptyRuns(m.to.value, m.value, m.data, 0, m.gasLimit, t.value);
    }
  }

  // Runs, one instruction at a time

  /** From `f` in `w` with `gas` a run goes on as from `g` in `w'` with `left`, `n` instructions later. */
  ghost predicate Reaches(c: Context, gas: nat, w: World, f: Frame, left: nat, w': World, g: Frame, n: nat) {
    Ready(c, f.pc) && Ready(c, g.pc) && Run(c, gas, w, f) == Extend(Run(c, left, w', g), n)
  }

  /** A run from `f` ends with this error, the gas left being `left`. */
  ghost predicate Stops(c: Context, gas: nat, w: World, f: Frame, err: VmError, left: nat) {
    Ready(c, f.pc) && var o := Run(c, gas, w, f); o.Failed? && o.err == err && o.gas == left
  }

  lemma ReachesFurther(c: Context, gas: nat, w: World, f: Frame, g1: nat, w1: World, f1: Frame, n1: nat,
                       g2: nat, w2: World, f2: Frame, n2: nat)
    requires Reaches(c, gas, w, f, g1, w1, f1, n1) && Reaches(c, g1, w1, f1, g2, w2, f2, n2)
    ensures Reaches(c, gas, w, f, g2, w2, f2, n1 + n2)
  {
    hide Run;
  }

  lemma OneStep(c: Context, gas: nat, w: World, f: Frame, op: byte, g: Frame)
    requires At(c, f, op) && op != SLOAD && op != SSTORE && op != CALL && GasCost(op) <= gas
    requires LocalStep(c, f, op) == Next(g)
    ensures Reaches(c, gas, w, f, gas - GasCost(op), w, g, 1)
  {
    hide LocalStep;
    LocalStepAdvances(c, f, op);
    assert Advance(c, gas, w, f) == Go(g, w, gas - GasCost(op), 1);
  }

  lemma OneFault(c: Context, gas: nat, w: World, f: Frame, op: byte, e: VmError)
    requires At(c, f, op) && op != SLOAD && op != SSTORE && op != CALL && GasCost(op) <= gas
    requires LocalStep(c, f, op) == Fault(e)
    ensures Stops(c, gas, w, f, e, gas - GasCost(op))
  {
    hide LocalStep;
    LocalStepAdvances(c, f, op);
    assert Advance(c, gas, w, f) == End(Failed(e, gas - GasCost(op), 1));
  }

  /** An instruction that cannot be paid for ends the run and takes all gas. */
  lemma Unpaid(c: Context, gas: nat, w: World, f: Frame, op: byte)
    requires At(c, f, op) && GasCost(op) > gas
    ensures Stops(c, gas, w, f, OutOfGas, 0)
  {
    hide LocalStep, Call, WorldStep, GasCost;
    assert Advance(c, gas, w, f) == End(Failed(OutOfGas, 0, 1));
  }

  /** How many words an instruction takes off the stack, and how many it puts there; none for a byte that is no instruction. */
  function Takes(op: byte): Option<(nat, nat)> {
    if op in {ADD, SUB, MUL, DIV, LT, GT, EQ} then Some((2, 1))
    else if op in {ISZERO, CALLDATALOAD, MLOAD, SLOAD} then Some((1, 1))
    else if op in {CALLVALUE, CALLDATASIZE} || PUSH1 <= op <= PUSH32 then Some((0, 1))
    else if op in {STOP, JUMPDEST} then Some((0, 0))
    else if op in {POP, JUMP} then Some((1, 0))
    else if op in {MSTORE, SSTORE, JUMPI, RETURN} then Some((2, 0))
    else if op == DUP1 then Some((1, 2))
    else if op == SWAP1 then Some((2, 2))
    else if op == CALL then Some((7, 1))
    else None
  }

  /** Every instruction fails on a stack with too few words, or too many, and a byte that is no instruction fails always. */
  lemma StackFaults(c: Context, gas: nat, w: World, f: Frame, op: byte)
    requires At(c, f, op) && GasCost(op) <= gas && |f.stack| <= MAX_STACK
    ensures Takes(op).None? ==> Stops(c, gas, w, f, InvalidOpcode, gas - GasCost(op))
    ensures Takes(op).Some? && |f.stack| < Takes(op).value.0 ==> Stops(c, gas, w, f, StackUnderflow, gas - GasCost(op))
    ensures Takes(op).Some? && Takes(op).value.0 <= |f.stack| && |f.stack| - Takes(op).value.0 + Takes(op).value.1 > MAX_STACK ==>
              Stops(c, gas, w, f, StackOverflow, gas - GasCost(op))
  {
    hide Run, Stops, Alu, DataWord, ToWord, EnsureMem, Window, Splice, GasCost;
    if Takes(op).None? {
      OneFault(c, gas, w, f, op, InvalidOpcode);
    } else {
      var (n, m) := Takes(op).value;
      if |f.stack| < n {
        if op in {SLOAD, SSTORE} {
          WorldFault(c, gas, w, f, op, StackUnderflow);
        } else if op == CALL {
          CallFault(c, gas, w, f);
        } else {
          OneFault(c, gas, w, f, op, StackUnderflow);
        }
      } else if |f.stack| - n + m > MAX_STACK {
        OneFault(c, gas, w, f, op, StackOverflow);
      }
    }
  }

  lemma WorldFault(c: Context, gas: nat, w: World, f: Frame, op: byte, e: VmError)
    requires At(c, f, op) && op in {SLOAD, SSTORE} && GasCost(op) <= gas && WorldStep(c, w, f, op).0 == Fault(e)
    ensures Stops(c, gas, w, f, e, gas - GasCost(op))
  {
    hide WorldStep, Call, LocalStep;
    assert Advance(c, gas, w, f) == End(Failed(e, gas - GasCost(op), 1));
  }

  lemma CallFault(c: Context, gas: nat, w: World, f: Frame)
    requires At(c, f, CALL) && GasCost(CALL) <= gas && |f.stack| < 7
    ensures Stops(c, gas, w, f, StackUnderflow, gas - GasCost(CALL))
  {
    hide LocalStep;
    assert Advance(c, gas, w, f) == End(Failed(StackUnderflow, gas - GasCost(CALL), 1));
  }

  /** Past the end of the code a run ends well, with nothing to return. */
  lemma PastTheEnd(c: Context, gas: nat, w: World, f: Frame)
    requires Ready(c, f.pc) && f.pc >= |c.code|
    ensures Run(c, gas, w, f) == Done([], w, gas, 0)
  {
  }

  /** An instruction start that holds a JUMPDEST. */
  predicate Target(c: Context, d: Word) {
    d in Starts(c.code, 0) && c.code[d] == JUMPDEST
  }

  /** JUMP goes on at the word popped if a JUMPDEST is there, at an instruction start, and fails otherwise. */
  lemma Jumps(c: Context, gas: nat, w: World, f: Frame, s: seq<Word>, d: Word)
    requires At(c, f, JUMP) && f.stack == s + [d] && gas >= 8
    ensures Target(c, d) && d <= 0xFFFF_FFFF ==> Reaches(c, gas, w, f, gas - 8, w, Frame(d, s, f.mem), 1)
    ensures !(Target(c, d) && d <= 0xFFFF_FFFF) ==> Stops(c, gas, w, f, InvalidJump, gas - 8)
  {
    hide Run, Reaches, Stops, Alu, DataWord;
    assert f.stack[..|f.stack| - 1] == s;
    if Target(c, d) && d <= 0xFFFF_FFFF {
      OneStep(c, gas, w, f, JUMP, Frame(d, s, f.mem));
    } else {
      OneFault(c, gas, w, f, JUMP, InvalidJump);
    }
  }

  /**
   JUMPI goes on behind itself if the condition is zero; if not, at the destination when a JUMPDEST is there, at an
   instruction start, and it fails otherwise.
   */
  lemma JumpsIf(c: Context, gas: nat, w: World, f: Frame, s: seq<Word>, cond: Word, d: Word)
    requires At(c, f, JUMPI) && f.stack == s + [cond, d] && gas >= 10
    ensures cond == 0 ==> Reaches(c, gas, w, f, gas - 10, w, Frame(f.pc + 1, s, f.mem), 1)
    ensures cond != 0 && Target(c, d) && d <= 0xFFFF_FFFF ==> Reaches(c, gas, w, f, gas - 10, w, Frame(d, s, f.mem), 1)
    ensures cond != 0 && !(Target(c, d) && d <= 0xFFFF_FFFF) ==> Stops(c, gas, w, f, InvalidJump, gas - 10)
  {
    hide Run, Reaches, Stops, Alu, DataWord;
    assert f.stack[..|f.stack| - 2] == s;
    if cond == 0 {
      OneStep(c, gas, w, f, JUMPI, Frame(f.pc + 1, s, f.mem));
    } else if Target(c, d) && d <= 0xFFFF_FFFF {
      OneStep(c, gas, w, f, JUMPI, Frame(d, s, f.mem));
    } else {
      OneFault(c, gas, w, f, JUMPI, InvalidJump);
    }
  }

  /** JUMPDEST does nothing, for one unit of gas. */
  lemma Lands(c: Context, gas: nat, w: World, f: Frame)
    requires At(c, f, JUMPDEST) && gas >= 1
    ensures Reaches(c, gas, w, f, gas - 1, w, Frame(f.pc + 1, f.stack, f.mem), 1)
  {
    hide Run, Reaches, Alu, DataWord;
    assert f.stack[..|f.stack|] == f.stack;
    OneStep(c, gas, w, f, JUMPDEST, Frame(f.pc + 1, f.stack, f.mem));
  }

  lemma Drops(c: Context, gas: nat, w: World, f: Frame, s: seq<Word>, v: Word)
    requires At(c, f, POP) && f.stack == s + [v] && gas >= 2
    ensures Reaches(c, gas, w, f, gas - 2, w, Frame(f.pc + 1, s, f.mem), 1)
  {
    hide Run, Reaches, Alu, DataWord;
    assert f.stack[..|f.stack| - 1] == s;
    OneStep(c, gas, w, f, POP, Frame(f.pc + 1, s, f.mem));
  }

  lemma Doubles(c: Context, gas: nat, w: World, f: Frame, s: seq<Word>, v: Word)
    requires At(c, f, DUP1) && f.stack == s + [v] && |f.stack| < MAX_STACK && gas >= 3
    ensures Reaches(c, gas, w, f, gas - 3, w, Frame(f.pc + 1, s + [v, v], f.mem), 1)
  {
    hide Run, Reaches, Alu, DataWord;
    assert f.stack[..|f.stack|] + [v] == s + [v, v];
    OneStep(c, gas, w, f, DUP1, Frame(f.pc + 1, s + [v, v], f.mem));
  }

  lemma Swaps(c: Context, gas: nat, w: World, f: Frame, s: seq<Word>, u: Word, v: Word)
    requires At(c, f, SWAP1) && f.stack == s + [u, v] && gas >= 3
    ensures Reaches(c, gas, w, f, gas - 3, w, Frame(f.pc + 1, s + [v, u], f.mem), 1)
  {
    hide Run, Reaches, Alu, DataWord;
    assert f.stack[..|f.stack| - 2] + [v, u] == s + [v, u];
    OneStep(c, gas, w, f, SWAP1, Frame(f.pc + 1, s + [v, u], f.mem));
  }

  /** CALLVALUE and CALLDATASIZE push the value sent and the length of the input. */
  lemma Asks(c: Context, gas: nat, w: World, f: Frame, op: byte)
    requires At(c, f, op) && op in {CALLVALUE, CALLDATASIZE} && |f.stack| < MAX_STACK && gas >= 2 && |c.data| < TT256
    ensures Reaches(c, gas, w, f, gas - 2, w,
                    Frame(f.pc + 1, f.stack + [if op == CALLVALUE then c.value else |c.data|], f.mem), 1)
  {
    hide Run, Reaches, Alu, DataWord;
    assert f.stack[..|f.stack|] == f.stack;
    OneStep(c, gas, w, f, op, Frame(f.pc + 1, f.stack + [if op == CALLVALUE then c.value else |c.data|], f.mem));
  }

  /** The 32 bytes from `i` on, zeros past the end, as a number. */
  predicate Spells(b: Bytes, i: nat, v: Word) {
    forall j | 0 <= j < 32 :: ToHash(v)[j] == if i + j < |b| then b[i + j] else 0
  }

  lemma WindowSpells(b: Bytes, i: nat)
    ensures Spells(b, i, ToWord(Window(b, i, 32)))
  {
    hide BigEndian, FromBigEndian;
    BigEndianSpells(Window(b, i, 32));
  }

  lemma SpellsOnce(b: Bytes, i: nat, v: Word, v': Word)
    requires Spells(b, i, v) && Spells(b, i, v')
    ensures v == v'
  {
    hide ToHash, ToWord;
    assert ToHash(v) == ToHash(v') by {
      forall j | 0 <= j < 32
        ensures ToHash(v)[j] == ToHash(v')[j]
      {
      }
    }
    WordRoundTrip(v);
    WordRoundTrip(v');
  }

  /** CALLDATALOAD replaces an offset by the word that the input spells there, zero far out. */
  lemma ReadsInput(c: Context, gas: nat, w: World, f: Frame, s: seq<Word>, i: Word, v: Word)
    requires At(c, f, CALLDATALOAD) && f.stack == s + [i] && |f.stack| <= MAX_STACK && gas >= 3
    requires if i <= 0xFFFF_FFFF then Spells(c.data, i, v) else v == 0
    ensures Reaches(c, gas, w, f, gas - 3, w, Frame(f.pc + 1, s + [v], f.mem), 1)
  {
    hide Run, Reaches, Alu, Spells, Window;
    assert f.stack[..|f.stack| - 1] == s;
    if i <= 0xFFFF_FFFF {
      WindowSpells(c.data, i);
      SpellsOnce(c.data, i, v, ToWord(Window(c.data, i, 32)));
    }
    OneStep(c, gas, w, f, CALLDATALOAD, Frame(f.pc + 1, s + [v], f.mem));
  }

  /** MLOAD replaces an offset by the word that memory spells there and grows memory to reach it, or fails beyond the limit. */
  lemma ReadsMemory(c: Context, gas: nat, w: World, f: Frame, s: seq<Word>, i: Word, v: Word)
    requires At(c, f, MLOAD) && f.stack == s + [i] && |f.stack| <= MAX_STACK && gas >= 3
    ensures i + 32 <= MAX_MEM && Spells(f.mem, i, v) ==>
              Reaches(c, gas, w, f, gas - 3, w, Frame(f.pc + 1, s + [v], EnsureMem(f.mem, i + 32)), 1)
    ensures i + 32 > MAX_MEM ==> Stops(c, gas, w, f, MemoryLimit, gas - 3)
  {
    hide Run, Reaches, Stops, Alu, Spells, DataWord, ToWord;
    assert f.stack[..|f.stack| - 1] == s;
    if i + 32 > MAX_MEM {
      OneFault(c, gas, w, f, MLOAD, MemoryLimit);
    } else if Spells(f.mem, i, v) {
      WindowSpells(f.mem, i);
      SpellsOnce(f.mem, i, v, ToWord(Window(f.mem, i, 32)));
      assert EnsureMem(f.mem, i + 32)[i..i + 32] == Window(f.mem, i, 32);
      OneStep(c, gas, w, f, MLOAD, Frame(f.pc + 1, s + [v], EnsureMem(f.mem, i + 32)));
    }
  }

  /** MSTORE pops an offset and a word and puts the word's 32 bytes there, growing memory with zeros, or fails beyond the limit. */
  lemma WritesMemory(c: Context, gas: nat, w: World, f: Frame, s: seq<Word>, i: Word, v: Word, mem: Bytes)
    requires At(c, f, MSTORE) && f.stack == s + [v, i] && gas >= 3
    ensures i + 32 > MAX_MEM ==> Stops(c, gas, w, f, MemoryLimit, gas - 3)
    ensures i + 32 <= MAX_MEM && WrittenAt(f.mem, i, ToHash(v), mem, if |f.mem| > i + 32 then |f.mem| else i + 32) ==>
              Reaches(c, gas, w, f, gas - 3, w, Frame(f.pc + 1, s, mem), 1)
  {
    hide Run, Reaches, Stops, Alu, DataWord, ToWord, ToHash;
    assert f.stack[..|f.stack| - 2] == s;
    if i + 32 > MAX_MEM {
      OneFault(c, gas, w, f, MSTORE, MemoryLimit);
    } else if WrittenAt(f.mem, i, ToHash(v), mem, if |f.mem| > i + 32 then |f.mem| else i + 32) {
      assert mem == Splice(EnsureMem(f.mem, i + 32), i, ToHash(v));
      OneStep(c, gas, w, f, MSTORE, Frame(f.pc + 1, s, mem));
    }
  }

  /** `m'` has `n` bytes: `b` from `i` on, elsewhere those of `m`, and zeros past its end. */
  predicate WrittenAt(m: Bytes, i: nat, b: Bytes, m': Bytes, n: nat) {
    |m'| == n && forall j | 0 <= j < n ::
      m'[j] == if i <= j < i + |b| then b[j - i] else if j < |m| then m[j] else 0
  }

  /** RETURN ends the run with the bytes of memory named by offset and size, zeros past its end, or fails beyond the limit. */
  lemma Returns(c: Context, gas: nat, w: World, f: Frame, s: seq<Word>, i: Word, n: Word)
    requires At(c, f, RETURN) && f.stack == s + [n, i]
    ensures i + n > MAX_MEM ==> Stops(c, gas, w, f, MemoryLimit, gas)
    ensures i + n <= MAX_MEM ==>
              var o := Run(c, gas, w, f);
              && o.Done? && o.world == w && o.gas == gas && |o.ret| == n
              && forall j | 0 <= j < n :: o.ret[j] == if i + j < |f.mem| then f.mem[i + j] else 0
  {
    hide Run, Alu, DataWord, ToWord, ToHash;
    if i + n > MAX_MEM {
      OneFault(c, gas, w, f, RETURN, MemoryLimit);
    } else {
      var ret := EnsureMem(f.mem, i + n)[i..i + n];
      assert LocalStep(c, f, RETURN) == Halt(ret);
      HaltsHere(c, gas, w, f, RETURN, ret);
    }
  }

  lemma HaltsHere(c: Context, gas: nat, w: World, f: Frame, op: byte, ret: Bytes)
    requires At(c, f, op) && op != SLOAD && op != SSTORE && op != CALL && GasCost(op) <= gas && LocalStep(c, f, op) == Halt(ret)
    ensures Run(c, gas, w, f) == Done(ret, w, gas - GasCost(op), 1)
  {
    hide LocalStep;
    LocalStepAdvances(c, f, op);
    assert Advance(c, gas, w, f) == End(Done(ret, w, gas - GasCost(op), 1));
  }

  lemma Halts(c: Context, gas: nat, w: World, f: Frame)
    requires At(c, f, STOP)
    ensures Run(c, gas, w, f) == Done([], w, gas, 1)
  {
    hide Alu, Run, DataWord;
    HaltsHere(c, gas, w, f, STOP, []);
  }

  /** PUSH32 pushes the word spelt behind it. */
  lemma Pushes(c: Context, gas: nat, w: World, f: Frame, v: Word)
    requires Ready(c, f.pc) && Placed(c, f.pc, [PUSH32] + ToHash(v)) && |f.stack| < MAX_STACK && gas >= 3
    ensures Reaches(c, gas, w, f, gas - 3, w, Frame(f.pc + 33, f.stack + [v], f.mem), 1)
  {
    hide ToHash, ToWord, Run, Alu, DataWord, Reaches;
    var code := [PUSH32] + ToHash(v);
    assert c.code[f.pc] == code[0] == PUSH32;
    assert c.code[f.pc + 1..f.pc + 33] == c.code[f.pc..f.pc + 33][1..] == ToHash(v);
    assert Window(c.code, f.pc + 1, 32) == ToHash(v);
    WordRoundTrip(v);
    OneStep(c, gas, w, f, PUSH32, Frame(f.pc + 33, f.stack + [v], f.mem));
  }

  /** SLOAD replaces a key by the running contract's word there. */
  lemma ReadsSlot(c: Context, gas: nat, w: World, f: Frame, s: seq<Word>, k: Word, v: Word)
    requires At(c, f, SLOAD) && f.stack == s + [k] && |f.stack| <= MAX_STACK && gas >= 200
    requires WordAt(w, c.self, ToHash(k)) == ToHash(v)
    ensures Reaches(c, gas, w, f, gas - 200, w, Frame(f.pc + 1, s + [v], f.mem), 1)
  {
    hide Run, ToHash, ToWord, Call, LocalStep;
    assert f.stack[..|f.stack| - 1] == s;
    WordRoundTrip(v);
    NextStart(c.code, 0, f.pc);
    assert WorldStep(c, w, f, SLOAD) == (Next(Frame(f.pc + 1, s + [v], f.mem)), w);
    WorldTurn(c, gas, w, f, SLOAD, Frame(f.pc + 1, s + [v], f.mem), w);
  }

  /** SSTORE writes a word to the running contract's slot. */
  lemma WritesSlot(c: Context, gas: nat, w: World, f: Frame, s: seq<Word>, k: Word, v: Word)
    requires At(c, f, SSTORE) && f.stack == s + [v, k] && gas >= 5000
    ensures Reaches(c, gas, w, f, gas - 5000, WithWord(w, c.self, ToHash(k), ToHash(v)), Frame(f.pc + 1, s, f.mem), 1)
  {
    hide Run, ToHash, ToWord, Call, LocalStep;
    assert f.stack[..|f.stack| - 2] == s;
    NextStart(c.code, 0, f.pc);
    WorldTurn(c, gas, w, f, SSTORE, Frame(f.pc + 1, s, f.mem), WithWord(w, c.self, ToHash(k), ToHash(v)));
  }

  lemma WorldTurn(c: Context, gas: nat, w: World, f: Frame, op: byte, g: Frame, w': World)
    requires At(c, f, op) && op in {SLOAD, SSTORE} && GasCost(op) <= gas && WorldStep(c, w, f, op) == (Next(g), w')
    ensures Reaches(c, gas, w, f, gas - GasCost(op), w', g, 1)
  {
    hide WorldStep, Call, LocalStep;
    assert Advance(c, gas, w, f) == Go(g, w', gas - GasCost(op), 1);
  }

  /** A code fragment at an address of the program. */
  predicate Placed(c: Context, pc: nat, code: Bytes) {
    pc + |code| <= |c.code| && c.code[pc..pc + |code|] == code
  }

  lemma BinaryStep(c: Context, gas: nat, w: World, f: Frame, op: byte, s: seq<Word>, a: Word, b: Word)
    requires At(c, f, op) && IsBinary(op) && f.stack == s + [b, a] && |s| < MAX_STACK && GasCost(op) <= gas
    ensures Reaches(c, gas, w, f, gas - GasCost(op), w, Frame(f.pc + 1, s + [Alu(op, a, b)], f.mem), 1)
  {
    hide Run, Alu, DataWord, GasCost, Reaches;
    assert f.stack[..|f.stack| - 2] == s;
    OneStep(c, gas, w, f, op, Frame(f.pc + 1, s + [Alu(op, a, b)], f.mem));
  }

  lemma ZeroStep(c: Context, gas: nat, w: World, f: Frame, s: seq<Word>, a: Word)
    requires At(c, f, ISZERO) && f.stack == s + [a] && |s| < MAX_STACK && gas >= 3
    ensures Reaches(c, gas, w, f, gas - 3, w, Frame(f.pc + 1, s + [Flag(a == 0)], f.mem), 1)
  {
    hide Run, Alu, DataWord, Reaches;
    assert f.stack[..|f.stack| - 1] == s;
    OneStep(c, gas, w, f, ISZERO, Frame(f.pc + 1, s + [Flag(a == 0)], f.mem));
  }
}
