/**
 Expressions and their translation to StackVM code (vm/stackvm.go): words, operators, input, storage and variables
 kept in memory. The machine pushes the value of the expression for exactly its price, and runs dry for less.
 */
module Expressions {
  import opened Core
  import opened State
  import opened Vm
  import opened VmLaws

  // Expressions

  /** `Flip` evaluates its left operand first and swaps; `Both` applies an operator to a word and itself. */
  datatype Expr =
    | Const(v: Word)
    | Apply(op: byte, l: Expr, r: Expr)
    | Flip(op: byte, l: Expr, r: Expr)
    | Both(op: byte, e: Expr)
    | IsZero(e: Expr)
    | Sent
    | InputSize
    | Input(e: Expr)
    | Slot(e: Expr)
    | Var(i: nat)

  /** Whom a program runs as, and with what it was called. */
  datatype Env = Env(self: Address, value: uint64, data: Bytes)

  type Vars = map<nat, Word>

  function VarAt(vars: Vars, i: nat): Word { if i in vars then vars[i] else 0 }

  /** The number of variables that fit below the memory limit. */
  const MAX_VARS: nat := 2048

  predicate Legal(e: Expr) {
    match e
    case Const(_) => true
    case Apply(op, l, r) => IsBinary(op) && Legal(l) && Legal(r)
    case Flip(op, l, r) => IsBinary(op) && Legal(l) && Legal(r)
    case Both(op, e) => IsBinary(op) && Legal(e)
    case IsZero(e) => Legal(e)
    case Sent => true
    case InputSize => true
    case Input(e) => Legal(e)
    case Slot(e) => Legal(e)
    case Var(i) => i < MAX_VARS
  }

  function Value(e: Expr, k: Env, w: World, vars: Vars): Word
    requires Legal(e)
  {
    match e
    case Const(v) => v
    case Apply(op, l, r) => Alu(op, Value(l, k, w, vars), Value(r, k, w, vars))
    case Flip(op, l, r) => Alu(op, Value(l, k, w, vars), Value(r, k, w, vars))
    case Both(op, e) => Alu(op, Value(e, k, w, vars), Value(e, k, w, vars))
    case IsZero(e) => Flag(Value(e, k, w, vars) == 0)
    case Sent => k.value
    case InputSize => SizeWord(k.data)
    case Input(e) => InputWord(k.data, Value(e, k, w, vars))
    case Slot(e) => ToWord(WordAt(w, k.self, ToHash(Value(e, k, w, vars))))
    case Var(i) => VarAt(vars, i)
  }

  function SizeWord(data: Bytes): Word { |data| % TT256 }

  function InputWord(data: Bytes, i: Word): Word {
    if i <= 0xFFFF_FFFF then ToWord(Window(data, i, 32)) else 0
  }

  function Push32(v: Word): Bytes { [PUSH32] + ToHash(v) }

  function PushNat(n: nat): (x: Bytes)
    ensures |x| == 33
  {
    Push32(n % TT256)
  }

  lemma PushSmall(n: nat)
    requires n < TT256
    ensures PushNat(n) == Push32(n)
  {
    hide Push32;
  }

  /** Operands pushed right to left, so that the left one is on top. */
  function Compiled(e: Expr): Bytes {
    match e
    case Const(v) => Push32(v)
    case Apply(op, l, r) => Compiled(r) + Compiled(l) + [op]
    case Flip(op, l, r) => Compiled(l) + Compiled(r) + [SWAP1, op]
    case Both(op, e) => Compiled(e) + [DUP1, op]
    case IsZero(e) => Compiled(e) + [ISZERO]
    case Sent => [CALLVALUE]
    case InputSize => [CALLDATASIZE]
    case Input(e) => Compiled(e) + [CALLDATALOAD]
    case Slot(e) => Compiled(e) + [SLOAD]
    case Var(i) => PushNat(32 * i) + [MLOAD]
  }

  function Max(a: nat, b: nat): nat { if a > b then a else b }

  /** The stack space an expression takes. */
  function Room(e: Expr): (n: nat)
    ensures n > 0
  {
    match e
    case Const(_) => 1
    case Apply(_, l, r) => Max(Room(r), Room(l) + 1)
    case Flip(_, l, r) => Max(Room(l), Room(r) + 1)
    case Both(_, e) => Max(Room(e), 2)
    case IsZero(e) => Room(e)
    case Sent => 1
    case InputSize => 1
    case Input(e) => Room(e)
    case Slot(e) => Room(e)
    case Var(_) => 1
  }

  /** The memory an expression reads. */
  function Extent(e: Expr): nat {
    match e
    case Const(_) => 0
    case Apply(_, l, r) => Max(Extent(r), Extent(l))
    case Flip(_, l, r) => Max(Extent(l), Extent(r))
    case Both(_, e) => Extent(e)
    case IsZero(e) => Extent(e)
    case Sent => 0
    case InputSize => 0
    case Input(e) => Extent(e)
    case Slot(e) => Extent(e)
    case Var(i) => 32 * i + 32
  }

  function OpPrice(op: byte): nat { if op == MUL || op == DIV then 5 else 3 }

  function Price(e: Expr): nat {
    match e
    case Const(_) => 3
    case Apply(op, l, r) => Price(r) + Price(l) + OpPrice(op)
    case Flip(op, l, r) => Price(l) + Price(r) + (3 + OpPrice(op))
    case Both(op, e) => Price(e) + (3 + OpPrice(op))
    case IsZero(e) => Price(e) + 3
    case Sent => 2
    case InputSize => 2
    case Input(e) => Price(e) + 3
    case Slot(e) => Price(e) + 200
    case Var(_) => 6
  }

  /** The instructions an expression takes. */
  function Length(e: Expr): nat {
    match e
    case Const(_) => 1
    case Apply(_, l, r) => Length(r) + Length(l) + 1
    case Flip(_, l, r) => Length(l) + Length(r) + 2
    case Both(_, e) => Length(e) + 2
    case IsZero(e) => Length(e) + 1
    case Sent => 1
    case InputSize => 1
    case Input(e) => Length(e) + 1
    case Slot(e) => Length(e) + 1
    case Var(_) => 2
  }

  function Nodes(e: Expr): nat {
    match e
    case Const(_) => 1
    case Apply(_, l, r) => Nodes(l) + Nodes(r) + 1
    case Flip(_, l, r) => Nodes(l) + Nodes(r) + 1
    case Both(_, e) => Nodes(e) + 1
    case IsZero(e) => Nodes(e) + 1
    case Sent => 1
    case InputSize => 1
    case Input(e) => Nodes(e) + 1
    case Slot(e) => Nodes(e) + 1
    case Var(_) => 1
  }

  // Code made of whole instructions

  /** From offset `i` on, `x` is a sequence of whole instructions. */
  predicate Whole(x: Bytes, i: nat)
    decreases |x| - i
  {
    i == |x| || (i < |x| && Whole(x, i + Size(x[i])))
  }

  lemma {:induction false} WholeShifted(x: Bytes, y: Bytes, i: nat)
    requires Whole(y, i)
    ensures Whole(x + y, |x| + i)
    decreases |y| - i
  {
    if i < |y| { WholeShifted(x, y, i + Size(y[i])); }
  }

  lemma {:induction false} WholeJoined(x: Bytes, y: Bytes, i: nat)
    requires Whole(x, i) && Whole(y, 0)
    ensures Whole(x + y, i)
    decreases |x| - i
  {
    if i == |x| {
      WholeShifted(x, y, 0);
    } else {
      WholeJoined(x, y, i + Size(x[i]));
    }
  }

  lemma WholeOne(op: byte)
    requires !(PUSH1 <= op <= PUSH32)
    ensures Whole([op], 0)
  {
  }

  lemma WholeTwo(op: byte, op': byte)
    requires !(PUSH1 <= op <= PUSH32) && !(PUSH1 <= op' <= PUSH32)
    ensures Whole([op, op'], 0)
  {
  }

  lemma WholePush(v: Word)
    ensures Whole(Push32(v), 0)
  {
    assert Push32(v)[0] == PUSH32;
  }

  lemma WholeNat(n: nat)
    ensures Whole(PushNat(n), 0)
  {
    hide Whole;
    WholePush(n % TT256);
  }

  lemma {:induction false} WholeExpr(e: Expr)
    requires Legal(e)
    ensures Whole(Compiled(e), 0)
    decreases e, 0
  {
    hide ToHash, Push32, PushNat, Whole;
    match e
    case Const(v) => WholePush(v);
    case Apply(op, l, r) =>
      WholeExpr(l);
      WholeExpr(r);
      WholeJoined(Compiled(r), Compiled(l), 0);
      WholeOne(op);
      WholeJoined(Compiled(r) + Compiled(l), [op], 0);
    case Flip(op, l, r) =>
      WholeExpr(l);
      WholeExpr(r);
      WholeJoined(Compiled(l), Compiled(r), 0);
      WholeTwo(SWAP1, op);
      WholeJoined(Compiled(l) + Compiled(r), [SWAP1, op], 0);
    case Both(op, x) =>
      WholeExpr(x);
      WholeTwo(DUP1, op);
      WholeJoined(Compiled(x), [DUP1, op], 0);
    case IsZero(x) => WholeUnary(x, ISZERO);
    case Sent => WholeOne(CALLVALUE);
    case InputSize => WholeOne(CALLDATASIZE);
    case Input(x) => WholeUnary(x, CALLDATALOAD);
    case Slot(x) => WholeUnary(x, SLOAD);
    case Var(i) =>
      WholeNat(32 * i);
      WholeOne(MLOAD);
      WholeJoined(PushNat(32 * i), [MLOAD], 0);
  }

  lemma {:induction false} WholeUnary(e: Expr, op: byte)
    requires Legal(e) && !(PUSH1 <= op <= PUSH32)
    ensures Whole(Compiled(e) + [op], 0)
    decreases e, 1
  {
    hide Whole;
    WholeExpr(e);
    WholeOne(op);
    WholeJoined(Compiled(e), [op], 0);
  }

  /** Behind whole instructions an instruction starts again. */
  lemma {:induction false} StartsAgain(code: Bytes, pc: nat, x: Bytes, i: nat)
    requires pc + |x| <= |code| && code[pc..pc + |x|] == x && Whole(x, i) && pc + i in Starts(code, 0)
    ensures AtStart(code, pc + |x|)
    decreases |x| - i
  {
    hide Starts;
    if i < |x| {
      assert code[pc + i] == code[pc..pc + |x|][i] == x[i];
      NextStart(code, 0, pc + i);
      if pc + i + Size(x[i]) < pc + |x| || pc + |x| < |code| {
        if i + Size(x[i]) < |x| || pc + |x| < |code| { StartsAgain(code, pc, x, i + Size(x[i])); }
      }
    }
  }

  lemma ReadyAgain(c: Context, pc: nat, x: Bytes)
    requires Ready(c, pc) && Placed(c, pc, x) && Whole(x, 0)
    ensures Ready(c, pc + |x|)
  {
    hide Starts, Whole, JumpDests;
    if pc < |c.code| { StartsAgain(c.code, pc, x, 0); }
  }

  /** A stretch of placed code is placed in its parts. */
  lemma PlacedParts(c: Context, pc: nat, x: Bytes, y: Bytes)
    requires Placed(c, pc, x + y)
    ensures Placed(c, pc, x) && Placed(c, pc + |x|, y)
  {
    var all := c.code[pc..pc + |x + y|];
    assert c.code[pc..pc + |x|] == all[..|x|] == x;
    assert c.code[pc + |x|..pc + |x| + |y|] == all[|x|..] == y;
  }

  lemma PlacedOp(c: Context, f: Frame, op: byte)
    requires Ready(c, f.pc) && Placed(c, f.pc, [op])
    ensures At(c, f, op)
  {
    assert c.code[f.pc..f.pc + 1][0] == op;
  }

  // Runs that are paid for, or run dry

  /** For `price` the run goes on as from `g` in `w'`, and with less gas it ends for want of it. */
  ghost predicate Does(c: Context, gas: nat, w: World, f: Frame, price: nat, w': World, g: Frame, n: nat) {
    && (price <= gas ==> Reaches(c, gas, w, f, gas - price, w', g, n))
    && (price > gas ==> Stops(c, gas, w, f, OutOfGas, 0))
  }

  lemma Then(c: Context, gas: nat, w: World, f: Frame, p1: nat, w1: World, f1: Frame, n1: nat, p2: nat, w2: World, f2: Frame, n2: nat)
    requires Does(c, gas, w, f, p1, w1, f1, n1) && (p1 <= gas ==> Does(c, gas - p1, w1, f1, p2, w2, f2, n2))
    ensures Does(c, gas, w, f, p1 + p2, w2, f2, n1 + n2)
  {
    hide Run;
    if p1 <= gas {
      if p2 <= gas - p1 {
        ReachesFurther(c, gas, w, f, gas - p1, w1, f1, n1, gas - p1 - p2, w2, f2, n2);
      } else {
        StopsThen(c, gas, w, f, gas - p1, w1, f1, n1, OutOfGas, 0);
      }
    }
  }

  lemma StopsThen(c: Context, gas: nat, w: World, f: Frame, g1: nat, w1: World, f1: Frame, n1: nat, e: VmError, left: nat)
    requires Reaches(c, gas, w, f, g1, w1, f1, n1) && Stops(c, g1, w1, f1, e, left)
    ensures Stops(c, gas, w, f, e, left)
  {
    hide Run;
  }

  lemma OpDoes(c: Context, gas: nat, w: World, f: Frame, op: byte, w': World, g: Frame)
    requires At(c, f, op) && (GasCost(op) <= gas ==> Reaches(c, gas, w, f, gas - GasCost(op), w', g, 1))
    ensures Does(c, gas, w, f, GasCost(op), w', g, 1)
  {
    hide Reaches, Stops, GasCost, At;
    if GasCost(op) > gas { Unpaid(c, gas, w, f, op); }
  }

  lemma PushDoes(c: Context, gas: nat, w: World, f: Frame, v: Word)
    requires Ready(c, f.pc) && Placed(c, f.pc, Push32(v)) && |f.stack| < MAX_STACK
    ensures Does(c, gas, w, f, 3, w, Frame(f.pc + 33, f.stack + [v], f.mem), 1)
  {
    hide Reaches, Stops, ToHash;
    assert c.code[f.pc] == Push32(v)[0] == PUSH32;
    if gas >= 3 { Pushes(c, gas, w, f, v); }
    OpDoes(c, gas, w, f, PUSH32, w, Frame(f.pc + 33, f.stack + [v], f.mem));
  }

  // Memory

  /** Memory holds the variables, 32 bytes each. */
  ghost predicate Holds(mem: Bytes, vars: Vars) {
    forall i: nat :: Spells(mem, 32 * i, VarAt(vars, i))
  }

  lemma GrowsKeeps(mem: Bytes, n: nat, vars: Vars)
    requires Holds(mem, vars)
    ensures Holds(EnsureMem(mem, n), vars)
  {
    hide ToHash;
    var m := EnsureMem(mem, n);
    forall i: nat
      ensures Spells(m, 32 * i, VarAt(vars, i))
    {
      assert Spells(mem, 32 * i, VarAt(vars, i));
    }
  }

  lemma GrowsTwice(mem: Bytes, n: nat, m: nat)
    ensures EnsureMem(EnsureMem(mem, n), m) == EnsureMem(mem, Max(n, m)) && EnsureMem(mem, 0) == mem
  {
  }

  // Expressions run

  /** The frame an expression leaves. */
  function Leaves(f: Frame, e: Expr, v: Word): Frame {
    Frame(f.pc + |Compiled(e)|, f.stack + [v], EnsureMem(f.mem, Extent(e)))
  }

  ghost predicate Fit(c: Context, f: Frame, code: Bytes, vars: Vars, room: nat) {
    Ready(c, f.pc) && Placed(c, f.pc, code) && Holds(f.mem, vars) && |f.stack| + room <= MAX_STACK
  }

  function EnvOf(c: Context): Env { Env(c.self, c.value, c.data) }

  /**
   Wherever it is placed, on whatever stack, the code of an expression pushes the expression's value for exactly
   its price, does nothing else, and runs dry for less.
   */
  lemma {:induction false} ExpressionsEvaluate(c: Context, gas: nat, w: World, f: Frame, e: Expr, vars: Vars)
    requires Legal(e) && Fit(c, f, Compiled(e), vars, Room(e)) && |c.data| < TT256
    ensures Does(c, gas, w, f, Price(e), w, Leaves(f, e, Value(e, EnvOf(c), w, vars)), Length(e))
    decreases Nodes(e), 2
  {
    hide Does, Alu, ToHash, Ready, Holds, Placed, EnsureMem, Push32, PushNat;
    GrowsTwice(f.mem, 0, 0);
    match e {
      case Const(v) =>
        PushSize(v);
        PushDoes(c, gas, w, f, v);
      case Apply(op, l, r) => ApplyEvaluates(c, gas, w, f, op, l, r, vars);
      case Flip(op, l, r) => FlipEvaluates(c, gas, w, f, op, l, r, vars);
      case Both(op, x) => BothEvaluates(c, gas, w, f, op, x, vars);
      case IsZero(x) => UnaryEvaluates(c, gas, w, f, e, x, ISZERO, vars);
      case Sent => AskEvaluates(c, gas, w, f, CALLVALUE);
      case InputSize => AskEvaluates(c, gas, w, f, CALLDATASIZE);
      case Input(x) => UnaryEvaluates(c, gas, w, f, e, x, CALLDATALOAD, vars);
      case Slot(x) => UnaryEvaluates(c, gas, w, f, e, x, SLOAD, vars);
      case Var(i) => VarEvaluates(c, gas, w, f, i, vars);
    }
  }

  lemma AskEvaluates(c: Context, gas: nat, w: World, f: Frame, op: byte)
    requires Ready(c, f.pc) && Placed(c, f.pc, [op]) && op in {CALLVALUE, CALLDATASIZE} && |f.stack| < MAX_STACK && |c.data| < TT256
    ensures Does(c, gas, w, f, 2, w, Frame(f.pc + 1, f.stack + [if op == CALLVALUE then c.value else |c.data|], f.mem), 1)
  {
    hide Reaches, Stops;
    PlacedOp(c, f, op);
    if gas >= 2 { Asks(c, gas, w, f, op); }
    OpDoes(c, gas, w, f, op, w, Frame(f.pc + 1, f.stack + [if op == CALLVALUE then c.value else |c.data|], f.mem));
  }

  lemma VarEvaluates(c: Context, gas: nat, w: World, f: Frame, i: nat, vars: Vars)
    requires i < MAX_VARS && Fit(c, f, Compiled(Var(i)), vars, 1)
    ensures Does(c, gas, w, f, 6, w, Leaves(f, Var(i), VarAt(vars, i)), 2)
  {
    hide Does, Reaches, Stops, ToHash, Holds, Push32, Whole;
    var f1 := Frame(f.pc + 33, f.stack + [32 * i], f.mem);
    var g := Leaves(f, Var(i), VarAt(vars, i));
    PushSmall(32 * i);
    PlacedParts(c, f.pc, Push32(32 * i), [MLOAD]);
    WholePush(32 * i);
    assert |Push32(32 * i)| == 33 by { PushSize(32 * i); }
    ReadyAgain(c, f.pc, Push32(32 * i));
    PushDoes(c, gas, w, f, 32 * i);
    PlacedOp(c, f1, MLOAD);
    assert Spells(f.mem, 32 * i, VarAt(vars, i)) by { HoldsAt(f.mem, vars, i); }
    if gas >= 3 {
      if gas - 3 >= 3 { ReadsMemory(c, gas - 3, w, f1, f.stack, 32 * i, VarAt(vars, i)); }
      OpDoes(c, gas - 3, w, f1, MLOAD, w, g);
    }
    Then(c, gas, w, f, 3, w, f1, 1, 3, w, g, 1);
  }

  lemma PushSize(v: Word)
    ensures |Push32(v)| == 33
  {
  }

  lemma HoldsAt(mem: Bytes, vars: Vars, i: nat)
    requires Holds(mem, vars)
    ensures Spells(mem, 32 * i, VarAt(vars, i))
  {
  }

  /** What ISZERO, CALLDATALOAD and SLOAD make of a word. */
  function Unary(op: byte, k: Env, w: World, v: Word): Word {
    if op == ISZERO then Flag(v == 0)
    else if op == CALLDATALOAD then InputWord(k.data, v)
    else ToWord(WordAt(w, k.self, ToHash(v)))
  }

  lemma UnaryDoes(c: Context, gas: nat, w: World, f: Frame, s: seq<Word>, op: byte, v: Word)
    requires At(c, f, op) && op in {ISZERO, CALLDATALOAD, SLOAD} && f.stack == s + [v] && |f.stack| <= MAX_STACK
    ensures Does(c, gas, w, f, if op == SLOAD then 200 else 3, w, Frame(f.pc + 1, s + [Unary(op, EnvOf(c), w, v)], f.mem), 1)
  {
    hide Reaches, Stops, ToHash, ToWord, Spells, Window;
    var u := Unary(op, EnvOf(c), w, v);
    var g := Frame(f.pc + 1, s + [u], f.mem);
    if GasCost(op) <= gas {
      if op == ISZERO {
        ZeroStep(c, gas, w, f, s, v);
      } else if op == CALLDATALOAD {
        if v <= 0xFFFF_FFFF { WindowSpells(c.data, v); }
        ReadsInput(c, gas, w, f, s, v, u);
      } else {
        HashOfWord(WordAt(w, c.self, ToHash(v)));
        ReadsSlot(c, gas, w, f, s, v, u);
      }
    }
    OpDoes(c, gas, w, f, op, w, g);
  }

  lemma HashOfWord(h: Hash)
    ensures ToHash(ToWord(h)) == h
  {
    BigEndianSpells(h);
  }

  lemma UnaryIs(e: Expr, x: Expr, op: byte, k: Env, w: World, vars: Vars)
    requires Legal(e)
    requires (op == ISZERO && e == IsZero(x)) || (op == CALLDATALOAD && e == Input(x)) || (op == SLOAD && e == Slot(x))
    ensures Legal(x) && Nodes(x) < Nodes(e) && Compiled(e) == Compiled(x) + [op] && Room(e) == Room(x) && Extent(e) == Extent(x)
    ensures Value(e, k, w, vars) == Unary(op, k, w, Value(x, k, w, vars))
    ensures Price(e) == Price(x) + (if op == SLOAD then 200 else 3) && Length(e) == Length(x) + 1
  {
    hide InputWord, WordAt, ToWord, ToHash, PushNat, Alu;
  }

  lemma {:induction false} UnaryEvaluates(c: Context, gas: nat, w: World, f: Frame, e: Expr, x: Expr, op: byte, vars: Vars)
    requires Legal(e) && Fit(c, f, Compiled(e), vars, Room(e)) && |c.data| < TT256
    requires (op == ISZERO && e == IsZero(x)) || (op == CALLDATALOAD && e == Input(x)) || (op == SLOAD && e == Slot(x))
    ensures Does(c, gas, w, f, Price(e), w, Leaves(f, e, Value(e, EnvOf(c), w, vars)), Length(e))
    decreases Nodes(e), 1
  {
    hide Does, ToHash, Holds, Placed, EnsureMem, Whole, InputWord, WordAt, ToWord, PushNat, Compiled, Price, Length, Extent, Room, Legal, Value, Nodes;
    UnaryIs(e, x, op, EnvOf(c), w, vars);
    var v := Value(x, EnvOf(c), w, vars);
    var f1 := Leaves(f, x, v);
    var g := Leaves(f, e, Unary(op, EnvOf(c), w, v));
    PlacedParts(c, f.pc, Compiled(x), [op]);
    WholeExpr(x);
    ReadyAgain(c, f.pc, Compiled(x));
    ExpressionsEvaluate(c, gas, w, f, x, vars);
    PlacedOp(c, f1, op);
    if Price(x) <= gas { UnaryDoes(c, gas - Price(x), w, f1, f.stack, op, v); }
    Then(c, gas, w, f, Price(x), w, f1, Length(x), if op == SLOAD then 200 else 3, w, g, 1);
  }

  lemma BinaryDoes(c: Context, gas: nat, w: World, f: Frame, op: byte, s: seq<Word>, a: Word, b: Word)
    requires At(c, f, op) && IsBinary(op) && f.stack == s + [b, a] && |s| < MAX_STACK
    ensures Does(c, gas, w, f, OpPrice(op), w, Frame(f.pc + 1, s + [Alu(op, a, b)], f.mem), 1)
  {
    hide Reaches, Stops, Alu;
    if GasCost(op) <= gas { BinaryStep(c, gas, w, f, op, s, a, b); }
    OpDoes(c, gas, w, f, op, w, Frame(f.pc + 1, s + [Alu(op, a, b)], f.mem));
  }

  /** The frame two expressions in a row leave. */
  function LeavesPair(f: Frame, x: Expr, y: Expr, k: Env, w: World, vars: Vars): Frame
    requires Legal(x) && Legal(y)
  {
    Frame(f.pc + |Compiled(x) + Compiled(y)|, f.stack + [Value(x, k, w, vars), Value(y, k, w, vars)],
          EnsureMem(f.mem, Max(Extent(x), Extent(y))))
  }

  lemma {:induction false} PairEvaluates(c: Context, gas: nat, w: World, f: Frame, x: Expr, y: Expr, vars: Vars)
    requires Legal(x) && Legal(y) && Fit(c, f, Compiled(x) + Compiled(y), vars, Max(Room(x), Room(y) + 1)) && |c.data| < TT256
    ensures Ready(c, f.pc + |Compiled(x) + Compiled(y)|)
    ensures Does(c, gas, w, f, Price(x) + Price(y), w, LeavesPair(f, x, y, EnvOf(c), w, vars), Length(x) + Length(y))
    decreases Nodes(x) + Nodes(y) + 1, 0
  {
    hide Does, ToHash, Holds, Placed, EnsureMem, Whole, Value, PushNat;
    var k := EnvOf(c);
    var f1 := Leaves(f, x, Value(x, k, w, vars));
    var f2 := Leaves(f1, y, Value(y, k, w, vars));
    PlacedParts(c, f.pc, Compiled(x), Compiled(y));
    WholeExpr(x);
    ReadyAgain(c, f.pc, Compiled(x));
    WholeExpr(y);
    ReadyAgain(c, f1.pc, Compiled(y));
    GrowsKeeps(f.mem, Extent(x), vars);
    GrowsTwice(f.mem, Extent(x), Extent(y));
    ExpressionsEvaluate(c, gas, w, f, x, vars);
    if Price(x) <= gas { ExpressionsEvaluate(c, gas - Price(x), w, f1, y, vars); }
    Then(c, gas, w, f, Price(x), w, f1, Length(x), Price(y), w, f2, Length(y));
    assert f2.stack == f.stack + [Value(x, k, w, vars), Value(y, k, w, vars)];
  }

  lemma BinaryIs(op: byte, l: Expr, r: Expr, k: Env, w: World, vars: Vars)
    requires IsBinary(op) && Legal(l) && Legal(r)
    ensures var e := Apply(op, l, r);
            && Legal(e) && Nodes(e) == Nodes(l) + Nodes(r) + 1 && Compiled(e) == Compiled(r) + Compiled(l) + [op]
            && Room(e) == Max(Room(r), Room(l) + 1) && Extent(e) == Max(Extent(r), Extent(l))
            && Price(e) == Price(r) + Price(l) + OpPrice(op) && Length(e) == Length(r) + Length(l) + 1
            && Value(e, k, w, vars) == Alu(op, Value(l, k, w, vars), Value(r, k, w, vars))
    ensures var e := Flip(op, l, r);
            && Legal(e) && Nodes(e) == Nodes(l) + Nodes(r) + 1 && Compiled(e) == Compiled(l) + Compiled(r) + [SWAP1, op]
            && Room(e) == Max(Room(l), Room(r) + 1) && Extent(e) == Max(Extent(l), Extent(r))
            && Price(e) == Price(l) + Price(r) + (3 + OpPrice(op)) && Length(e) == Length(l) + Length(r) + 2
            && Value(e, k, w, vars) == Alu(op, Value(l, k, w, vars), Value(r, k, w, vars))
  {
    hide Alu, InputWord, WordAt, ToWord, ToHash, PushNat;
  }

  lemma BothIs(op: byte, x: Expr, k: Env, w: World, vars: Vars)
    requires IsBinary(op) && Legal(x)
    ensures var e := Both(op, x);
            && Legal(e) && Nodes(e) == Nodes(x) + 1 && Compiled(e) == Compiled(x) + [DUP1, op]
            && Room(e) == Max(Room(x), 2) && Extent(e) == Extent(x)
            && Price(e) == Price(x) + (3 + OpPrice(op)) && Length(e) == Length(x) + 2
            && Value(e, k, w, vars) == Alu(op, Value(x, k, w, vars), Value(x, k, w, vars))
  {
    hide Alu, InputWord, WordAt, ToWord, ToHash, PushNat;
  }

  lemma {:induction false} ApplyEvaluates(c: Context, gas: nat, w: World, f: Frame, op: byte, l: Expr, r: Expr, vars: Vars)
    requires IsBinary(op) && Legal(l) && Legal(r) && Fit(c, f, Compiled(Apply(op, l, r)), vars, Room(Apply(op, l, r))) && |c.data| < TT256
    ensures var e := Apply(op, l, r);
            Does(c, gas, w, f, Price(e), w, Leaves(f, e, Value(e, EnvOf(c), w, vars)), Length(e))
    decreases Nodes(Apply(op, l, r)), 1
  {
    hide Does, ToHash, Holds, Placed, EnsureMem, Whole, Alu, Ready, At, PushNat, Compiled, Price, Length, Extent, Room, Legal, Value, Nodes;
    var k, e := EnvOf(c), Apply(op, l, r);
    BinaryIs(op, l, r, k, w, vars);
    var a, b := Value(l, k, w, vars), Value(r, k, w, vars);
    var f1 := Frame(f.pc + |Compiled(r) + Compiled(l)|, f.stack + [b, a], EnsureMem(f.mem, Extent(e)));
    var g := Leaves(f, e, Value(e, k, w, vars));
    PlacedParts(c, f.pc, Compiled(r) + Compiled(l), [op]);
    PairEvaluates(c, gas, w, f, r, l, vars);
    PlacedOp(c, f1, op);
    var p := Price(r) + Price(l);
    if p <= gas { BinaryDoes(c, gas - p, w, f1, op, f.stack, a, b); }
    Then(c, gas, w, f, p, w, f1, Length(r) + Length(l), OpPrice(op), w, g, 1);
  }

  lemma SwapDoes(c: Context, gas: nat, w: World, f: Frame, s: seq<Word>, u: Word, v: Word)
    requires At(c, f, SWAP1) && f.stack == s + [u, v]
    ensures Does(c, gas, w, f, 3, w, Frame(f.pc + 1, s + [v, u], f.mem), 1)
  {
    hide Reaches, Stops;
    if gas >= 3 { Swaps(c, gas, w, f, s, u, v); }
    OpDoes(c, gas, w, f, SWAP1, w, Frame(f.pc + 1, s + [v, u], f.mem));
  }

  lemma DupDoes(c: Context, gas: nat, w: World, f: Frame, s: seq<Word>, v: Word)
    requires At(c, f, DUP1) && f.stack == s + [v] && |f.stack| < MAX_STACK
    ensures Does(c, gas, w, f, 3, w, Frame(f.pc + 1, s + [v, v], f.mem), 1)
  {
    hide Reaches, Stops;
    if gas >= 3 { Doubles(c, gas, w, f, s, v); }
    OpDoes(c, gas, w, f, DUP1, w, Frame(f.pc + 1, s + [v, v], f.mem));
  }

  /** SWAP1 or DUP1, and then an operator on the two words on top. */
  lemma TwoOps(c: Context, gas: nat, w: World, f: Frame, s: seq<Word>, first: byte, op: byte, a: Word, b: Word)
    requires Ready(c, f.pc) && Placed(c, f.pc, [first, op]) && IsBinary(op)
    requires (first == SWAP1 && f.stack == s + [a, b]) || (first == DUP1 && f.stack == s + [a] && a == b && |f.stack| < MAX_STACK)
    requires |s| < MAX_STACK
    ensures Does(c, gas, w, f, 3 + OpPrice(op), w, Frame(f.pc + 2, s + [Alu(op, a, b)], f.mem), 2)
  {
    hide Does, Placed, Alu, Whole;
    var f1 := Frame(f.pc + 1, s + [b, a], f.mem);
    assert [first, op] == [first] + [op];
    PlacedParts(c, f.pc, [first], [op]);
    PlacedOp(c, f, first);
    WholeOne(first);
    ReadyAgain(c, f.pc, [first]);
    PlacedOp(c, f1, op);
    if first == SWAP1 { SwapDoes(c, gas, w, f, s, a, b); } else { DupDoes(c, gas, w, f, s, a); }
    if gas >= 3 { BinaryDoes(c, gas - 3, w, f1, op, s, a, b); }
    Then(c, gas, w, f, 3, w, f1, 1, OpPrice(op), w, Frame(f.pc + 2, s + [Alu(op, a, b)], f.mem), 1);
  }

  lemma {:induction false} FlipEvaluates(c: Context, gas: nat, w: World, f: Frame, op: byte, l: Expr, r: Expr, vars: Vars)
    requires IsBinary(op) && Legal(l) && Legal(r) && Fit(c, f, Compiled(Flip(op, l, r)), vars, Room(Flip(op, l, r))) && |c.data| < TT256
    ensures var e := Flip(op, l, r);
            Does(c, gas, w, f, Price(e), w, Leaves(f, e, Value(e, EnvOf(c), w, vars)), Length(e))
    decreases Nodes(Flip(op, l, r)), 1
  {
    hide Does, ToHash, Holds, Placed, EnsureMem, Whole, Alu, Ready, At, PushNat, Compiled, Price, Length, Extent, Room, Legal, Value, Nodes;
    var k, e := EnvOf(c), Flip(op, l, r);
    BinaryIs(op, l, r, k, w, vars);
    var f1 := LeavesPair(f, l, r, k, w, vars);
    var p := Price(l) + Price(r);
    PlacedParts(c, f.pc, Compiled(l) + Compiled(r), [SWAP1, op]);
    PairEvaluates(c, gas, w, f, l, r, vars);
    if p <= gas { TwoOps(c, gas - p, w, f1, f.stack, SWAP1, op, Value(l, k, w, vars), Value(r, k, w, vars)); }
    Then(c, gas, w, f, p, w, f1, Length(l) + Length(r), 3 + OpPrice(op), w, Leaves(f, e, Value(e, k, w, vars)), 2);
  }

  lemma {:induction false} BothEvaluates(c: Context, gas: nat, w: World, f: Frame, op: byte, x: Expr, vars: Vars)
    requires IsBinary(op) && Legal(x) && Fit(c, f, Compiled(Both(op, x)), vars, Room(Both(op, x))) && |c.data| < TT256
    ensures var e := Both(op, x);
            Does(c, gas, w, f, Price(e), w, Leaves(f, e, Value(e, EnvOf(c), w, vars)), Length(e))
    decreases Nodes(Both(op, x)), 1
  {
    hide Does, ToHash, Holds, Placed, EnsureMem, Whole, Alu, Ready, At, PushNat, Compiled, Price, Length, Extent, Room, Legal, Value, Nodes;
    var k, e := EnvOf(c), Both(op, x);
    BothIs(op, x, k, w, vars);
    var v := Value(x, k, w, vars);
    var f1 := Leaves(f, x, v);
    PlacedParts(c, f.pc, Compiled(x), [DUP1, op]);
    WholeExpr(x);
    ReadyAgain(c, f.pc, Compiled(x));
    ExpressionsEvaluate(c, gas, w, f, x, vars);
    if Price(x) <= gas { TwoOps(c, gas - Price(x), w, f1, f.stack, DUP1, op, v, v); }
    Then(c, gas, w, f, Price(x), w, f1, Length(x), 3 + OpPrice(op), w, Leaves(f, e, Value(e, k, w, vars)), 2);
  }

  // Wrap-around can wait

  function Flagged(b: bool): int { if b then 1 else 0 }

  /** The operators over integers: sums, differences and products unbounded, the others on words. */
  function Combined(op: byte, a: int, b: int): int
    requires IsBinary(op)
  {
    if op == ADD then a + b
    else if op == SUB then a - b
    else if op == MUL then a * b
    else OnWords(op, a % TT256, b % TT256)
  }

  function OnWords(op: byte, a: Word, b: Word): int
    requires IsBinary(op)
  {
    if op == DIV then (if b == 0 then 0 else a / b)
    else if op == LT then Flagged(a < b)
    else if op == GT then Flagged(b < a)
    else Flagged(a == b)
  }

  /** The integer an expression stands for. */
  function Meaning(e: Expr, k: Env, w: World, vars: Vars): int
    requires Legal(e)
  {
    match e
    case Const(v) => v
    case Apply(op, l, r) => Combined(op, Meaning(l, k, w, vars), Meaning(r, k, w, vars))
    case Flip(op, l, r) => Combined(op, Meaning(l, k, w, vars), Meaning(r, k, w, vars))
    case Both(op, x) => Combined(op, Meaning(x, k, w, vars), Meaning(x, k, w, vars))
    case IsZero(x) => Flagged(Meaning(x, k, w, vars) % TT256 == 0)
    case Sent => k.value
    case InputSize => |k.data|
    case Input(x) => InputWord(k.data, Meaning(x, k, w, vars) % TT256)
    case Slot(x) => ToWord(WordAt(w, k.self, ToHash(Meaning(x, k, w, vars) % TT256)))
    case Var(i) => VarAt(vars, i)
  }

  lemma MultiplesWrap(k: int, z: int)
    ensures (k * TT256 + z) % TT256 == z % TT256
  {
  }

  lemma SumsWrap(x: int, y: int)
    ensures (x % TT256 + y % TT256) % TT256 == (x + y) % TT256
    ensures (x % TT256 - y % TT256) % TT256 == (x - y) % TT256
  {
    var p, q, a, b := x / TT256, y / TT256, x % TT256, y % TT256;
    assert x + y == (p + q) * TT256 + (a + b) && x - y == (p - q) * TT256 + (a - b);
    MultiplesWrap(p + q, a + b);
    MultiplesWrap(p - q, a - b);
  }

  lemma ProductsWrap(x: int, y: int)
    ensures (x % TT256) * (y % TT256) % TT256 == x * y % TT256
  {
    var p, q := x / TT256, y / TT256;
    var a, b := x % TT256, y % TT256;
    assert x == p * TT256 + a && y == q * TT256 + b;
    Expanded(p, q, a, b, TT256);
    MultiplesWrap(p * y + a * q, a * b);
  }

  lemma Expanded(p: int, q: int, a: int, b: int, m: int)
    ensures (p * m + a) * (q * m + b) == (p * (q * m + b) + a * q) * m + a * b
  {
    var y := q * m + b;
    assert (p * m + a) * y == p * m * y + a * y;
    assert p * m * y == p * y * m;
    assert a * y == a * (q * m) + a * b;
    assert a * (q * m) == a * q * m;
  }

  lemma RingWraps(op: byte, a: int, b: int)
    requires op in {ADD, SUB, MUL}
    ensures Alu(op, a % TT256, b % TT256) == Combined(op, a, b) % TT256
  {
    hide Quotient, OnWords;
    if op == MUL { ProductsWrap(a, b); } else { SumsWrap(a, b); }
  }

  lemma SmallerWord(a: Word)
    ensures a % TT256 == a
  {
  }

  lemma OthersWrap(op: byte, a: Word, b: Word)
    requires IsBinary(op) && op !in {ADD, SUB, MUL}
    ensures Alu(op, a, b) == OnWords(op, a, b) == OnWords(op, a, b) % TT256
  {
    SmallerWord(Alu(op, a, b));
  }

  lemma OperatorWraps(op: byte, a: int, b: int)
    requires IsBinary(op)
    ensures Alu(op, a % TT256, b % TT256) == Combined(op, a, b) % TT256
  {
    hide Alu, OnWords;
    if op in {ADD, SUB, MUL} { RingWraps(op, a, b); } else { OthersWrap(op, a % TT256, b % TT256); }
  }

  /** The value left on the stack is the integer meaning, reduced modulo 2^256 once. */
  lemma {:induction false} WrapsOnce(e: Expr, k: Env, w: World, vars: Vars)
    requires Legal(e)
    ensures Value(e, k, w, vars) == Meaning(e, k, w, vars) % TT256
  {
    hide Alu, Combined, InputWord, ToWord, ToHash, WordAt;
    match e
    case Const(v) => SmallerWord(v);
    case Apply(op, l, r) =>
      WrapsOnce(l, k, w, vars);
      WrapsOnce(r, k, w, vars);
      OperatorWraps(op, Meaning(l, k, w, vars), Meaning(r, k, w, vars));
    case Flip(op, l, r) =>
      WrapsOnce(l, k, w, vars);
      WrapsOnce(r, k, w, vars);
      OperatorWraps(op, Meaning(l, k, w, vars), Meaning(r, k, w, vars));
    case Both(op, x) =>
      WrapsOnce(x, k, w, vars);
      OperatorWraps(op, Meaning(x, k, w, vars), Meaning(x, k, w, vars));
    case IsZero(x) =>
      WrapsOnce(x, k, w, vars);
      SmallerWord(Value(e, k, w, vars));
    case Sent => SmallerWord(k.value);
    case InputSize =>
    case Input(x) =>
      WrapsOnce(x, k, w, vars);
      SmallerWord(Value(e, k, w, vars));
    case Slot(x) =>
      WrapsOnce(x, k, w, vars);
      SmallerWord(Value(e, k, w, vars));
    case Var(i) => SmallerWord(VarAt(vars, i));
  }

  /** The code of an expression pushes its meaning over the integers, reduced modulo 2^256. */
  lemma ProgramsMeanIntegers(c: Context, gas: nat, w: World, f: Frame, e: Expr, vars: Vars)
    requires Legal(e) && Fit(c, f, Compiled(e), vars, Room(e)) && |c.data| < TT256
    ensures Does(c, gas, w, f, Price(e), w, Leaves(f, e, Meaning(e, EnvOf(c), w, vars) % TT256), Length(e))
  {
    hide Does, Fit, Value, Meaning;
    ExpressionsEvaluate(c, gas, w, f, e, vars);
    WrapsOnce(e, EnvOf(c), w, vars);
  }
}
