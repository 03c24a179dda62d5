/**
 A small structured language and its translation to StackVM code (vm/stackvm.go): assignments to variables and
 storage, branches, loops, and returning words. The machine does what the program says, down to the gas, and runs
 dry exactly when the program does.
 */
module Programs {
  import opened Core
  import opened State
  import opened Vm
  import opened VmLaws
  import opened Expressions

  /** `Give(i, n)` returns the `n` variables from `i` on. */
  datatype Stmt =
    | Set(i: nat, e: Expr)
    | Put(key: Expr, e: Expr)
    | Drop(e: Expr)
    | Seq(a: Stmt, b: Stmt)
    | If(e: Expr, a: Stmt, b: Stmt)
    | While(e: Expr, a: Stmt)
    | Give(i: nat, n: nat)
    | Quit

  predicate Sound(p: Stmt) {
    match p
    case Set(i, e) => i < MAX_VARS && Legal(e)
    case Put(k, e) => Legal(k) && Legal(e)
    case Drop(e) => Legal(e)
    case Seq(a, b) => Sound(a) && Sound(b)
    case If(e, a, b) => Legal(e) && Sound(a) && Sound(b)
    case While(e, a) => Legal(e) && Sound(a)
    case Give(i, n) => i + n <= MAX_VARS
    case Quit => true
  }

  // Meaning

  datatype Store = Store(vars: Vars, world: World)

  datatype Ending =
    | Went(st: Store, gas: nat)
    | Ended(ret: Bytes, world: World, gas: nat)
    | Starved

  /** The variables from `i` to `n`, as bytes. */
  function Words(vars: Vars, i: nat, n: nat): (b: Bytes)
    requires i <= n
    ensures |b| == 32 * (n - i)
    decreases n - i
  {
    if i == n then [] else ToHash(VarAt(vars, i)) + Words(vars, i + 1, n)
  }

  function Assigned(st: Store, i: nat, v: Word): Store { st.(vars := st.vars[i := v]) }

  function Stored(st: Store, key: Expr, e: Expr, k: Env): Store
    requires Legal(key) && Legal(e)
  {
    var a, v := Value(key, k, st.world, st.vars), Value(e, k, st.world, st.vars);
    st.(world := WithWord(st.world, k.self, ToHash(a), ToHash(v)))
  }

  function Paid(st: Store, gas: nat, price: nat): Ending {
    if price <= gas then Went(st, gas - price) else Starved
  }

  /** What a test with its jump costs, beyond the condition. */
  const TEST: nat := 16
  const GOTO: nat := 11

  function Exec(p: Stmt, k: Env, st: Store, gas: nat): (r: Ending)
    requires Sound(p)
    ensures !r.Starved? ==> r.gas <= gas
    decreases gas, p
  {
    match p
    case Set(i, e) => Paid(Assigned(st, i, Value(e, k, st.world, st.vars)), gas, Price(e) + 6)
    case Put(key, e) =>
      Paid(Stored(st, key, e, k), gas, Price(e) + Price(key) + 5000)
    case Drop(e) => Paid(st, gas, Price(e) + 2)
    case Give(i, n) => Given(st, i, n, gas)
    case Quit => Ended([], st.world, gas)
    case Seq(a, b) =>
      var r := Exec(a, k, st, gas);
      if r.Went? then Exec(b, k, r.st, r.gas) else r
    case If(e, a, b) =>
      var t := Price(e) + TEST;
      if gas < t then Starved
      else if Value(e, k, st.world, st.vars) != 0 then Onward(Exec(a, k, st, gas - t), GOTO + 1)
      else if gas - t < 1 then Starved
      else Onward(Exec(b, k, st, gas - t - 1), 1)
    case While(e, a) =>
      var t := 1 + (Price(e) + TEST);
      if gas < t then Starved
      else if Value(e, k, st.world, st.vars) == 0 then Paid(st, gas - t, 1)
      else
        var r := Onward(Exec(a, k, st, gas - t), GOTO);
        if r.Went? then Exec(p, k, r.st, r.gas) else r
  }

  function Onward(r: Ending, price: nat): Ending {
    if r.Went? then Paid(r.st, r.gas, price) else r
  }

  // Code

  function Test(e: Expr, d: nat): Bytes { Compiled(IsZero(e)) + PushNat(d) + [JUMPI] }

  function Goto(d: nat): Bytes { PushNat(d) + [JUMP] }

  function Join(x: Bytes, y: Bytes): (z: Bytes)
    ensures |z| == |x| + |y|
  {
    x + y
  }

  /** The code of a program to be placed at `at`. */
  function Code(p: Stmt, at: nat): (x: Bytes)
    ensures |x| == CodeSize(p)
  {
    match p
    case Set(i, e) => Join(Compiled(e), Join(PushNat(32 * i), [MSTORE]))
    case Put(k, e) => Join(Compiled(e) + Compiled(k), [SSTORE])
    case Drop(e) => Join(Compiled(e), [POP])
    case Seq(a, b) => Join(Code(a, at), Code(b, at + CodeSize(a)))
    case If(e, a, b) =>
      var els := at + TestSize(e) + CodeSize(a) + 34;
      Join(Test(e, els), Join(Code(a, at + TestSize(e)), Join(Goto(els + 1 + CodeSize(b)),
           Join([JUMPDEST], Join(Code(b, els + 1), [JUMPDEST])))))
    case While(e, a) =>
      Join([JUMPDEST], Join(Test(e, at + 1 + TestSize(e) + CodeSize(a) + 34), Join(Code(a, at + 1 + TestSize(e)), Join(Goto(at), [JUMPDEST]))))
    case Give(i, n) => Join(PushNat(32 * n), Join(PushNat(32 * i), [RETURN]))
    case Quit => [STOP]
  }

  function TestSize(e: Expr): nat { |Compiled(e)| + 35 }

  function CodeSize(p: Stmt): nat {
    match p
    case Set(_, e) => |Compiled(e)| + 34
    case Put(k, e) => |Compiled(e)| + |Compiled(k)| + 1
    case Drop(e) => |Compiled(e)| + 1
    case Seq(a, b) => CodeSize(a) + CodeSize(b)
    case If(e, a, b) => TestSize(e) + CodeSize(a) + 34 + 1 + CodeSize(b) + 1
    case While(e, a) => 1 + TestSize(e) + CodeSize(a) + 34 + 1
    case Give(_, _) => 67
    case Quit => 1
  }

  /** The stack space a program takes. */
  function Space(p: Stmt): nat {
    match p
    case Set(_, e) => Max(Room(e), 2)
    case Put(k, e) => Max(Room(e), Room(k) + 1)
    case Drop(e) => Room(e)
    case Seq(a, b) => Max(Space(a), Space(b))
    case If(e, a, b) => Max(Max(Room(e), 2), Max(Space(a), Space(b)))
    case While(e, a) => Max(Max(Room(e), 2), Space(a))
    case Give(_, _) => 2
    case Quit => 0
  }

  lemma WholeJoin(x: Bytes, y: Bytes)
    requires Whole(x, 0) && Whole(y, 0)
    ensures Whole(Join(x, y), 0)
  {
    hide Whole;
    WholeJoined(x, y, 0);
  }

  lemma PartHere(c: Context, at: nat, x: Bytes, y: Bytes)
    requires Ready(c, at) && Placed(c, at, Join(x, y)) && Whole(x, 0)
    ensures Placed(c, at, x) && Ready(c, at + |x|) && Placed(c, at + |x|, y)
  {
    hide Ready, Whole;
    PlacedParts(c, at, x, y);
    ReadyAgain(c, at, x);
  }

  lemma WholeGoto(d: nat)
    ensures Whole(Goto(d), 0) && |Goto(d)| == 34
  {
    hide Whole, ToHash, PushNat;
    WholeNat(d);
    WholeOne(JUMP);
    WholeJoined(PushNat(d), [JUMP], 0);
  }

  lemma WholeTest(e: Expr, d: nat)
    requires Legal(e)
    ensures Whole(Test(e, d), 0) && |Test(e, d)| == TestSize(e)
  {
    hide Whole, ToHash, PushNat;
    WholeExpr(IsZero(e));
    WholeNat(d);
    WholeOne(JUMPI);
    WholeJoined(Compiled(IsZero(e)), PushNat(d), 0);
    WholeJoined(Compiled(IsZero(e)) + PushNat(d), [JUMPI], 0);
  }

  lemma {:induction false} WholeCode(p: Stmt, at: nat)
    requires Sound(p)
    ensures Whole(Code(p, at), 0)
    decreases p, 1
  {
    hide Whole, ToHash, Test, Goto, PushNat, Join;
    match p
    case Set(i, e) =>
      WholeExpr(e);
      WholeNat(32 * i);
      WholeOne(MSTORE);
      WholeJoin(PushNat(32 * i), [MSTORE]);
      WholeJoin(Compiled(e), Join(PushNat(32 * i), [MSTORE]));
    case Put(k, e) =>
      WholeExpr(e);
      WholeExpr(k);
      WholeJoined(Compiled(e), Compiled(k), 0);
      WholeOne(SSTORE);
      WholeJoin(Compiled(e) + Compiled(k), [SSTORE]);
    case Drop(e) =>
      WholeExpr(e);
      WholeOne(POP);
      WholeJoin(Compiled(e), [POP]);
    case Seq(a, b) =>
      WholeCode(a, at);
      WholeCode(b, at + CodeSize(a));
      WholeJoin(Code(a, at), Code(b, at + CodeSize(a)));
    case If(e, a, b) => WholeIf(e, a, b, at);
    case While(e, a) => WholeWhile(e, a, at);
    case Give(i, n) =>
      WholeNat(32 * n);
      WholeNat(32 * i);
      WholeOne(RETURN);
      WholeJoin(PushNat(32 * i), [RETURN]);
      WholeJoin(PushNat(32 * n), Join(PushNat(32 * i), [RETURN]));
    case Quit => WholeOne(STOP);
  }

  lemma {:induction false} WholeIf(e: Expr, a: Stmt, b: Stmt, at: nat)
    requires Sound(If(e, a, b))
    ensures Whole(Code(If(e, a, b), at), 0)
    decreases If(e, a, b), 0
  {
    hide Whole, ToHash, Test, Goto, Join, TestSize, CodeSize;
    var els := at + TestSize(e) + CodeSize(a) + 34;
    WholeTest(e, els);
    WholeCode(a, at + TestSize(e));
    WholeGoto(els + 1 + CodeSize(b));
    WholeCode(b, els + 1);
    WholeOne(JUMPDEST);
    var x4 := Join(Code(b, els + 1), [JUMPDEST]);
    var x3 := Join([JUMPDEST], x4);
    var x2 := Join(Goto(els + 1 + CodeSize(b)), x3);
    WholeJoin(Code(b, els + 1), [JUMPDEST]);
    WholeJoin([JUMPDEST], x4);
    WholeJoin(Goto(els + 1 + CodeSize(b)), x3);
    WholeJoin(Code(a, at + TestSize(e)), x2);
    WholeJoin(Test(e, els), Join(Code(a, at + TestSize(e)), x2));
  }

  lemma {:induction false} WholeWhile(e: Expr, a: Stmt, at: nat)
    requires Sound(While(e, a))
    ensures Whole(Code(While(e, a), at), 0)
    decreases While(e, a), 0
  {
    hide Whole, ToHash, Test, Goto, Join, TestSize, CodeSize;
    var end := at + 1 + TestSize(e) + CodeSize(a) + 34;
    WholeTest(e, end);
    WholeCode(a, at + 1 + TestSize(e));
    WholeGoto(at);
    WholeOne(JUMPDEST);
    WholeJoin(Goto(at), [JUMPDEST]);
    WholeJoin(Code(a, at + 1 + TestSize(e)), Join(Goto(at), [JUMPDEST]));
    var x := Join(Code(a, at + 1 + TestSize(e)), Join(Goto(at), [JUMPDEST]));
    WholeJoin(Test(e, end), x);
    WholeJoin([JUMPDEST], Join(Test(e, end), x));
  }

  // Pieces of control

  lemma TargetHere(c: Context, d: nat)
    requires Ready(c, d) && Placed(c, d, [JUMPDEST]) && d <= 0xFFFF_FFFF
    ensures Target(c, d)
  {
    hide Starts, JumpDests;
    assert c.code[d..d + 1][0] == JUMPDEST;
  }

  lemma LandDoes(c: Context, gas: nat, w: World, f: Frame)
    requires Ready(c, f.pc) && Placed(c, f.pc, [JUMPDEST])
    ensures Does(c, gas, w, f, 1, w, Frame(f.pc + 1, f.stack, f.mem), 1)
  {
    hide Reaches, Stops;
    PlacedOp(c, f, JUMPDEST);
    if gas >= 1 { Lands(c, gas, w, f); }
    OpDoes(c, gas, w, f, JUMPDEST, w, Frame(f.pc + 1, f.stack, f.mem));
  }

  lemma GotoDoes(c: Context, gas: nat, w: World, f: Frame, d: nat)
    requires Ready(c, f.pc) && Placed(c, f.pc, Goto(d)) && |f.stack| < MAX_STACK
    requires Ready(c, d) && Placed(c, d, [JUMPDEST]) && d <= 0xFFFF_FFFF
    ensures Does(c, gas, w, f, GOTO, w, Frame(d, f.stack, f.mem), 2)
  {
    hide Does, Reaches, Stops, ToHash, Push32, PushNat, Whole, Placed, Target;
    var f1 := Frame(f.pc + 33, f.stack + [d], f.mem);
    PushSize(d);
    PushSmall(d);
    PlacedParts(c, f.pc, Push32(d), [JUMP]);
    WholePush(d);
    ReadyAgain(c, f.pc, Push32(d));
    PlacedOp(c, f1, JUMP);
    TargetHere(c, d);
    PushDoes(c, gas, w, f, d);
    if gas >= 3 {
      if gas - 3 >= 8 { Jumps(c, gas - 3, w, f1, f.stack, d); }
      OpDoes(c, gas - 3, w, f1, JUMP, w, Frame(d, f.stack, f.mem));
    }
    Then(c, gas, w, f, 3, w, f1, 1, 8, w, Frame(d, f.stack, f.mem), 1);
  }

  /** Where a test goes on: behind itself if the condition is not zero, else at `d`. */
  function Branched(f: Frame, e: Expr, d: nat, v: Word): Frame {
    Frame(if v != 0 then f.pc + TestSize(e) else d, f.stack, EnsureMem(f.mem, Extent(e)))
  }

  lemma JumpIfDoes(c: Context, gas: nat, w: World, f: Frame, s: seq<Word>, cond: Word, d: nat)
    requires At(c, f, JUMPI) && d <= 0xFFFF_FFFF && f.stack == s + [cond, d] && Ready(c, d) && Placed(c, d, [JUMPDEST])
    ensures Does(c, gas, w, f, 10, w, Frame(if cond == 0 then f.pc + 1 else d, s, f.mem), 1)
  {
    hide Does, Reaches, Stops, Placed, Target;
    TargetHere(c, d);
    if gas >= 10 { JumpsIf(c, gas, w, f, s, cond, d); }
    OpDoes(c, gas, w, f, JUMPI, w, Frame(if cond == 0 then f.pc + 1 else d, s, f.mem));
  }

  /** The end of a test: the destination is pushed and taken, or not. */
  lemma TestEnds(c: Context, gas: nat, w: World, f: Frame, s: seq<Word>, cond: Word, d: nat)
    requires Ready(c, f.pc) && Placed(c, f.pc, Push32(d % TT256) + [JUMPI]) && f.stack == s + [cond] && |f.stack| < MAX_STACK
    requires Ready(c, d) && Placed(c, d, [JUMPDEST]) && d <= 0xFFFF_FFFF
    ensures Does(c, gas, w, f, 13, w, Frame(if cond == 0 then f.pc + 34 else d, s, f.mem), 2)
  {
    hide Does, ToHash, Push32, Whole, Placed, At;
    assert d % TT256 == d;
    var f1 := Frame(f.pc + 33, s + [cond, d], f.mem);
    PushSize(d);
    PlacedParts(c, f.pc, Push32(d), [JUMPI]);
    WholePush(d);
    ReadyAgain(c, f.pc, Push32(d));
    PlacedOp(c, f1, JUMPI);
    PushDoes(c, gas, w, f, d);
    assert f.stack + [d] == f1.stack;
    if gas >= 3 { JumpIfDoes(c, gas - 3, w, f1, s, cond, d); }
    Then(c, gas, w, f, 3, w, f1, 1, 10, w, Frame(if cond == 0 then f.pc + 34 else d, s, f.mem), 1);
  }

  lemma IsZeroIs(e: Expr, k: Env, w: World, vars: Vars)
    requires Legal(e)
    ensures var z := IsZero(e);
            && Legal(z) && Value(z, k, w, vars) == Flag(Value(e, k, w, vars) == 0) && |Compiled(z)| == |Compiled(e)| + 1
            && Price(z) == Price(e) + 3 && Extent(z) == Extent(e) && Length(z) == Length(e) + 1 && Room(z) == Room(e)
  {
  }

  lemma TestDoes(c: Context, gas: nat, w: World, f: Frame, e: Expr, d: nat, vars: Vars)
    requires Legal(e) && Fit(c, f, Test(e, d), vars, Max(Room(e), 2)) && |c.data| < TT256
    requires Ready(c, d) && Placed(c, d, [JUMPDEST]) && d <= 0xFFFF_FFFF
    ensures Does(c, gas, w, f, Price(e) + TEST, w, Branched(f, e, d, Value(e, EnvOf(c), w, vars)), Length(e) + 3)
  {
    hide Does, ToHash, Push32, Whole, Placed, EnsureMem, Holds, At, Value, Compiled, Price, Extent, Length, Room, Legal;
    var z, v := IsZero(e), Value(e, EnvOf(c), w, vars);
    IsZeroIs(e, EnvOf(c), w, vars);
    var f1 := Leaves(f, z, Flag(v == 0));
    assert Test(e, d) == Compiled(z) + (Push32(d % TT256) + [JUMPI]);
    PlacedParts(c, f.pc, Compiled(z), Push32(d % TT256) + [JUMPI]);
    WholeExpr(z);
    ReadyAgain(c, f.pc, Compiled(z));
    ExpressionsEvaluate(c, gas, w, f, z, vars);
    if Price(z) <= gas { TestEnds(c, gas - Price(z), w, f1, f.stack, Flag(v == 0), d); }
    Then(c, gas, w, f, Price(z), w, f1, Length(z), 13, w, Branched(f, e, d, v), 2);
  }

  // Programs run

  /** The run from `f` turns out as `r`: on at `h`, at address `end` with the given stack, or at an end, or dry. */
  ghost predicate Arrives(c: Context, gas: nat, w: World, f: Frame, end: nat, stack: seq<Word>, r: Ending, h: Frame, n: nat) {
    match r
    case Went(st, g) =>
      Reaches(c, gas, w, f, g, st.world, h, n) && h.pc == end && h.stack == stack && Holds(h.mem, st.vars)
    case Ended(ret, w', g) =>
      Ready(c, f.pc) && var o := Run(c, gas, w, f); o.Done? && o.ret == ret && o.world == w' && o.gas == g
    case Starved => Stops(c, gas, w, f, OutOfGas, 0)
  }

  lemma Prefixed(c: Context, gas: nat, w: World, f: Frame, g1: nat, w1: World, f1: Frame, n1: nat,
                 end: nat, stack: seq<Word>, r: Ending, h: Frame, n: nat)
    requires Reaches(c, gas, w, f, g1, w1, f1, n1) && Arrives(c, g1, w1, f1, end, stack, r, h, n)
    ensures Arrives(c, gas, w, f, end, stack, r, h, n1 + n)
  {
    hide Run, Holds;
    match r
    case Went(st, g) => ReachesFurther(c, gas, w, f, g1, w1, f1, n1, g, st.world, h, n);
    case Ended(_, _, _) =>
    case Starved => StopsThen(c, gas, w, f, g1, w1, f1, n1, OutOfGas, 0);
  }

  /** Something paid for first, then the rest; or dry at once. */
  lemma PaidFirst(c: Context, gas: nat, w: World, f: Frame, price: nat, w1: World, f1: Frame, n1: nat,
                  end: nat, stack: seq<Word>, r: Ending, h: Frame, n: nat)
    requires Does(c, gas, w, f, price, w1, f1, n1)
    requires price <= gas ==> Arrives(c, gas - price, w1, f1, end, stack, r, h, n)
    requires price > gas ==> r.Starved?
    ensures Arrives(c, gas, w, f, end, stack, r, h, n1 + n)
  {
    hide Run, Holds, Reaches, Stops;
    if price <= gas { Prefixed(c, gas, w, f, gas - price, w1, f1, n1, end, stack, r, h, n); }
  }

  /** One program part, then the rest. */
  lemma GoneFirst(c: Context, gas: nat, w: World, f: Frame, mid: nat, stack: seq<Word>, r1: Ending, h1: Frame, n1: nat,
                  end: nat, stack': seq<Word>, r: Ending, h: Frame, n: nat)
    requires Arrives(c, gas, w, f, mid, stack, r1, h1, n1)
    requires r1.Went? ==> Arrives(c, r1.gas, r1.st.world, h1, end, stack', r, h, n)
    requires !r1.Went? ==> r == r1
    ensures Arrives(c, gas, w, f, end, stack', r, h, n1 + n)
  {
    hide Run, Holds, Reaches, Stops;
    if r1.Went? { Prefixed(c, gas, w, f, r1.gas, r1.st.world, h1, n1, end, stack', r, h, n); }
  }

  lemma Settled(c: Context, gas: nat, w: World, f: Frame, price: nat, g: Frame, n: nat, st: Store)
    requires Does(c, gas, w, f, price, st.world, g, n) && Holds(g.mem, st.vars)
    ensures Arrives(c, gas, w, f, g.pc, g.stack, Paid(st, gas, price), g, n)
  {
    hide Run, Holds, Reaches, Stops;
  }

  lemma Written(mem: Bytes, i: nat, v: Word, vars: Vars) returns (m: Bytes)
    requires Holds(mem, vars)
    ensures WrittenAt(mem, 32 * i, ToHash(v), m, if |mem| > 32 * i + 32 then |mem| else 32 * i + 32) && Holds(m, vars[i := v])
  {
    hide ToHash;
    m := Splice(EnsureMem(mem, 32 * i + 32), 32 * i, ToHash(v));
    forall j: nat
      ensures Spells(m, 32 * j, VarAt(vars[i := v], j))
    {
      assert Spells(mem, 32 * j, VarAt(vars, j));
    }
  }

  lemma StoreDoes(c: Context, gas: nat, w: World, f: Frame, s: seq<Word>, i: nat, v: Word, vars: Vars) returns (g: Frame)
    requires i < MAX_VARS && Ready(c, f.pc) && Placed(c, f.pc, Join(Push32(32 * i), [MSTORE])) && Holds(f.mem, vars)
    requires f.stack == s + [v] && |f.stack| < MAX_STACK
    ensures Does(c, gas, w, f, 6, w, g, 2) && g.pc == f.pc + 34 && g.stack == s && Holds(g.mem, vars[i := v])
  {
    hide Does, Reaches, Stops, ToHash, Push32, PushNat, Whole, Placed, Holds, WrittenAt, Join;
    var f1 := Frame(f.pc + 33, s + [v, 32 * i], f.mem);
    PushSize(32 * i);
    WholePush(32 * i);
    PartHere(c, f.pc, Push32(32 * i), [MSTORE]);
    PlacedOp(c, f1, MSTORE);
    PushDoes(c, gas, w, f, 32 * i);
    assert f.stack + [32 * i] == f1.stack;
    var m := Written(f.mem, i, v, vars);
    g := Frame(f.pc + 34, s, m);
    if gas >= 3 {
      if gas - 3 >= 3 { WritesMemory(c, gas - 3, w, f1, s, 32 * i, v, m); }
      OpDoes(c, gas - 3, w, f1, MSTORE, w, g);
    }
    Then(c, gas, w, f, 3, w, f1, 1, 3, w, g, 1);
  }

  lemma SetRuns(c: Context, gas: nat, f: Frame, i: nat, e: Expr, st: Store) returns (h: Frame, n: nat)
    requires i < MAX_VARS && Legal(e) && |c.data| < TT256
    requires Fit(c, f, Join(Compiled(e), Join(Push32(32 * i), [MSTORE])), st.vars, Max(Room(e), 2))
    ensures var st' := Assigned(st, i, Value(e, EnvOf(c), st.world, st.vars));
            Arrives(c, gas, st.world, f, f.pc + |Compiled(e)| + 34, f.stack, Paid(st', gas, Price(e) + 6), h, n)
  {
    hide Does, ToHash, Push32, PushNat, Whole, Placed, Holds, Value, EnsureMem, Arrives, Compiled, Price, Length, Extent, Room, Legal, Join;
    var v := Value(e, EnvOf(c), st.world, st.vars);
    var f1 := Leaves(f, e, v);
    WholeExpr(e);
    PartHere(c, f.pc, Compiled(e), Join(Push32(32 * i), [MSTORE]));
    GrowsKeeps(f.mem, Extent(e), st.vars);
    ExpressionsEvaluate(c, gas, st.world, f, e, st.vars);
    h := StoreDoes(c, if Price(e) <= gas then gas - Price(e) else 0, st.world, f1, f.stack, i, v, st.vars);
    Then(c, gas, st.world, f, Price(e), st.world, f1, Length(e), 6, st.world, h, 2);
    n := Length(e) + 2;
    Settled(c, gas, st.world, f, Price(e) + 6, h, n, Assigned(st, i, v));
  }

  lemma PutRuns(c: Context, gas: nat, f: Frame, k: Expr, e: Expr, st: Store) returns (h: Frame, n: nat)
    requires Legal(k) && Legal(e) && |c.data| < TT256
    requires Fit(c, f, Join(Compiled(e) + Compiled(k), [SSTORE]), st.vars, Max(Room(e), Room(k) + 1))
    ensures Arrives(c, gas, st.world, f, f.pc + |Compiled(e)| + |Compiled(k)| + 1, f.stack,
                    Paid(Stored(st, k, e, EnvOf(c)), gas, Price(e) + Price(k) + 5000), h, n)
  {
    hide Does, ToHash, PushNat, Whole, Placed, Holds, Value, EnsureMem, Arrives, Ready, At, Compiled, Price, Length, Extent, Room, Legal, Join;
    var a, v := Value(k, EnvOf(c), st.world, st.vars), Value(e, EnvOf(c), st.world, st.vars);
    var f1 := LeavesPair(f, e, k, EnvOf(c), st.world, st.vars);
    var st' := Stored(st, k, e, EnvOf(c));
    WholeExpr(e);
    WholeExpr(k);
    WholeJoined(Compiled(e), Compiled(k), 0);
    PartHere(c, f.pc, Compiled(e) + Compiled(k), [SSTORE]);
    PairEvaluates(c, gas, st.world, f, e, k, st.vars);
    PlacedOp(c, f1, SSTORE);
    GrowsKeeps(f.mem, Max(Extent(e), Extent(k)), st.vars);
    h := Frame(f1.pc + 1, f.stack, f1.mem);
    var p := Price(e) + Price(k);
    if p <= gas { SlotDoes(c, gas - p, st.world, f1, f.stack, a, v); }
    Then(c, gas, st.world, f, p, st.world, f1, Length(e) + Length(k), 5000, st'.world, h, 1);
    n := Length(e) + Length(k) + 1;
    Settled(c, gas, st.world, f, p + 5000, h, n, st');
  }

  lemma SlotDoes(c: Context, gas: nat, w: World, f: Frame, s: seq<Word>, k: Word, v: Word)
    requires At(c, f, SSTORE) && f.stack == s + [v, k]
    ensures Does(c, gas, w, f, 5000, WithWord(w, c.self, ToHash(k), ToHash(v)), Frame(f.pc + 1, s, f.mem), 1)
  {
    hide Reaches, Stops, ToHash;
    if gas >= 5000 { WritesSlot(c, gas, w, f, s, k, v); }
    OpDoes(c, gas, w, f, SSTORE, WithWord(w, c.self, ToHash(k), ToHash(v)), Frame(f.pc + 1, s, f.mem));
  }

  lemma DropRuns(c: Context, gas: nat, f: Frame, e: Expr, st: Store) returns (h: Frame, n: nat)
    requires Legal(e) && Fit(c, f, Join(Compiled(e), [POP]), st.vars, Room(e)) && |c.data| < TT256
    ensures Arrives(c, gas, st.world, f, f.pc + |Compiled(e)| + 1, f.stack, Paid(st, gas, Price(e) + 2), h, n)
  {
    hide Does, ToHash, PushNat, Whole, Placed, Holds, Value, EnsureMem, Arrives, Ready, At, Compiled, Price, Length, Extent, Room, Legal, Join;
    var v := Value(e, EnvOf(c), st.world, st.vars);
    var f1 := Leaves(f, e, v);
    WholeExpr(e);
    PartHere(c, f.pc, Compiled(e), [POP]);
    PlacedOp(c, f1, POP);
    GrowsKeeps(f.mem, Extent(e), st.vars);
    ExpressionsEvaluate(c, gas, st.world, f, e, st.vars);
    h := Frame(f1.pc + 1, f.stack, f1.mem);
    if Price(e) <= gas { PopDoes(c, gas - Price(e), st.world, f1, f.stack, v); }
    Then(c, gas, st.world, f, Price(e), st.world, f1, Length(e), 2, st.world, h, 1);
    n := Length(e) + 1;
    Settled(c, gas, st.world, f, Price(e) + 2, h, n, st);
  }

  lemma PopDoes(c: Context, gas: nat, w: World, f: Frame, s: seq<Word>, v: Word)
    requires At(c, f, POP) && f.stack == s + [v]
    ensures Does(c, gas, w, f, 2, w, Frame(f.pc + 1, s, f.mem), 1)
  {
    hide Reaches, Stops;
    if gas >= 2 { Drops(c, gas, w, f, s, v); }
    OpDoes(c, gas, w, f, POP, w, Frame(f.pc + 1, s, f.mem));
  }

  lemma {:induction false} WordsHeld(mem: Bytes, vars: Vars, i: nat, n: nat, j: nat)
    requires Holds(mem, vars) && i <= n && j < 32 * (n - i)
    ensures Words(vars, i, n)[j] == if 32 * i + j < |mem| then mem[32 * i + j] else 0
    decreases n - i
  {
    hide ToHash;
    if j < 32 {
      assert Spells(mem, 32 * i, VarAt(vars, i));
      assert 32 * i + j == (32 * i) + j;
    } else {
      WordsHeld(mem, vars, i + 1, n, j - 32);
    }
  }

  function Given(st: Store, i: nat, m: nat, gas: nat): Ending {
    if 6 <= gas then Ended(Words(st.vars, i, i + m), st.world, gas - 6) else Starved
  }

  lemma GiveRuns(c: Context, gas: nat, f: Frame, i: nat, m: nat, st: Store)
    requires i + m <= MAX_VARS && Fit(c, f, Join(Push32(32 * m), Join(Push32(32 * i), [RETURN])), st.vars, 2)
    ensures Arrives(c, gas, st.world, f, f.pc + 67, f.stack, Given(st, i, m, gas), f, 0)
  {
    hide Does, ToHash, Push32, Whole, Placed, Holds, Words, Run, Ready, At, Given, Join;
    var x, y := 32 * m, 32 * i;
    PushSize(x);
    WholePush(x);
    WholePush(y);
    PartHere(c, f.pc, Push32(x), Join(Push32(y), [RETURN]));
    PartHere(c, f.pc + 33, Push32(y), [RETURN]);
    var f1, f2 := Frame(f.pc + 33, f.stack + [x], f.mem), Frame(f.pc + 66, f.stack + [x, y], f.mem);
    PushSize(y);
    PlacedOp(c, f2, RETURN);
    PushDoes(c, gas, st.world, f, x);
    if gas >= 3 { PushDoes(c, gas - 3, st.world, f1, y); }
    assert f1.stack + [y] == f2.stack;
    Then(c, gas, st.world, f, 3, st.world, f1, 1, 3, st.world, f2, 1);
    if gas >= 6 { Returns(c, gas - 6, st.world, f2, f.stack, y, x); }
    GiveEnds(c, gas, f, f2, i, m, st);
  }

  lemma GiveEnds(c: Context, gas: nat, f: Frame, f2: Frame, i: nat, m: nat, st: Store)
    requires i + m <= MAX_VARS && Holds(f.mem, st.vars) && f2.mem == f.mem && Ready(c, f2.pc)
    requires Does(c, gas, st.world, f, 6, st.world, f2, 2)
    requires gas >= 6 ==>
               var o := Run(c, gas - 6, st.world, f2);
               && o.Done? && o.world == st.world && o.gas == gas - 6 && |o.ret| == 32 * m
               && forall j | 0 <= j < 32 * m :: o.ret[j] == if 32 * i + j < |f.mem| then f.mem[32 * i + j] else 0
    ensures Arrives(c, gas, st.world, f, f.pc + 67, f.stack, Given(st, i, m, gas), f, 0)
  {
    hide Run, Holds, Words, Ready;
    if gas >= 6 {
      var ret := Run(c, gas - 6, st.world, f2).ret;
      forall j | 0 <= j < 32 * m
        ensures ret[j] == Words(st.vars, i, i + m)[j]
      {
        WordsHeld(f.mem, st.vars, i, i + m, j);
      }
      assert ret == Words(st.vars, i, i + m);
    }
  }

  lemma QuitRuns(c: Context, gas: nat, f: Frame, st: Store)
    requires Ready(c, f.pc) && Placed(c, f.pc, [STOP])
    ensures Arrives(c, gas, st.world, f, f.pc + 1, f.stack, Ended([], st.world, gas), f, 0)
  {
    hide Run;
    PlacedOp(c, f, STOP);
    Halts(c, gas, st.world, f);
  }

  // Branches and loops

  /** The six parts of a branch, each in its place. */
  ghost predicate IfThere(c: Context, at: nat, e: Expr, a: Stmt, b: Stmt) {
    var then', els := at + TestSize(e), at + TestSize(e) + CodeSize(a) + 34;
    var end := els + 1 + CodeSize(b);
    && Placed(c, at, Test(e, els))
    && Ready(c, then') && Placed(c, then', Code(a, then'))
    && Ready(c, els - 34) && Placed(c, els - 34, Goto(end))
    && Ready(c, els) && Placed(c, els, [JUMPDEST])
    && Ready(c, els + 1) && Placed(c, els + 1, Code(b, els + 1))
    && Ready(c, end) && Placed(c, end, [JUMPDEST]) && Ready(c, end + 1)
  }

  lemma SoundParts(e: Expr, a: Stmt, b: Stmt)
    ensures Sound(If(e, a, b)) ==> Legal(e) && Sound(a) && Sound(b)
    ensures Sound(While(e, a)) ==> Legal(e) && Sound(a)
  {
    hide Legal;
  }

  lemma IfIs(e: Expr, a: Stmt, b: Stmt, at: nat)
    ensures var then', els := at + TestSize(e), at + TestSize(e) + CodeSize(a) + 34;
            Code(If(e, a, b), at) ==
            Join(Test(e, els), Join(Code(a, then'), Join(Goto(els + 1 + CodeSize(b)),
                 Join([JUMPDEST], Join(Code(b, els + 1), [JUMPDEST])))))
  {
    hide Test, Goto, Join, TestSize, CodeSize, Compiled, PushNat;
  }

  lemma IfPlaced(c: Context, at: nat, e: Expr, a: Stmt, b: Stmt)
    requires Sound(If(e, a, b)) && Ready(c, at) && Placed(c, at, Code(If(e, a, b), at))
    ensures IfThere(c, at, e, a, b)
  {
    hide Placed, Whole, Ready, Goto, Test, Code, TestSize, CodeSize, Sound, Legal, Join, Compiled, PushNat;
    SoundParts(e, a, b);
    var then', els := at + TestSize(e), at + TestSize(e) + CodeSize(a) + 34;
    var end := els + 1 + CodeSize(b);
    IfIs(e, a, b, at);
    WholeTest(e, els);
    WholeCode(a, then');
    WholeGoto(end);
    WholeOne(JUMPDEST);
    WholeCode(b, els + 1);
    var x4 := Join(Code(b, els + 1), [JUMPDEST]);
    var x3 := Join([JUMPDEST], x4);
    var x2 := Join(Goto(end), x3);
    PartHere(c, at, Test(e, els), Join(Code(a, then'), x2));
    PartHere(c, then', Code(a, then'), x2);
    PartHere(c, els - 34, Goto(end), x3);
    PartHere(c, els, [JUMPDEST], x4);
    PartHere(c, els + 1, Code(b, els + 1), [JUMPDEST]);
    ReadyAgain(c, end, [JUMPDEST]);
  }

  /** The five parts of a loop, each in its place. */
  ghost predicate WhileThere(c: Context, at: nat, e: Expr, a: Stmt) {
    var body, end := at + 1 + TestSize(e), at + 1 + TestSize(e) + CodeSize(a) + 34;
    && Ready(c, at) && Placed(c, at, [JUMPDEST])
    && Ready(c, at + 1) && Placed(c, at + 1, Test(e, end))
    && Ready(c, body) && Placed(c, body, Code(a, body))
    && Ready(c, end - 34) && Placed(c, end - 34, Goto(at))
    && Ready(c, end) && Placed(c, end, [JUMPDEST]) && Ready(c, end + 1)
  }

  lemma WhileIs(e: Expr, a: Stmt, at: nat)
    ensures var body, end := at + 1 + TestSize(e), at + 1 + TestSize(e) + CodeSize(a) + 34;
            Code(While(e, a), at) == Join([JUMPDEST], Join(Test(e, end), Join(Code(a, body), Join(Goto(at), [JUMPDEST]))))
  {
    hide Test, Goto, Join, TestSize, CodeSize, Compiled, PushNat;
  }

  lemma WhilePlaced(c: Context, at: nat, e: Expr, a: Stmt)
    requires Sound(While(e, a)) && Ready(c, at) && Placed(c, at, Code(While(e, a), at))
    ensures WhileThere(c, at, e, a)
  {
    hide Placed, Whole, Ready, Goto, Test, Code, TestSize, CodeSize, Sound, Legal, Join, Compiled, PushNat;
    SoundParts(e, a, a);
    var body, end := at + 1 + TestSize(e), at + 1 + TestSize(e) + CodeSize(a) + 34;
    WhileIs(e, a, at);
    WholeOne(JUMPDEST);
    WholeTest(e, end);
    WholeCode(a, body);
    WholeGoto(at);
    var x3 := Join(Goto(at), [JUMPDEST]);
    var x2 := Join(Code(a, body), x3);
    PartHere(c, at, [JUMPDEST], Join(Test(e, end), x2));
    PartHere(c, at + 1, Test(e, end), x2);
    PartHere(c, body, Code(a, body), x3);
    PartHere(c, end - 34, Goto(at), [JUMPDEST]);
    ReadyAgain(c, end, [JUMPDEST]);
  }

  /** After a part that went on at `f`, a jump back or over. */
  lemma JumpRuns(c: Context, gas: nat, f: Frame, d: nat, st: Store)
    requires Ready(c, f.pc) && Placed(c, f.pc, Goto(d)) && |f.stack| < MAX_STACK && Holds(f.mem, st.vars)
    requires Ready(c, d) && Placed(c, d, [JUMPDEST]) && d <= 0xFFFF_FFFF
    ensures Arrives(c, gas, st.world, f, d, f.stack, Paid(st, gas, GOTO), Frame(d, f.stack, f.mem), 2)
  {
    hide Does, Placed, Goto, Ready, Holds, Arrives;
    GotoDoes(c, gas, st.world, f, d);
    Settled(c, gas, st.world, f, GOTO, Frame(d, f.stack, f.mem), 2, st);
  }

  lemma LandRuns(c: Context, gas: nat, f: Frame, st: Store)
    requires Ready(c, f.pc) && Placed(c, f.pc, [JUMPDEST]) && Holds(f.mem, st.vars)
    ensures Arrives(c, gas, st.world, f, f.pc + 1, f.stack, Paid(st, gas, 1), Frame(f.pc + 1, f.stack, f.mem), 1)
  {
    hide Does, Placed, Ready, Holds, Arrives;
    LandDoes(c, gas, st.world, f);
    Settled(c, gas, st.world, f, 1, Frame(f.pc + 1, f.stack, f.mem), 1, st);
  }

  /** A part that turned out as `r1`, then something to pay for. */
  lemma OnwardRuns(c: Context, gas: nat, w: World, f: Frame, mid: nat, stack: seq<Word>, r1: Ending, h1: Frame, n1: nat,
                   end: nat, price: nat, h: Frame, n: nat)
    requires Arrives(c, gas, w, f, mid, stack, r1, h1, n1)
    requires r1.Went? ==> Arrives(c, r1.gas, r1.st.world, h1, end, stack, Paid(r1.st, r1.gas, price), h, n)
    ensures Arrives(c, gas, w, f, end, stack, Onward(r1, price), h, n1 + n)
  {
    hide Arrives;
    GoneFirst(c, gas, w, f, mid, stack, r1, h1, n1, end, stack, Onward(r1, price), h, n);
  }

  /**
   Wherever it is placed, on whatever stack, the code of a program does what the program does: it goes on behind
   itself with the variables and the storage the program leaves, it ends with what the program returns, or it runs
   out of gas, in each case exactly when the program does and with the gas the program leaves.
   */
  lemma {:induction false} ProgramsRun(c: Context, gas: nat, f: Frame, p: Stmt, st: Store) returns (h: Frame, n: nat)
    requires Sound(p) && Fit(c, f, Code(p, f.pc), st.vars, Space(p)) && |c.data| < TT256 && f.pc + CodeSize(p) <= 0xFFFF_FFFF
    ensures Arrives(c, gas, st.world, f, f.pc + CodeSize(p), f.stack, Exec(p, EnvOf(c), st, gas), h, n)
    decreases gas, p, 1
  {
    hide Exec, Code, Compiled, Value, Price, Room, Arrives, Holds, Ready, Placed, IfThere, WhileThere;
    match p {
      case Seq(a, b) => h, n := SeqRuns(c, gas, f, a, b, st);
      case If(e, a, b) =>
        IfPlaced(c, f.pc, e, a, b);
        h, n := IfRuns(c, gas, f, e, a, b, st);
      case While(e, a) =>
        WhilePlaced(c, f.pc, e, a);
        h, n := WhileRuns(c, gas, f, e, a, st);
      case _ => h, n := SimpleRuns(c, gas, f, p, st);
    }
  }

  predicate Simple(p: Stmt) { !p.Seq? && !p.If? && !p.While? }

  lemma SimpleRuns(c: Context, gas: nat, f: Frame, p: Stmt, st: Store) returns (h: Frame, n: nat)
    requires Simple(p) && Sound(p) && Fit(c, f, Code(p, f.pc), st.vars, Space(p)) && |c.data| < TT256
    ensures Arrives(c, gas, st.world, f, f.pc + CodeSize(p), f.stack, Exec(p, EnvOf(c), st, gas), h, n)
  {
    hide Arrives, ToHash, Holds, Ready, Placed, Value, Compiled, Price, Room, Legal, Push32, PushNat, Words, Given, Paid, EnsureMem, Join, Test, Goto, TestSize;
    match p {
      case Set(i, e) =>
        PushSmall(32 * i);
        h, n := SetRuns(c, gas, f, i, e, st);
      case Put(k, e) => h, n := PutRuns(c, gas, f, k, e, st);
      case Drop(e) => h, n := DropRuns(c, gas, f, e, st);
      case Give(i, m) =>
        PushSmall(32 * i);
        PushSmall(32 * m);
        GiveRuns(c, gas, f, i, m, st);
        h, n := f, 0;
      case Quit =>
        QuitRuns(c, gas, f, st);
        h, n := f, 0;
    }
  }

  lemma {:induction false} SeqRuns(c: Context, gas: nat, f: Frame, a: Stmt, b: Stmt, st: Store) returns (h: Frame, n: nat)
    requires var p := Seq(a, b);
             Sound(p) && Fit(c, f, Code(p, f.pc), st.vars, Space(p)) && |c.data| < TT256 && f.pc + CodeSize(p) <= 0xFFFF_FFFF
    ensures Arrives(c, gas, st.world, f, f.pc + CodeSize(Seq(a, b)), f.stack, Exec(Seq(a, b), EnvOf(c), st, gas), h, n)
    decreases gas, Seq(a, b), 0
  {
    hide ToHash, Holds, Placed, Whole, Arrives, Exec, Code, Ready, CodeSize, Space, Sound, Join, Compiled, PushNat, Value, Price,
         Room, Legal;
    SeqIs(a, b, EnvOf(c), st, gas, f.pc);
    var r1, mid := Exec(a, EnvOf(c), st, gas), f.pc + CodeSize(a);
    WholeCode(a, f.pc);
    PartHere(c, f.pc, Code(a, f.pc), Code(b, mid));
    var h1, n1 := ProgramsRun(c, gas, f, a, st);
    h, n := h1, 0;
    if r1.Went? {
      ArrivedAt(c, gas, st.world, f, mid, f.stack, r1, h1, n1);
      h, n := ProgramsRun(c, r1.gas, h1, b, r1.st);
    }
    GoneFirst(c, gas, st.world, f, mid, f.stack, r1, h1, n1,
              mid + CodeSize(b), f.stack, Exec(Seq(a, b), EnvOf(c), st, gas), h, n);
    n := n1 + n;
  }

  lemma SeqIs(a: Stmt, b: Stmt, k: Env, st: Store, gas: nat, at: nat)
    requires Sound(Seq(a, b))
    ensures Sound(a) && Sound(b) && CodeSize(Seq(a, b)) == CodeSize(a) + CodeSize(b)
    ensures Space(a) <= Space(Seq(a, b)) && Space(b) <= Space(Seq(a, b))
    ensures Code(Seq(a, b), at) == Join(Code(a, at), Code(b, at + CodeSize(a)))
    ensures var r1 := Exec(a, k, st, gas);
            Exec(Seq(a, b), k, st, gas) == (if r1.Went? then Exec(b, k, r1.st, r1.gas) else r1) && (r1.Went? ==> r1.gas <= gas)
  {
    hide Join, Compiled, PushNat, Test, Goto, TestSize, Room, Legal, Value, Price, Paid, Onward, Given, Assigned, Stored;
  }

  lemma ArrivedAt(c: Context, gas: nat, w: World, f: Frame, end: nat, stack: seq<Word>, r: Ending, h: Frame, n: nat)
    requires r.Went? && Arrives(c, gas, w, f, end, stack, r, h, n)
    ensures Ready(c, end) && h.pc == end && h.stack == stack && Holds(h.mem, r.st.vars)
  {
    hide Run, Holds, Ready;
  }

  lemma IfExec(e: Expr, a: Stmt, b: Stmt, k: Env, st: Store, gas: nat)
    requires Sound(If(e, a, b))
    ensures var v, t, r := Value(e, k, st.world, st.vars), Price(e) + TEST, Exec(If(e, a, b), k, st, gas);
            if gas < t then r == Starved
            else if v != 0 then r == Onward(Exec(a, k, st, gas - t), GOTO + 1)
            else if gas - t < 1 then r == Starved
            else r == Onward(Exec(b, k, st, gas - t - 1), 1)
    ensures CodeSize(If(e, a, b)) == TestSize(e) + CodeSize(a) + 34 + 1 + CodeSize(b) + 1
    ensures Space(If(e, a, b)) == Max(Max(Room(e), 2), Max(Space(a), Space(b)))
  {
    hide Compiled, PushNat, Test, Goto, TestSize, Room, Legal, Value, Price, Paid, Onward, Given, Assigned, Stored;
  }

  /** The branch taken: its code, and the jump over the other one. */
  lemma {:induction false} ThenRuns(c: Context, gas: nat, f: Frame, a: Stmt, st: Store, end: nat) returns (h: Frame, n: nat)
    requires Sound(a) && Fit(c, f, Code(a, f.pc), st.vars, Space(a)) && |c.data| < TT256 && |f.stack| < MAX_STACK
    requires var mid := f.pc + CodeSize(a);
             Ready(c, mid) && Placed(c, mid, Goto(end)) && Ready(c, end) && Placed(c, end, [JUMPDEST]) && mid < end < 0xFFFF_FFFF
    ensures Arrives(c, gas, st.world, f, end + 1, f.stack, Onward(Exec(a, EnvOf(c), st, gas), GOTO + 1), h, n)
    decreases gas, a, 2
  {
    hide ToHash, Holds, Placed, Whole, Arrives, Exec, Code, Ready, CodeSize, Space, Sound, Goto, Paid;
    var mid, r1 := f.pc + CodeSize(a), Exec(a, EnvOf(c), st, gas);
    var h1, n1 := ProgramsRun(c, gas, f, a, st);
    h, n := h1, 0;
    if r1.Went? {
      ArrivedAt(c, gas, st.world, f, mid, f.stack, r1, h1, n1);
      h := Frame(end + 1, f.stack, h1.mem);
      OverRuns(c, r1.gas, h1, end, r1.st);
      n := 3;
    }
    OnwardRuns(c, gas, st.world, f, mid, f.stack, r1, h1, n1, end + 1, GOTO + 1, h, n);
    n := n1 + n;
  }

  lemma OverRuns(c: Context, gas: nat, f: Frame, end: nat, st: Store)
    requires Ready(c, f.pc) && Placed(c, f.pc, Goto(end)) && |f.stack| < MAX_STACK && Holds(f.mem, st.vars)
    requires Ready(c, end) && Placed(c, end, [JUMPDEST]) && end <= 0xFFFF_FFFF
    ensures Arrives(c, gas, st.world, f, end + 1, f.stack, Paid(st, gas, GOTO + 1), Frame(end + 1, f.stack, f.mem), 3)
  {
    hide Does, Placed, Goto, Ready, Holds, Arrives;
    var f1 := Frame(end, f.stack, f.mem);
    GotoDoes(c, gas, st.world, f, end);
    if GOTO <= gas { LandDoes(c, gas - GOTO, st.world, f1); }
    Then(c, gas, st.world, f, GOTO, st.world, f1, 2, 1, st.world, Frame(end + 1, f.stack, f.mem), 1);
    Settled(c, gas, st.world, f, GOTO + 1, Frame(end + 1, f.stack, f.mem), 3, st);
  }

  /** The branch jumped to: its landing, its code, and the landing behind it. */
  lemma {:induction false} ElseRuns(c: Context, gas: nat, f: Frame, b: Stmt, st: Store) returns (h: Frame, n: nat)
    requires Sound(b) && Ready(c, f.pc) && Placed(c, f.pc, [JUMPDEST]) && Ready(c, f.pc + 1) && Placed(c, f.pc + 1, Code(b, f.pc + 1))
    requires Holds(f.mem, st.vars) && |f.stack| + Space(b) <= MAX_STACK && |c.data| < TT256
    requires var end := f.pc + 1 + CodeSize(b); Ready(c, end) && Placed(c, end, [JUMPDEST]) && end < 0xFFFF_FFFF
    ensures var r := if gas < 1 then Starved else Onward(Exec(b, EnvOf(c), st, gas - 1), 1);
            Arrives(c, gas, st.world, f, f.pc + CodeSize(b) + 2, f.stack, r, h, n)
    decreases gas, b, 2
  {
    hide ToHash, Holds, Placed, Whole, Arrives, Exec, Code, Ready, CodeSize, Space, Sound, Paid, Does, Onward;
    var f1, end := Frame(f.pc + 1, f.stack, f.mem), f.pc + 1 + CodeSize(b);
    var r := if gas < 1 then Starved else Onward(Exec(b, EnvOf(c), st, gas - 1), 1);
    LandDoes(c, gas, st.world, f);
    h, n := f1, 0;
    if gas >= 1 {
      var r1 := Exec(b, EnvOf(c), st, gas - 1);
      var h1, n1 := ProgramsRun(c, gas - 1, f1, b, st);
      h := h1;
      if r1.Went? {
        ArrivedAt(c, gas - 1, st.world, f1, end, f.stack, r1, h1, n1);
        h, n := Frame(end + 1, f.stack, h1.mem), 1;
        LandRuns(c, r1.gas, h1, r1.st);
      }
      OnwardRuns(c, gas - 1, st.world, f1, end, f.stack, r1, h1, n1, end + 1, 1, h, n);
      n := n1 + n;
    }
    PaidFirst(c, gas, st.world, f, 1, st.world, f1, 1, end + 1, f.stack, r, h, n);
    n := 1 + n;
  }

  lemma {:induction false} IfRuns(c: Context, gas: nat, f: Frame, e: Expr, a: Stmt, b: Stmt, st: Store) returns (h: Frame, n: nat)
    requires Sound(If(e, a, b)) && Ready(c, f.pc) && IfThere(c, f.pc, e, a, b) && |c.data| < TT256
    requires Holds(f.mem, st.vars) && |f.stack| + Space(If(e, a, b)) <= MAX_STACK && f.pc + CodeSize(If(e, a, b)) <= 0xFFFF_FFFF
    ensures Arrives(c, gas, st.world, f, f.pc + CodeSize(If(e, a, b)), f.stack, Exec(If(e, a, b), EnvOf(c), st, gas), h, n)
    decreases gas, If(e, a, b), 0
  {
    hide ToHash, Holds, Placed, Whole, Exec, Code, Ready, Value, Compiled, PushNat, Test, Goto, Onward, Arrives, EnsureMem, Does,
         CodeSize, TestSize, Space, Price, Length, Extent, Room, Legal, Sound;
    SoundParts(e, a, b);
    IfExec(e, a, b, EnvOf(c), st, gas);
    var v, t := Value(e, EnvOf(c), st.world, st.vars), Price(e) + TEST;
    var r := Exec(If(e, a, b), EnvOf(c), st, gas);
    var els := f.pc + TestSize(e) + CodeSize(a) + 34;
    var end := els + 1 + CodeSize(b);
    var f1 := Branched(f, e, els, v);
    TestDoes(c, gas, st.world, f, e, els, st.vars);
    GrowsKeeps(f.mem, Extent(e), st.vars);
    h, n := f1, 0;
    if gas >= t {
      if v != 0 {
        h, n := ThenRuns(c, gas - t, f1, a, st, end);
      } else {
        h, n := ElseRuns(c, gas - t, f1, b, st);
      }
    }
    PaidFirst(c, gas, st.world, f, t, st.world, f1, Length(e) + 3, end + 1, f.stack, r, h, n);
    n := Length(e) + 3 + n;
  }

  lemma WhileExec(e: Expr, a: Stmt, k: Env, st: Store, gas: nat)
    requires Sound(While(e, a))
    ensures var v, t, r := Value(e, k, st.world, st.vars), 1 + (Price(e) + TEST), Exec(While(e, a), k, st, gas);
            if gas < t then r == Starved
            else if v == 0 then r == Paid(st, gas - t, 1)
            else
              var r1 := Onward(Exec(a, k, st, gas - t), GOTO);
              r == (if r1.Went? then Exec(While(e, a), k, r1.st, r1.gas) else r1) && (r1.Went? ==> r1.gas < gas)
    ensures CodeSize(While(e, a)) == 1 + TestSize(e) + CodeSize(a) + 34 + 1
    ensures Space(While(e, a)) == Max(Max(Room(e), 2), Space(a))
  {
    hide Compiled, PushNat, Test, Goto, TestSize, Room, Legal, Value, Price, Given, Assigned, Stored;
  }

  /** Once round a loop: the body, and the jump back. */
  lemma {:induction false} RoundRuns(c: Context, gas: nat, f: Frame, a: Stmt, st: Store, top: nat) returns (h: Frame, n: nat)
    requires Sound(a) && Fit(c, f, Code(a, f.pc), st.vars, Space(a)) && |c.data| < TT256 && |f.stack| < MAX_STACK
    requires f.pc + CodeSize(a) <= 0xFFFF_FFFF
    requires var mid := f.pc + CodeSize(a);
             Ready(c, mid) && Placed(c, mid, Goto(top)) && Ready(c, top) && Placed(c, top, [JUMPDEST]) && top < mid
    ensures Arrives(c, gas, st.world, f, top, f.stack, Onward(Exec(a, EnvOf(c), st, gas), GOTO), h, n)
    decreases gas, a, 2
  {
    hide ToHash, Holds, Placed, Whole, Arrives, Exec, Code, Ready, CodeSize, Space, Sound, Goto, Paid;
    var mid, r1 := f.pc + CodeSize(a), Exec(a, EnvOf(c), st, gas);
    var h1, n1 := ProgramsRun(c, gas, f, a, st);
    h, n := h1, 0;
    if r1.Went? {
      ArrivedAt(c, gas, st.world, f, mid, f.stack, r1, h1, n1);
      h := Frame(top, f.stack, h1.mem);
      JumpRuns(c, r1.gas, h1, top, r1.st);
      n := 2;
    }
    OnwardRuns(c, gas, st.world, f, mid, f.stack, r1, h1, n1, top, GOTO, h, n);
    n := n1 + n;
  }

  lemma {:induction false} WhileRuns(c: Context, gas: nat, f: Frame, e: Expr, a: Stmt, st: Store) returns (h: Frame, n: nat)
    requires Sound(While(e, a)) && WhileThere(c, f.pc, e, a) && |c.data| < TT256
    requires Holds(f.mem, st.vars) && |f.stack| + Space(While(e, a)) <= MAX_STACK && f.pc + CodeSize(While(e, a)) <= 0xFFFF_FFFF
    ensures Arrives(c, gas, st.world, f, f.pc + CodeSize(While(e, a)), f.stack, Exec(While(e, a), EnvOf(c), st, gas), h, n)
    decreases gas, While(e, a), 0
  {
    hide ToHash, Holds, Placed, Whole, Exec, Code, Ready, Value, Compiled, PushNat, Test, Goto, Onward, Arrives, EnsureMem, Does,
         CodeSize, TestSize, Space, Price, Length, Extent, Room, Legal, Sound, Paid;
    SoundParts(e, a, a);
    WhileExec(e, a, EnvOf(c), st, gas);
    var v, t := Value(e, EnvOf(c), st.world, st.vars), 1 + (Price(e) + TEST);
    var r := Exec(While(e, a), EnvOf(c), st, gas);
    var end := f.pc + 1 + TestSize(e) + CodeSize(a) + 34;
    var f0 := Frame(f.pc + 1, f.stack, f.mem);
    var f1 := Branched(f0, e, end, v);
    LandDoes(c, gas, st.world, f);
    if gas >= 1 { TestDoes(c, gas - 1, st.world, f0, e, end, st.vars); }
    Then(c, gas, st.world, f, 1, st.world, f0, 1, Price(e) + TEST, st.world, f1, Length(e) + 3);
    GrowsKeeps(f.mem, Extent(e), st.vars);
    h, n := f1, 0;
    if gas >= t {
      if v == 0 {
        h, n := Frame(end + 1, f.stack, f1.mem), 1;
        LandRuns(c, gas - t, f1, st);
      } else {
        var r1 := Onward(Exec(a, EnvOf(c), st, gas - t), GOTO);
        var h1, n1 := RoundRuns(c, gas - t, f1, a, st, f.pc);
        h := h1;
        if r1.Went? {
          ArrivedAt(c, gas - t, st.world, f1, f.pc, f.stack, r1, h1, n1);
          h, n := WhileRuns(c, r1.gas, h1, e, a, r1.st);
        }
        GoneFirst(c, gas - t, st.world, f1, f.pc, f.stack, r1, h1, n1, end + 1, f.stack, r, h, n);
        n := n1 + n;
      }
    }
    PaidFirst(c, gas, st.world, f, t, st.world, f1, 1 + (Length(e) + 3), end + 1, f.stack, r, h, n);
    n := 1 + (Length(e) + 3) + n;
  }
}
