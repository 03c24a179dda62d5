/**
 The undo log of the EVM adapter (evm/adapter/journal.go, evm/adapter/statedb.go): each write
 changes the state at once and records how to undo itself. Numbered snapshots over this log
 behave like a stack of full copies of the state.
 */
module Journal {
  import opened Core
  import opened State
  import opened Dispatch
  import Vm

  datatype Log = Log(content: Bytes, txHash: Hash, txIndex: int, index: nat)

  /** Everything a transaction can observe and a revert must restore. */
  datatype Image = Image(
    world: World,
    refund: uint64,
    touched: set<Address>,
    selfDestructed: set<Address>,
    newContracts: set<Address>,
    warmAddrs: set<Address>,
    warmSlots: set<StorageKey>,
    transient: map<StorageKey, Hash>,
    logs: seq<Log>)

  function TransientAt(m: map<StorageKey, Hash>, k: StorageKey): Hash {
    if k in m then m[k] else ZERO_HASH
  }

  /** Equal in every observation; maps may differ in entries that read as absent. */
  ghost predicate SameWorld(w: World, v: World) {
    && (forall a :: AccountAt(w, a) == AccountAt(v, a))
    && (forall a :: CodeAt(w, a) == CodeAt(v, a))
    && (forall a, k :: WordAt(w, a, k) == WordAt(v, a, k))
  }

  ghost predicate SameTransient(m: map<StorageKey, Hash>, n: map<StorageKey, Hash>) {
    forall k :: TransientAt(m, k) == TransientAt(n, k)
  }

  ghost predicate Same(s: Image, t: Image) {
    && SameWorld(s.world, t.world)
    && s.refund == t.refund
    && s.touched == t.touched && s.selfDestructed == t.selfDestructed && s.newContracts == t.newContracts
    && s.warmAddrs == t.warmAddrs && s.warmSlots == t.warmSlots
    && SameTransient(s.transient, t.transient)
    && s.logs == t.logs
  }

  // Writes and their undo entries

  datatype Write =
    | Touch(a: Address) | Nonce(a: Address, n: uint64) | Balance(a: Address, n: uint64) | Code(a: Address, c: Bytes)
    | Refund(n: uint64) | Create(a: Address) | Destruct(a: Address) | WarmAddr(a: Address) | WarmSlot(k: StorageKey)
    | Transient(k: StorageKey, v: Hash) | Store(k: StorageKey, v: Hash) | Emit(content: Bytes, txHash: Hash, txIndex: int)

  datatype Entry =
    | Untouch(a: Address) | BackNonce(a: Address, n: uint64) | BackBalance(a: Address, n: uint64) | BackCode(a: Address, c: Bytes)
    | BackRefund(n: uint64) | Uncreate(a: Address) | Undestruct(a: Address) | CoolAddr(a: Address) | CoolSlot(k: StorageKey)
    | BackTransient(k: StorageKey, v: Hash) | BackStore(k: StorageKey, v: Hash) | Unlog

  function WithNonce(w: World, a: Address, n: uint64): World { WithAccount(w, a, AccountAt(w, a).(nonce := n)) }

  function WithBalance(w: World, a: Address, n: uint64): World { WithAccount(w, a, AccountAt(w, a).(balance := n)) }

  /** Runtime code is stored tagged; no code is stored as no code. */
  function WithRuntime(w: World, a: Address, c: Bytes): World { WithCode(w, a, if |c| == 0 then [] else TagCode(c)) }

  function Do(x: Write, s: Image): Image {
    match x
    case Touch(a) => s.(touched := s.touched + {a})
    case Nonce(a, n) => s.(world := WithNonce(s.world, a, n))
    case Balance(a, n) => s.(world := WithBalance(s.world, a, n))
    case Code(a, c) => s.(world := WithRuntime(s.world, a, c))
    case Refund(n) => s.(refund := n)
    case Create(a) => s.(newContracts := s.newContracts + {a})
    case Destruct(a) => s.(selfDestructed := s.selfDestructed + {a})
    case WarmAddr(a) => s.(warmAddrs := s.warmAddrs + {a})
    case WarmSlot(k) => s.(warmSlots := s.warmSlots + {k})
    case Transient(k, v) => if TransientAt(s.transient, k) == v then s else s.(transient := s.transient[k := v])
    case Store(k, v) => s.(world := WithWord(s.world, k.0, k.1, v))
    case Emit(c, h, i) => s.(logs := s.logs + [Log(c, h, i, |s.logs|)])
  }

  /** What a write records: nothing when it changes nothing but a flag already set. */
  function Undos(x: Write, s: Image): seq<Entry> {
    match x
    case Touch(a) => if a in s.touched then [] else [Untouch(a)]
    case Nonce(a, n) => [BackNonce(a, AccountAt(s.world, a).nonce)]
    case Balance(a, n) => [BackBalance(a, AccountAt(s.world, a).balance)]
    case Code(a, c) => [BackCode(a, UntagCode(CodeAt(s.world, a)))]
    case Refund(n) => [BackRefund(s.refund)]
    case Create(a) => if a in s.newContracts then [] else [Uncreate(a)]
    case Destruct(a) => if a in s.selfDestructed then [] else [Undestruct(a)]
    case WarmAddr(a) => if a in s.warmAddrs then [] else [CoolAddr(a)]
    case WarmSlot(k) => if k in s.warmSlots then [] else [CoolSlot(k)]
    case Transient(k, v) =>
      var was := TransientAt(s.transient, k);
      if was == v then [] else [BackTransient(k, was)]
    case Store(k, v) => [BackStore(k, WordAt(s.world, k.0, k.1))]
    case Emit(c, h, i) => [Unlog]
  }

  function Undo(e: Entry, s: Image): Image {
    match e
    case Untouch(a) => s.(touched := s.touched - {a})
    case BackNonce(a, n) => s.(world := WithNonce(s.world, a, n))
    case BackBalance(a, n) => s.(world := WithBalance(s.world, a, n))
    case BackCode(a, c) => s.(world := WithRuntime(s.world, a, c))
    case BackRefund(n) => s.(refund := n)
    case Uncreate(a) => s.(newContracts := s.newContracts - {a})
    case Undestruct(a) => s.(selfDestructed := s.selfDestructed - {a})
    case CoolAddr(a) => s.(warmAddrs := s.warmAddrs - {a})
    case CoolSlot(k) => s.(warmSlots := s.warmSlots - {k})
    case BackTransient(k, v) => s.(transient := s.transient[k := v])
    case BackStore(k, v) => s.(world := WithWord(s.world, k.0, k.1, v))
    case Unlog => if |s.logs| == 0 then s else s.(logs := s.logs[..|s.logs| - 1])
  }

  /** Undoes a stretch of the log, last entry first. */
  function Unwind(es: seq<Entry>, s: Image): Image {
    if |es| == 0 then s else Unwind(es[..|es| - 1], Undo(es[|es| - 1], s))
  }

  function DoAll(xs: seq<Write>, s: Image): Image {
    if |xs| == 0 then s else DoAll(xs[1..], Do(xs[0], s))
  }

  function UndosAll(xs: seq<Write>, s: Image): seq<Entry> {
    if |xs| == 0 then [] else Undos(xs[0], s) + UndosAll(xs[1..], Do(xs[0], s))
  }

  // Code can be put back only if it can be told from its runtime

  /** No code, or tagged code with a runtime. */
  predicate CleanCode(c: Bytes) { |c| == 0 || (IsTaggedCode(c) && |UntagCode(c)| > 0) }

  /** The accounts in `at` have clean code; nothing is said of others, such as StackVM contracts. */
  ghost predicate CleanOn(at: set<Address>, s: Image) { forall a | a in at :: CleanCode(CodeAt(s.world, a)) }

  /** What a write needs to be undone: clean code where it writes code. */
  predicate Undoable(x: Write, s: Image) { x.Code? ==> CleanCode(CodeAt(s.world, x.a)) }

  lemma RuntimeAt(w: World, a: Address, c: Bytes, b: Address)
    ensures CodeAt(WithRuntime(w, a, c), b) == if b != a then CodeAt(w, b) else if |c| == 0 then [] else TagCode(c)
  {
  }

  /** Writing the runtime back restores the stored code exactly when that was clean. */
  lemma CodeUndoExact(s: Image, a: Address, c: Bytes)
    ensures Same(Unwind(Undos(Code(a, c), s), Do(Code(a, c), s)), s) <==> CleanCode(CodeAt(s.world, a))
  {
  }

  lemma DoClean(x: Write, s: Image, at: set<Address>)
    requires CleanOn(at, s)
    ensures CleanOn(at, Do(x, s))
  {
    hide TagCode, IsTaggedCode, UntagCode;
    match x {
      case Code(a, c) =>
        TagRoundTrip(c);
        forall b | b in at
          ensures CleanCode(CodeAt(Do(x, s).world, b))
        {
          RuntimeAt(s.world, a, c, b);
        }
      case _ =>
        assert Do(x, s).world.code == s.world.code;
        forall b | b in at
          ensures CodeAt(Do(x, s).world, b) == CodeAt(s.world, b)
        {
        }
    }
  }

  /** Code reads back as it was given, tagged or empty code included. */
  lemma CodeReadsBack(s: Image, a: Address, c: Bytes)
    ensures UntagCode(CodeAt(Do(Code(a, c), s).world, a)) == c
    ensures forall b | b != a :: CodeAt(Do(Code(a, c), s).world, b) == CodeAt(s.world, b)
  {
    TagRoundTrip(c);
    RuntimeAt(s.world, a, c, a);
  }

  /** The other writes are observed where they were made, and nowhere else. */
  lemma WritesAreSeen(s: Image, a: Address, n: uint64, k: StorageKey, v: Hash)
    ensures forall b :: AccountAt(Do(Nonce(a, n), s).world, b)
                     == if b == a then AccountAt(s.world, a).(nonce := n) else AccountAt(s.world, b)
    ensures forall b :: AccountAt(Do(Balance(a, n), s).world, b)
                     == if b == a then AccountAt(s.world, a).(balance := n) else AccountAt(s.world, b)
    ensures forall b, h :: WordAt(Do(Store(k, v), s).world, b, h) == if (b, h) == k then v else WordAt(s.world, b, h)
    ensures forall h :: TransientAt(Do(Transient(k, v), s).transient, h) == if h == k then v else TransientAt(s.transient, h)
    ensures Do(Refund(n), s) == s.(refund := n)
  {
  }

  /** A log is appended under its content and context, numbered by how many there were; no other log changes. */
  lemma LogsAreSeen(s: Image, content: Bytes, h: Hash, i: int)
    ensures var t := Do(Emit(content, h, i), s);
            && t == s.(logs := t.logs) && |t.logs| == |s.logs| + 1 && t.logs[..|s.logs|] == s.logs
            && var log := t.logs[|s.logs|];
               log.content == content && log.txHash == h && log.txIndex == i && log.index == |s.logs|
  {
  }

  // One write undone, and observations carried through

  lemma AccountWrites(w: World, v: World, a: Address, x: Account)
    requires SameWorld(w, v)
    ensures SameWorld(WithAccount(w, a, x), WithAccount(v, a, x))
  {
    var w', v' := WithAccount(w, a, x), WithAccount(v, a, x);
    forall b
      ensures AccountAt(w', b) == AccountAt(v', b) && CodeAt(w', b) == CodeAt(v', b)
    {
      assert AccountAt(w, b) == AccountAt(v, b) && CodeAt(w, b) == CodeAt(v, b);
    }
    forall b, j
      ensures WordAt(w', b, j) == WordAt(v', b, j)
    {
      assert WordAt(w, b, j) == WordAt(v, b, j);
    }
  }

  lemma CodeWrites(w: World, v: World, a: Address, c: Bytes)
    requires SameWorld(w, v)
    ensures SameWorld(WithCode(w, a, c), WithCode(v, a, c))
  {
    var w', v' := WithCode(w, a, c), WithCode(v, a, c);
    forall b
      ensures AccountAt(w', b) == AccountAt(v', b) && CodeAt(w', b) == CodeAt(v', b)
    {
      assert AccountAt(w, b) == AccountAt(v, b) && CodeAt(w, b) == CodeAt(v, b);
    }
    forall b, j
      ensures WordAt(w', b, j) == WordAt(v', b, j)
    {
      assert WordAt(w, b, j) == WordAt(v, b, j);
    }
  }

  lemma WordWrites(w: World, v: World, k: StorageKey, x: Hash)
    requires SameWorld(w, v)
    ensures SameWorld(WithWord(w, k.0, k.1, x), WithWord(v, k.0, k.1, x))
  {
    var w', v' := WithWord(w, k.0, k.1, x), WithWord(v, k.0, k.1, x);
    forall b
      ensures AccountAt(w', b) == AccountAt(v', b) && CodeAt(w', b) == CodeAt(v', b)
    {
      assert AccountAt(w, b) == AccountAt(v, b) && CodeAt(w, b) == CodeAt(v, b);
    }
    forall b, j
      ensures WordAt(w', b, j) == WordAt(v', b, j)
    {
      assert WordAt(w, b, j) == WordAt(v, b, j);
    }
  }

  lemma WorldUndone(w: World, a: Address, n: uint64, k: Hash, x: Hash)
    ensures SameWorld(WithNonce(WithNonce(w, a, n), a, AccountAt(w, a).nonce), w)
    ensures SameWorld(WithBalance(WithBalance(w, a, n), a, AccountAt(w, a).balance), w)
    ensures SameWorld(WithWord(WithWord(w, a, k, x), a, k, WordAt(w, a, k)), w)
  {
  }

  predicate WorldWrite(x: Write) { x.Nonce? || x.Balance? || x.Code? || x.Store? }

  lemma UndoWorldWrite(x: Write, s: Image)
    requires WorldWrite(x)
    ensures Same(Unwind(Undos(x, s), Do(x, s)), s) <==> Undoable(x, s)
  {
    hide TagCode, UntagCode, Unwind, WithRuntime, WithNonce, WithBalance, WithWord, AccountAt, CodeAt, WordAt, SameWorld, CleanCode;
    UnwindOne(Undos(x, s), Do(x, s));
    match x {
      case Code(a, c) => CodeUndoExact(s, a, c);
      case Nonce(a, n) => WorldUndone(s.world, a, n, ZERO_HASH, ZERO_HASH);
      case Balance(a, n) => WorldUndone(s.world, a, n, ZERO_HASH, ZERO_HASH);
      case Store(k, v) => WorldUndone(s.world, k.0, 0, k.1, v);
    }
  }

  /** Undoing a write restores every observation, exactly unless it replaced code that was not clean. */
  lemma UndoDo(x: Write, s: Image)
    ensures Same(Unwind(Undos(x, s), Do(x, s)), s) <==> Undoable(x, s)
  {
    hide CleanCode, TagCode, UntagCode, Unwind, WithRuntime, WithNonce, WithBalance, WithWord, AccountAt, CodeAt, WordAt;
    if WorldWrite(x) {
      UndoWorldWrite(x, s);
    } else {
      UnwindOne(Undos(x, s), Do(x, s));
    }
  }

  lemma UnwindOne(es: seq<Entry>, s: Image)
    requires |es| <= 1
    ensures Unwind(es, s) == if |es| == 0 then s else Undo(es[0], s)
  {
  }

  lemma UndoSame(e: Entry, s: Image, t: Image)
    requires Same(s, t)
    ensures Same(Undo(e, s), Undo(e, t))
  {
    hide WithAccount, WithCode, WithWord, AccountAt, CodeAt, WordAt, TagCode;
    match e {
      case BackNonce(a, n) => AccountWrites(s.world, t.world, a, AccountAt(s.world, a).(nonce := n));
      case BackBalance(a, n) => AccountWrites(s.world, t.world, a, AccountAt(s.world, a).(balance := n));
      case BackCode(a, c) => CodeWrites(s.world, t.world, a, if |c| == 0 then [] else TagCode(c));
      case BackStore(k, v) => WordWrites(s.world, t.world, k, v);
      case BackTransient(k, v) => TransientWrites(s.transient, t.transient, k, v);
      case _ =>
    }
  }

  lemma TransientWrites(m: map<StorageKey, Hash>, n: map<StorageKey, Hash>, k: StorageKey, v: Hash)
    requires SameTransient(m, n)
    ensures SameTransient(m[k := v], n[k := v])
  {
    var m', n' := m[k := v], n[k := v];
    forall j
      ensures TransientAt(m', j) == TransientAt(n', j)
    {
      assert TransientAt(m, j) == TransientAt(n, j);
    }
  }

  lemma DoSame(x: Write, s: Image, t: Image)
    requires Same(s, t)
    ensures Same(Do(x, s), Do(x, t)) && Undos(x, s) == Undos(x, t)
  {
    hide UntagCode, TagCode, WithAccount, WithCode, WithWord, AccountAt, CodeAt, WordAt;
    match x {
      case Nonce(a, n) => AccountWrites(s.world, t.world, a, AccountAt(s.world, a).(nonce := n));
      case Balance(a, n) => AccountWrites(s.world, t.world, a, AccountAt(s.world, a).(balance := n));
      case Code(a, c) => CodeWrites(s.world, t.world, a, if |c| == 0 then [] else TagCode(c));
      case Store(k, v) => WordWrites(s.world, t.world, k, v);
      case Transient(k, v) => TransientWrites(s.transient, t.transient, k, v);
      case _ =>
    }
  }

  lemma {:induction false} UnwindSame(es: seq<Entry>, s: Image, t: Image)
    requires Same(s, t)
    ensures Same(Unwind(es, s), Unwind(es, t))
  {
    hide Same, Undo;
    if |es| > 0 {
      UndoSame(es[|es| - 1], s, t);
      UnwindSame(es[..|es| - 1], Undo(es[|es| - 1], s), Undo(es[|es| - 1], t));
    }
  }

  lemma {:induction false} UnwindJoin(es: seq<Entry>, fs: seq<Entry>, s: Image)
    ensures Unwind(es + fs, s) == Unwind(es, Unwind(fs, s))
    decreases |fs|
  {
    hide Undo;
    if |fs| == 0 {
      assert es + fs == es;
    } else {
      var n := |fs| - 1;
      assert (es + fs)[..|es + fs| - 1] == es + fs[..n];
      UnwindJoin(es, fs[..n], Undo(fs[n], s));
    }
  }

  lemma SameTransitive(s: Image, t: Image, u: Image)
    requires Same(s, t) && Same(t, u)
    ensures Same(s, u)
  {
  }

  // Snapshots

  /** Unwinding the log to where a snapshot was taken gives the state as it was then. */
  ghost predicate Simulates(now: Image, es: seq<Entry>, ids: seq<nat>, copies: seq<Image>) {
    && |ids| == |copies|
    && (forall k | 0 <= k < |ids| :: ids[k] <= |es|)
    && (forall j, k | 0 <= j < k < |ids| :: ids[j] <= ids[k])
    && (forall k | 0 <= k < |ids| :: Same(Unwind(es[ids[k]..], now), copies[k]))
  }

  lemma WriteSimulates(x: Write, now: Image, es: seq<Entry>, ids: seq<nat>, copies: seq<Image>)
    requires Undoable(x, now) && Simulates(now, es, ids, copies)
    ensures Simulates(Do(x, now), es + Undos(x, now), ids, copies)
  {
    hide Same, Do, Undos, Unwind, Undoable;
    UndoDo(x, now);
    var us, then' := Undos(x, now), Do(x, now);
    forall k | 0 <= k < |ids|
      ensures Same(Unwind((es + us)[ids[k]..], then'), copies[k])
    {
      var tail := es[ids[k]..];
      assert (es + us)[ids[k]..] == tail + us;
      UnwindJoin(tail, us, then');
      UnwindSame(tail, Unwind(us, then'), now);
      SameTransitive(Unwind(tail + us, then'), Unwind(tail, now), copies[k]);
    }
  }

  lemma SnapshotSimulates(now: Image, es: seq<Entry>, ids: seq<nat>, copies: seq<Image>, copy: Image)
    requires Simulates(now, es, ids, copies) && Same(now, copy)
    ensures Simulates(now, es, ids + [|es|], copies + [copy])
  {
  }

  lemma RevertSimulates(now: Image, es: seq<Entry>, ids: seq<nat>, copies: seq<Image>, k: nat)
    requires Simulates(now, es, ids, copies) && k < |ids|
    ensures var back := Unwind(es[ids[k]..], now);
            Same(back, copies[k]) && Simulates(back, es[..ids[k]], ids[..k], copies[..k])
  {
    hide Same, Unwind;
    var back, cut := Unwind(es[ids[k]..], now), es[..ids[k]];
    forall j | 0 <= j < k
      ensures Same(Unwind(cut[ids[j]..], back), copies[j])
    {
      assert es[ids[j]..] == cut[ids[j]..] + es[ids[k]..];
      UnwindJoin(cut[ids[j]..], es[ids[k]..], now);
    }
  }

  lemma CleanSame(s: Image, t: Image, at: set<Address>)
    requires Same(s, t) && CleanOn(at, s)
    ensures CleanOn(at, t)
  {
  }

  // Whole runs: the undo log against a stack of copies

  /** What a caller does: write, take a snapshot, or go back to the k-th snapshot still held. */
  datatype Command = Perform(x: Write) | Take | GoBack(k: nat)

  datatype Logged = Logged(now: Image, entries: seq<Entry>, ids: seq<nat>)

  datatype Copied = Copied(now: Image, copies: seq<Image>)

  function StepLogged(c: Command, m: Logged): Logged {
    match c
    case Perform(x) => Logged(Do(x, m.now), m.entries + Undos(x, m.now), m.ids)
    case Take => m.(ids := m.ids + [|m.entries|])
    case GoBack(k) =>
      if k < |m.ids| && m.ids[k] <= |m.entries|
      then Logged(Unwind(m.entries[m.ids[k]..], m.now), m.entries[..m.ids[k]], m.ids[..k])
      else m
  }

  function StepCopied(c: Command, m: Copied): Copied {
    match c
    case Perform(x) => m.(now := Do(x, m.now))
    case Take => m.(copies := m.copies + [m.now])
    case GoBack(k) => if k < |m.copies| then Copied(m.copies[k], m.copies[..k]) else m
  }

  function RunLogged(cs: seq<Command>, m: Logged): Logged {
    if |cs| == 0 then m else StepLogged(cs[|cs| - 1], RunLogged(cs[..|cs| - 1], m))
  }

  function RunCopied(cs: seq<Command>, m: Copied): Copied {
    if |cs| == 0 then m else StepCopied(cs[|cs| - 1], RunCopied(cs[..|cs| - 1], m))
  }

  /** Code is written only at the accounts in `at`. */
  ghost predicate CodeWithin(cs: seq<Command>, at: set<Address>) {
    forall i | 0 <= i < |cs| && cs[i].Perform? && cs[i].x.Code? :: cs[i].x.a in at
  }

  ghost predicate Agree(l: Logged, c: Copied, at: set<Address>) {
    && Same(l.now, c.now) && CleanOn(at, l.now)
    && Simulates(l.now, l.entries, l.ids, c.copies)
    && (forall k | 0 <= k < |c.copies| :: CleanOn(at, c.copies[k]))
  }

  lemma StepsAgree(x: Command, l: Logged, c: Copied, at: set<Address>)
    requires Agree(l, c, at) && (x.Perform? && x.x.Code? ==> x.x.a in at)
    ensures Agree(StepLogged(x, l), StepCopied(x, c), at)
  {
    SimulatesBounds(l.now, l.entries, l.ids, c.copies);
    CleanSame(l.now, c.now, at);
    match x {
      case Perform(w) =>
        assert Undoable(w, l.now) by { hide CleanCode, CodeAt; }
        hide Same, CleanOn, Simulates, Do, Undos, Unwind, Undoable;
        DoSame(w, l.now, c.now);
        DoClean(w, l.now, at);
        WriteSimulates(w, l.now, l.entries, l.ids, c.copies);
      case Take =>
        hide Same, CleanOn, Simulates, Do, Undos, Unwind, Undoable;
        SnapshotSimulates(l.now, l.entries, l.ids, c.copies, c.now);
      case GoBack(k) =>
        hide Same, CleanOn, Simulates, Do, Undos, Unwind, Undoable;
        if k < |l.ids| {
          RevertSimulates(l.now, l.entries, l.ids, c.copies, k);
          var back := Unwind(l.entries[l.ids[k]..], l.now);
          SameSymmetric(back, c.copies[k]);
          CleanSame(c.copies[k], back, at);
        }
    }
  }

  lemma SimulatesBounds(now: Image, es: seq<Entry>, ids: seq<nat>, copies: seq<Image>)
    requires Simulates(now, es, ids, copies)
    ensures |ids| == |copies| && forall k | 0 <= k < |ids| :: ids[k] <= |es|
  {
  }

  lemma SameSymmetric(s: Image, t: Image)
    requires Same(s, t)
    ensures Same(t, s)
  {
  }

  /** After any run that writes code only where it was clean, the undo log and the stack of copies agree. */
  lemma {:induction false} LogRefinesCopies(cs: seq<Command>, start: Image, at: set<Address>)
    requires CodeWithin(cs, at) && CleanOn(at, start)
    ensures Agree(RunLogged(cs, Logged(start, [], [])), RunCopied(cs, Copied(start, [])), at)
  {
    if |cs| > 0 {
      hide Agree, StepLogged, StepCopied;
      var n := |cs| - 1;
      LogRefinesCopies(cs[..n], start, at);
      StepsAgree(cs[n], RunLogged(cs[..n], Logged(start, [], [])), RunCopied(cs[..n], Copied(start, [])), at);
    }
  }

  /** Both ways of keeping snapshots give one observable state after every run of `cs`. */
  ghost predicate Indistinguishable(cs: seq<Command>, start: Image) {
    Same(RunLogged(cs, Logged(start, [], [])).now, RunCopied(cs, Copied(start, [])).now)
  }

  /** Taking a snapshot, writing code over unclean code and going back tells the two apart. */
  lemma UncleanTellsApart(start: Image, a: Address, c: Bytes)
    ensures Indistinguishable([Take, Perform(Code(a, c)), GoBack(0)], start) <==> CleanCode(CodeAt(start.world, a))
  {
    hide Same, CleanCode, CodeAt, Do, Undos, Unwind;
    var x := Code(a, c);
    var cs := [Take, Perform(x), GoBack(0)];
    var l, m := Logged(start, [], []), Copied(start, []);
    assert cs[..2][..1] == [Take];
    assert RunLogged([Take], l) == Logged(start, [], [0]) && RunCopied([Take], m) == Copied(start, [start]);
    assert [] + Undos(x, start) == Undos(x, start) && Undos(x, start)[0..] == Undos(x, start);
    assert RunLogged(cs[..2], l) == Logged(Do(x, start), Undos(x, start), [0]);
    assert RunCopied(cs[..2], m) == Copied(Do(x, start), [start]);
    CodeUndoExact(start, a, c);
  }

  /** For any accounts, every run writing code there is indistinguishable if and only if their code is clean at the start. */
  lemma RefinesExactlyWhenClean(start: Image, at: set<Address>)
    ensures (forall cs | CodeWithin(cs, at) :: Indistinguishable(cs, start)) <==> CleanOn(at, start)
  {
    hide Same, CleanCode, RunLogged, RunCopied, CodeAt;
    if CleanOn(at, start) {
      forall cs | CodeWithin(cs, at)
        ensures Indistinguishable(cs, start)
      {
        LogRefinesCopies(cs, start, at);
      }
    }
    if forall cs | CodeWithin(cs, at) :: Indistinguishable(cs, start) {
      forall a | a in at
        ensures CleanCode(CodeAt(start.world, a))
      {
        var cs := [Take, Perform(Code(a, [])), GoBack(0)];
        assert CodeWithin(cs, at);
        UncleanTellsApart(start, a, []);
      }
    }
  }

  // The committed value of a slot is its value when the transaction began

  /** A slot reads as its cached value, or as it is now if it was never cached, just as at the start. */
  ghost predicate Baseline(now: World, committed: map<StorageKey, Hash>, start: World) {
    forall k: StorageKey :: WordAt(start, k.0, k.1) == if k in committed then committed[k] else WordAt(now, k.0, k.1)
  }

  /** Only cached slots have been written since the log had `floor` entries. */
  ghost predicate Cached(es: seq<Entry>, floor: nat, committed: map<StorageKey, Hash>) {
    forall i | floor <= i < |es| && es[i].BackStore? :: es[i].k in committed
  }

  function Unlogs(es: seq<Entry>): nat {
    if |es| == 0 then 0 else Unlogs(es[..|es| - 1]) + if es[|es| - 1].Unlog? then 1 else 0
  }

  /** What the adapter keeps true between calls. */
  ghost predicate Sound(now: Image, es: seq<Entry>, ids: seq<nat>, copies: seq<Image>,
                        committed: map<StorageKey, Hash>, floor: nat, start: World) {
    && Simulates(now, es, ids, copies)
    && (forall k | 0 <= k < |ids| :: floor <= ids[k])
    && floor <= |es| && Baseline(now.world, committed, start) && Cached(es, floor, committed)
    && Unlogs(es) <= |now.logs|
  }

  lemma StoreBaseline(now: World, committed: map<StorageKey, Hash>, start: World, k: StorageKey, v: Hash)
    requires Baseline(now, committed, start) && k in committed
    ensures Baseline(WithWord(now, k.0, k.1, v), committed, start)
  {
  }

  lemma SameBaseline(now: World, then': World, committed: map<StorageKey, Hash>, start: World)
    requires Baseline(now, committed, start) && now.storage == then'.storage
    ensures Baseline(then', committed, start)
  {
  }

  lemma DoBaseline(x: Write, now: Image, committed: map<StorageKey, Hash>, start: World)
    requires Baseline(now.world, committed, start) && (x.Store? ==> x.k in committed)
    ensures Baseline(Do(x, now).world, committed, start)
  {
    hide Baseline, AccountAt, WordAt, CodeAt, TagCode;
    match x {
      case Store(k, v) => StoreBaseline(now.world, committed, start, k, v);
      case _ => SameBaseline(now.world, Do(x, now).world, committed, start);
    }
  }

  lemma UndoBaseline(e: Entry, now: Image, committed: map<StorageKey, Hash>, start: World)
    requires Baseline(now.world, committed, start) && (e.BackStore? ==> e.k in committed)
    ensures Baseline(Undo(e, now).world, committed, start)
  {
  }

  lemma UndosShape(x: Write, now: Image)
    ensures var us := Undos(x, now);
            && |us| <= 1
            && (forall i | 0 <= i < |us| :: (us[i].Unlog? <==> x.Emit?) && (us[i].BackStore? ==> x.Store? && us[i].k == x.k))
            && |Do(x, now).logs| == |now.logs| + if x.Emit? then 1 else 0
  {
  }

  lemma UnlogsJoin(x: Write, now: Image, es: seq<Entry>)
    requires Unlogs(es) <= |now.logs|
    ensures Unlogs(es + Undos(x, now)) <= |Do(x, now).logs|
  {
    hide Do, Undos;
    UndosShape(x, now);
    var us := Undos(x, now);
    if |us| == 0 {
      assert es + us == es;
    } else {
      assert (es + us)[..|es|] == es;
    }
  }

  lemma WriteSound(x: Write, now: Image, es: seq<Entry>, ids: seq<nat>, copies: seq<Image>,
                   committed: map<StorageKey, Hash>, floor: nat, start: World)
    requires Sound(now, es, ids, copies, committed, floor, start) && Undoable(x, now) && (x.Store? ==> x.k in committed)
    ensures Sound(Do(x, now), es + Undos(x, now), ids, copies, committed, floor, start)
  {
    hide Undoable, Simulates, Baseline, Do, Undos, Unlogs;
    WriteSimulates(x, now, es, ids, copies);
    DoBaseline(x, now, committed, start);
    UnlogsJoin(x, now, es);
    UndosShape(x, now);
    assert |ids| == |copies| by { SimulatesBounds(now, es, ids, copies); }
  }

  lemma {:induction false} WritesSound(xs: seq<Write>, now: Image, es: seq<Entry>, ids: seq<nat>, copies: seq<Image>,
                                       committed: map<StorageKey, Hash>, floor: nat, start: World)
    requires Sound(now, es, ids, copies, committed, floor, start)
    requires forall i | 0 <= i < |xs| :: !xs[i].Code? && (xs[i].Store? ==> xs[i].k in committed)
    ensures Sound(DoAll(xs, now), es + UndosAll(xs, now), ids, copies, committed, floor, start)
    decreases |xs|
  {
    hide Sound, Do, Undos;
    if |xs| == 0 {
      assert es + [] == es;
    } else {
      WriteSound(xs[0], now, es, ids, copies, committed, floor, start);
      var us := Undos(xs[0], now);
      WritesSound(xs[1..], Do(xs[0], now), es + us, ids, copies, committed, floor, start);
      assert es + UndosAll(xs, now) == es + us + UndosAll(xs[1..], Do(xs[0], now));
    }
  }

  lemma CacheSound(k: StorageKey, now: Image, es: seq<Entry>, ids: seq<nat>, copies: seq<Image>,
                   committed: map<StorageKey, Hash>, floor: nat, start: World)
    requires Sound(now, es, ids, copies, committed, floor, start) && k !in committed
    ensures Sound(now, es, ids, copies, committed[k := WordAt(now.world, k.0, k.1)], floor, start)
  {
  }

  /** Undoing the last entry but those already undone. */
  lemma UnwindBack(es: seq<Entry>, i: nat, s: Image)
    requires i < |es|
    ensures Unwind(es[i..], s) == Undo(es[i], Unwind(es[i + 1..], s))
  {
    hide Undo;
    assert es[i..] == [es[i]] + es[i + 1..];
    UnwindJoin([es[i]], es[i + 1..], s);
    UnwindOne([es[i]], Unwind(es[i + 1..], s));
  }

  lemma UnlogStep(es: seq<Entry>, i: nat, s: Image)
    requires i < |es| && Unlogs(es[..i + 1]) <= |s.logs|
    ensures es[i].Unlog? ==> |s.logs| > 0
    ensures Unlogs(es[..i]) <= |Undo(es[i], s).logs|
  {
    hide TagCode, WithNonce, WithBalance, WithRuntime, WithWord;
    assert es[..i + 1][..i] == es[..i];
  }

  /** Amounts are 256-bit: whether the result fits 64 bits is told rightly exactly when it is not a wrapped one that fits. */
  lemma MovesExact(cur: uint64, amount: Vm.Word)
    ensures ((cur + amount) % Vm.TT256 < U64 <==> cur + amount < U64) <==> cur + amount < Vm.TT256
    ensures ((cur - amount) % Vm.TT256 < U64 <==> amount <= cur) <==> amount - cur <= Vm.TT256 - U64
    ensures cur + amount < U64 ==> (cur + amount) % Vm.TT256 == cur + amount
    ensures amount <= cur ==> (cur - amount) % Vm.TT256 == cur - amount
  {
  }
}
