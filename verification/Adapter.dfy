/**
 The EVM adapter's state (evm/adapter/statedb.go): a database written eagerly, per-transaction
 bookkeeping, and the undo log, all updated in place.
 */
module Adapter {
  import opened Core
  import opened State
  import opened Dispatch
  import opened Journal
  import Vm

  /** The writes `xs` took the state from `s` to `t` and the log from `es` to `fs`. */
  ghost predicate Did(xs: seq<Write>, s: Image, es: seq<Entry>, t: Image, fs: seq<Entry>) {
    t == DoAll(xs, s) && fs == es + UndosAll(xs, s)
  }

  /** The access list a transaction begins with: its parties, the precompiles and the listed slots. */
  ghost predicate Warmed(addrs: set<Address>, slots: set<StorageKey>, shanghai: bool, sender: Address, coinbase: Address,
                         dst: Option<Address>, precompiles: seq<Address>, list: seq<(Address, seq<Hash>)>) {
    && (forall a :: a in addrs <==>
          || a == sender || dst == Some(a) || a in precompiles
          || (exists el :: el in list && el.0 == a) || (shanghai && a == coinbase))
    && (forall a, k :: (a, k) in slots <==> exists el :: el in list && el.0 == a && k in el.1)
  }

  lemma DidOne(x: Write, s: Image, es: seq<Entry>, t: Image, fs: seq<Entry>)
    requires t == Do(x, s) && fs == es + Undos(x, s)
    ensures Did([x], s, es, t, fs)
  {
  }

  lemma DidMore(x: Write, y: Write, s: Image, es: seq<Entry>, t: Image, fs: seq<Entry>, u: Image, gs: seq<Entry>)
    requires Did([x], s, es, t, fs) && u == Do(y, t) && gs == fs + Undos(y, t)
    ensures Did([x, y], s, es, u, gs)
  {
    hide Do, Undos;
    DidOne(y, t, fs, u, gs);
    assert [x][1..] == [] && [x, y][1..] == [y];
    assert DoAll([], Do(x, s)) == Do(x, s) && UndosAll([], Do(x, s)) == [];
    assert fs == es + Undos(x, s);
    assert gs == es + (Undos(x, s) + UndosAll([y], t));
  }

  class Adapter {
    const base: StateDB
    var entries: seq<Entry>
    var err: bool
    var refund: uint64
    var touched: set<Address>
    var selfDestructed: set<Address>
    var newContracts: set<Address>
    var warmAddrs: set<Address>
    var warmSlots: set<StorageKey>
    var transient: map<StorageKey, Hash>
    var committed: map<StorageKey, Hash>
    var logs: seq<Log>
    var thash: Hash
    var txIndex: int

    // The snapshots still held with full copies of the state, and the state and log when the transaction began.
    ghost var ids: seq<nat>
    ghost var copies: seq<Image>
    ghost var floor: nat
    ghost var start: World

    ghost function Now(): Image
      reads this, base
    {
      Image(base.View(), refund, touched, selfDestructed, newContracts, warmAddrs, warmSlots, transient, logs)
    }

    ghost predicate Valid()
      reads this, base
    {
      Sound(Now(), entries, ids, copies, committed, floor, start)
    }

    constructor (base: StateDB)
      ensures Valid() && this.base == base && ids == [] && !err
      ensures Now() == Image(base.View(), 0, {}, {}, {}, {}, {}, map[], [])
    {
      this.base := base;
      entries, err, refund := [], false, 0;
      touched, selfDestructed, newContracts, warmAddrs, warmSlots := {}, {}, {}, {}, {};
      transient, committed, logs := map[], map[], [];
      thash, txIndex := ZERO_HASH, 0;
      ids, copies, floor, start := [], [], 0, base.View();
    }

    // Snapshots

    method Snapshot() returns (id: nat)
      requires Valid()
      modifies `ids, `copies
      ensures Valid() && id == |entries| && ids == old(ids) + [id] && copies == old(copies) + [Now()]
    {
      hide Baseline, Cached, Simulates, Unlogs;
      id := |entries|;
      SameSelf(Now());
      SnapshotSimulates(Now(), entries, ids, copies, Now());
      ids, copies := ids + [id], copies + [Now()];
    }

    method UndoOne(e: Entry)
      requires e.Unlog? ==> |logs| > 0
      modifies base, `refund, `touched, `selfDestructed, `newContracts, `warmAddrs, `warmSlots, `transient, `logs
      ensures Now() == Undo(e, old(Now()))
    {
      hide TagCode;
      match e {
        case Untouch(a) => touched := touched - {a};
        case BackNonce(a, n) =>
          var acct := AccountAt(World(base.accounts, base.code, base.storage), a);
          base.SetAccount(a, acct.(nonce := n));
        case BackBalance(a, n) =>
          var acct := AccountAt(World(base.accounts, base.code, base.storage), a);
          base.SetAccount(a, acct.(balance := n));
        case BackCode(a, c) =>
          if |c| == 0 { base.SetCode(a, []); } else { base.SetCode(a, TagCode(c)); }
        case BackRefund(n) => refund := n;
        case Uncreate(a) => newContracts := newContracts - {a};
        case Undestruct(a) => selfDestructed := selfDestructed - {a};
        case CoolAddr(a) => warmAddrs := warmAddrs - {a};
        case CoolSlot(k) => warmSlots := warmSlots - {k};
        case BackTransient(k, v) => transient := transient[k := v];
        case BackStore(k, v) => base.SetStorage(k.0, k.1, v);
        case Unlog => logs := logs[..|logs| - 1];
      }
    }

    /** Undoes everything since the `k`-th snapshot held, which restores the state as it was copied then. */
    method RevertToSnapshot(id: nat, ghost k: nat)
      requires Valid() && k < |ids| && ids[k] == id
      modifies base, `entries, `refund, `touched, `selfDestructed, `newContracts, `warmAddrs, `warmSlots, `transient, `logs
      modifies `ids, `copies
      ensures Valid() && Same(Now(), old(copies)[k])
      ensures entries == old(entries)[..id] && ids == old(ids)[..k] && copies == old(copies)[..k]
      ensures committed == old(committed) && start == old(start)
    {
      hide Sound, Baseline, Unlogs, Unwind, Undo, Same;
      ghost var s := Now();
      SoundParts(s, entries, ids, copies, committed, floor, start);
      assert entries[|entries|..] == [] && entries[..|entries|] == entries;
      UnwindOne([], s);
      var i := |entries|;
      while i > id
        invariant entries == old(entries) && ids == old(ids) && copies == old(copies)
        invariant id <= i <= |entries| && Now() == Unwind(entries[i..], s)
        invariant Baseline(Now().world, committed, start) && Unlogs(entries[..i]) <= |logs|
        decreases i
      {
        i := i - 1;
        UnwindBack(entries, i, s);
        UnlogStep(entries, i, Now());
        UndoBaseline(entries[i], Now(), committed, start);
        UndoOne(entries[i]);
      }
      RevertSound(s, entries, ids, copies, committed, floor, start, k, Now());
      entries, ids, copies := entries[..id], ids[..k], copies[..k];
    }

    // Flags, recorded only when newly set

    method TouchAddr(a: Address)
      modifies `touched, `entries
      ensures Did([Touch(a)], old(Now()), old(entries), Now(), entries)
    {
      hide TagCode, UntagCode, Do, Undos, DoAll, UndosAll;
      FlagMeans(a, (a, ZERO_HASH), Now());
      if a !in touched {
        touched := touched + {a};
        entries := entries + [Untouch(a)];
      }
      DidOne(Touch(a), old(Now()), old(entries), Now(), entries);
    }

    method MarkTouched(a: Address)
      requires Valid()
      modifies `touched, `entries
      ensures Valid() && Did([Touch(a)], old(Now()), old(entries), Now(), entries)
    {
      hide Sound, Do, Undos, DoAll, UndosAll;
      TouchAddr(a);
      WritesSound([Touch(a)], old(Now()), old(entries), ids, copies, committed, floor, start);
    }

    method CreateContract(a: Address)
      requires Valid()
      modifies `touched, `newContracts, `entries
      ensures Valid() && Did([Touch(a), Create(a)], old(Now()), old(entries), Now(), entries)
    {
      hide Sound, Do, Undos, DoAll, UndosAll;
      TouchAddr(a);
      ghost var t, fs := Now(), entries;
      FlagMeans(a, (a, ZERO_HASH), t);
      if a !in newContracts {
        newContracts := newContracts + {a};
        entries := entries + [Uncreate(a)];
      }
      DidMore(Touch(a), Create(a), old(Now()), old(entries), t, fs, Now(), entries);
      WritesSound([Touch(a), Create(a)], old(Now()), old(entries), ids, copies, committed, floor, start);
    }

    method SelfDestruct(a: Address)
      requires Valid()
      modifies `touched, `selfDestructed, `entries
      ensures Valid() && Did([Touch(a), Destruct(a)], old(Now()), old(entries), Now(), entries)
    {
      hide Sound, Do, Undos, DoAll, UndosAll;
      TouchAddr(a);
      ghost var t, fs := Now(), entries;
      FlagMeans(a, (a, ZERO_HASH), t);
      if a !in selfDestructed {
        selfDestructed := selfDestructed + {a};
        entries := entries + [Undestruct(a)];
      }
      DidMore(Touch(a), Destruct(a), old(Now()), old(entries), t, fs, Now(), entries);
      WritesSound([Touch(a), Destruct(a)], old(Now()), old(entries), ids, copies, committed, floor, start);
    }

    method WarmAddress(a: Address)
      modifies `warmAddrs, `entries
      ensures Did([WarmAddr(a)], old(Now()), old(entries), Now(), entries)
    {
      hide Do, Undos, DoAll, UndosAll;
      FlagMeans(a, (a, ZERO_HASH), Now());
      if a !in warmAddrs {
        warmAddrs := warmAddrs + {a};
        entries := entries + [CoolAddr(a)];
      }
      DidOne(WarmAddr(a), old(Now()), old(entries), Now(), entries);
    }

    method AddAddressToAccessList(a: Address)
      requires Valid()
      modifies `warmAddrs, `entries
      ensures Valid() && Did([WarmAddr(a)], old(Now()), old(entries), Now(), entries)
    {
      hide Sound, Do, Undos, DoAll, UndosAll;
      WarmAddress(a);
      WritesSound([WarmAddr(a)], old(Now()), old(entries), ids, copies, committed, floor, start);
    }

    method AddSlotToAccessList(a: Address, slot: Hash)
      requires Valid()
      modifies `warmAddrs, `warmSlots, `entries
      ensures Valid() && Did([WarmAddr(a), WarmSlot((a, slot))], old(Now()), old(entries), Now(), entries)
    {
      hide Sound, Do, Undos, DoAll, UndosAll;
      WarmAddress(a);
      ghost var t, fs := Now(), entries;
      FlagMeans(a, (a, slot), t);
      if (a, slot) !in warmSlots {
        warmSlots := warmSlots + {(a, slot)};
        entries := entries + [CoolSlot((a, slot))];
      }
      DidMore(WarmAddr(a), WarmSlot((a, slot)), old(Now()), old(entries), t, fs, Now(), entries);
      WritesSound([WarmAddr(a), WarmSlot((a, slot))], old(Now()), old(entries), ids, copies, committed, floor, start);
    }

    // Accounts

    method SetNonce(a: Address, nonce: uint64)
      requires Valid()
      modifies base, `touched, `entries
      ensures Valid() && Did([Touch(a), Nonce(a, nonce)], old(Now()), old(entries), Now(), entries)
    {
      hide Sound, DoAll, UndosAll;
      TouchAddr(a);
      ghost var t, fs := Now(), entries;
      var acct := AccountAt(World(base.accounts, base.code, base.storage), a);
      base.SetAccount(a, acct.(nonce := nonce));
      entries := entries + [BackNonce(a, acct.nonce)];
      DidMore(Touch(a), Nonce(a, nonce), old(Now()), old(entries), t, fs, Now(), entries);
      WritesSound([Touch(a), Nonce(a, nonce)], old(Now()), old(entries), ids, copies, committed, floor, start);
    }

    /** The shared undo-recording balance write; returns the previous balance. */
    method SetBalance(a: Address, balance: uint64) returns (prev: uint64)
      modifies base, `entries
      ensures Now() == Do(Balance(a, balance), old(Now())) && entries == old(entries) + Undos(Balance(a, balance), old(Now()))
      ensures prev == AccountAt(old(base.View()), a).balance
    {
      var acct := AccountAt(World(base.accounts, base.code, base.storage), a);
      prev := acct.balance;
      base.SetAccount(a, acct.(balance := balance));
      entries := entries + [BackBalance(a, prev)];
    }

    /** Credits a 256-bit amount; a sum beyond 64 bits is latched and leaves the balance alone. */
    method AddBalance(a: Address, amount: Vm.Word) returns (prev: uint64)
      requires Valid()
      modifies base, `touched, `entries, `err
      ensures Valid() && prev == AccountAt(old(base.View()), a).balance
      ensures var sum := (prev + amount) % Vm.TT256;
              if sum < U64 then err == old(err) && Did([Touch(a), Balance(a, sum)], old(Now()), old(entries), Now(), entries)
              else err && Did([Touch(a)], old(Now()), old(entries), Now(), entries)
    {
      prev := MoveBalance(a, amount, true);
    }

    method SubBalance(a: Address, amount: Vm.Word) returns (prev: uint64)
      requires Valid()
      modifies base, `touched, `entries, `err
      ensures Valid() && prev == AccountAt(old(base.View()), a).balance
      ensures var diff := (prev - amount) % Vm.TT256;
              if diff < U64 then err == old(err) && Did([Touch(a), Balance(a, diff)], old(Now()), old(entries), Now(), entries)
              else err && Did([Touch(a)], old(Now()), old(entries), Now(), entries)
    {
      prev := MoveBalance(a, amount, false);
    }

    method MoveBalance(a: Address, amount: Vm.Word, credit: bool) returns (prev: uint64)
      requires Valid()
      modifies base, `touched, `entries, `err
      ensures Valid() && prev == AccountAt(old(base.View()), a).balance
      ensures var next := (if credit then prev + amount else prev - amount) % Vm.TT256;
              if next < U64 then err == old(err) && Did([Touch(a), Balance(a, next)], old(Now()), old(entries), Now(), entries)
              else err && Did([Touch(a)], old(Now()), old(entries), Now(), entries)
    {
      hide Sound, Do, Undos, DoAll, UndosAll;
      TouchAddr(a);
      ghost var t, fs := Now(), entries;
      prev := AccountAt(World(base.accounts, base.code, base.storage), a).balance;
      var next := (if credit then prev + amount else prev - amount) % Vm.TT256;
      if next >= U64 {
        err := true;
        WritesSound([Touch(a)], old(Now()), old(entries), ids, copies, committed, floor, start);
        return;
      }
      var was := SetBalance(a, next);
      DidMore(Touch(a), Balance(a, next), old(Now()), old(entries), t, fs, Now(), entries);
      WritesSound([Touch(a), Balance(a, next)], old(Now()), old(entries), ids, copies, committed, floor, start);
    }

    /** Stores tagged code and returns the previous runtime; replaced code that is not clean could not be put back. */
    method SetCode(a: Address, code: Bytes) returns (prev: Bytes)
      requires Valid()
      modifies base, `touched, `entries
      ensures CleanCode(CodeAt(old(base.View()), a)) ==> Valid()
      ensures prev == UntagCode(CodeAt(old(base.View()), a))
      ensures Did([Touch(a), Code(a, code)], old(Now()), old(entries), Now(), entries)
    {
      hide Sound, DoAll, UndosAll, TagCode, UntagCode;
      MarkTouched(a);
      ghost var t, fs := Now(), entries;
      prev := UntagCode(CodeAt(World(base.accounts, base.code, base.storage), a));
      if |code| == 0 {
        base.SetCode(a, []);
      } else {
        base.SetCode(a, TagCode(code));
      }
      entries := entries + [BackCode(a, prev)];
      DidMore(Touch(a), Code(a, code), old(Now()), old(entries), t, fs, Now(), entries);
      if CleanCode(CodeAt(old(base.View()), a)) {
        WriteSound(Code(a, code), t, fs, ids, copies, committed, floor, start);
      }
    }

    // Refund counter, transient storage and logs

    method AddRefund(gas: uint64)
      requires Valid()
      modifies `refund, `entries
      ensures Valid() && Did([Refund(Add64(old(refund), gas))], old(Now()), old(entries), Now(), entries)
    {
      SetRefund(Add64(refund, gas));
    }

    method SubRefund(gas: uint64)
      requires Valid() && gas <= refund
      modifies `refund, `entries
      ensures Valid() && Did([Refund(old(refund) - gas)], old(Now()), old(entries), Now(), entries)
    {
      SetRefund(refund - gas);
    }

    method SetRefund(n: uint64)
      requires Valid()
      modifies `refund, `entries
      ensures Valid() && Did([Refund(n)], old(Now()), old(entries), Now(), entries)
    {
      hide Sound, DoAll, UndosAll;
      entries := entries + [BackRefund(refund)];
      refund := n;
      DidOne(Refund(n), old(Now()), old(entries), Now(), entries);
      WritesSound([Refund(n)], old(Now()), old(entries), ids, copies, committed, floor, start);
    }

    method SetTransientState(a: Address, key: Hash, value: Hash)
      requires Valid()
      modifies `transient, `entries
      ensures Valid() && Did([Transient((a, key), value)], old(Now()), old(entries), Now(), entries)
    {
      hide Sound, DoAll, UndosAll;
      var k := (a, key);
      var prev := TransientAt(transient, k);
      if prev != value {
        transient := transient[k := value];
        entries := entries + [BackTransient(k, prev)];
      }
      DidOne(Transient(k, value), old(Now()), old(entries), Now(), entries);
      WritesSound([Transient(k, value)], old(Now()), old(entries), ids, copies, committed, floor, start);
    }

    method SetTxContext(thash: Hash, ti: int)
      requires Valid()
      modifies `thash, `txIndex
      ensures Valid() && this.thash == thash && txIndex == ti
    {
      this.thash, txIndex := thash, ti;
    }

    method AddLog(content: Bytes)
      requires Valid()
      modifies `logs, `entries
      ensures Valid() && Did([Emit(content, thash, txIndex)], old(Now()), old(entries), Now(), entries)
    {
      hide Sound, DoAll, UndosAll;
      logs := logs + [Log(content, thash, txIndex, |logs|)];
      entries := entries + [Unlog];
      DidOne(Emit(content, thash, txIndex), old(Now()), old(entries), Now(), entries);
      WritesSound([Emit(content, thash, txIndex)], old(Now()), old(entries), ids, copies, committed, floor, start);
    }

    // Contract storage

    /** Remembers a slot's value the first time it is seen. */
    method CacheCommitted(a: Address, key: Hash)
      requires Valid()
      modifies `committed
      ensures Valid() && (a, key) in committed && committed[(a, key)] == WordAt(start, a, key)
    {
      hide Simulates, Cached, Unlogs, WordAt;
      if (a, key) !in committed {
        CacheSound((a, key), Now(), entries, ids, copies, committed, floor, start);
        committed := committed[(a, key) := WordAt(World(base.accounts, base.code, base.storage), a, key)];
      }
      assert WordAt(start, (a, key).0, (a, key).1) == committed[(a, key)];
    }

    method SetState(a: Address, key: Hash, value: Hash) returns (prev: Hash)
      requires Valid()
      modifies base, `touched, `committed, `entries
      ensures Valid() && prev == WordAt(old(base.View()), a, key)
      ensures Did([Touch(a), Store((a, key), value)], old(Now()), old(entries), Now(), entries)
    {
      hide Sound, DoAll, UndosAll;
      MarkTouched(a);
      ghost var t, fs := Now(), entries;
      CacheCommitted(a, key);
      prev := WordAt(World(base.accounts, base.code, base.storage), a, key);
      base.SetStorage(a, key, value);
      entries := entries + [BackStore((a, key), prev)];
      DidMore(Touch(a), Store((a, key), value), old(Now()), old(entries), t, fs, Now(), entries);
      WriteSound(Store((a, key), value), t, fs, ids, copies, committed, floor, start);
    }

    /** The current value and the value the slot had when the transaction began. */
    method GetStateAndCommittedState(a: Address, key: Hash) returns (current: Hash, original: Hash)
      requires Valid()
      modifies `committed
      ensures Valid() && current == WordAt(base.View(), a, key) && original == WordAt(start, a, key)
    {
      hide Sound;
      CacheCommitted(a, key);
      current, original := WordAt(World(base.accounts, base.code, base.storage), a, key), committed[(a, key)];
    }

    // A new transaction

    /** Resets the access list, transient storage and committed values; snapshots held before are gone. */
    method Prepare(eip2929: bool, shanghai: bool, sender: Address, coinbase: Address, dst: Option<Address>,
                   precompiles: seq<Address>, list: seq<(Address, seq<Hash>)>)
      requires Valid()
      modifies `warmAddrs, `warmSlots, `transient, `committed, `ids, `copies, `floor, `start
      ensures Valid() && start == base.View() && floor == |entries| && ids == []
      ensures transient == map[] && committed == map[]
      ensures !eip2929 ==> warmAddrs == old(warmAddrs) && warmSlots == old(warmSlots)
      ensures eip2929 ==> Warmed(warmAddrs, warmSlots, shanghai, sender, coinbase, dst, precompiles, list)
    {
      hide Sound, Warmed;
      if eip2929 {
        WarmUp(shanghai, sender, coinbase, dst, precompiles, list);
      }
      ClearTransaction(old(Now()));
    }

    method ClearTransaction(ghost before: Image)
      requires Sound(before, entries, ids, copies, committed, floor, start)
      requires before.world == base.View() && before.logs == logs
      modifies `transient, `committed, `ids, `copies, `floor, `start
      ensures Valid() && start == base.View() && floor == |entries| && ids == []
      ensures transient == map[] && committed == map[]
    {
      hide Sound;
      transient, committed := map[], map[];
      ids, copies, floor, start := [], [], |entries|, base.View();
      PrepareSound(before, old(entries), old(ids), old(copies), old(committed), old(floor), old(start), Now());
    }

    method WarmUp(shanghai: bool, sender: Address, coinbase: Address, dst: Option<Address>,
                  precompiles: seq<Address>, list: seq<(Address, seq<Hash>)>)
      modifies `warmAddrs, `warmSlots
      ensures Warmed(warmAddrs, warmSlots, shanghai, sender, coinbase, dst, precompiles, list)
    {
      warmAddrs := {sender} + if dst.Some? then {dst.value} else {};
      for i := 0 to |precompiles|
        invariant forall a :: a in warmAddrs <==> a == sender || dst == Some(a) || a in precompiles[..i]
      {
        warmAddrs := warmAddrs + {precompiles[i]};
      }
      warmSlots := {};
      WarmList(list);
      if shanghai {
        warmAddrs := warmAddrs + {coinbase};
      }
    }

    method WarmList(list: seq<(Address, seq<Hash>)>)
      requires warmSlots == {}
      modifies `warmAddrs, `warmSlots
      ensures forall a :: a in warmAddrs <==> a in old(warmAddrs) || exists el :: el in list && el.0 == a
      ensures forall a, k :: (a, k) in warmSlots <==> exists el :: el in list && el.0 == a && k in el.1
    {
      for i := 0 to |list|
        invariant forall a :: a in warmAddrs <==> a in old(warmAddrs) || exists el :: el in list[..i] && el.0 == a
        invariant forall a, k :: (a, k) in warmSlots <==> exists el :: el in list[..i] && el.0 == a && k in el.1
      {
        var el := list[i];
        assert list[..i + 1] == list[..i] + [el];
        warmAddrs := warmAddrs + {el.0};
        ghost var before, addrs := warmSlots, warmAddrs;
        for j := 0 to |el.1|
          invariant warmAddrs == addrs
          invariant forall a, k :: (a, k) in warmSlots <==> (a, k) in before || (a == el.0 && k in el.1[..j])
        {
          warmSlots := warmSlots + {(el.0, el.1[j])};
        }
      }
    }
  }

  lemma SameSelf(s: Image)
    ensures Same(s, s)
  {
  }

  /** Flag writes set the flag, and record its removal only when it was not set. */
  lemma FlagMeans(a: Address, k: StorageKey, s: Image)
    ensures Do(Touch(a), s) == s.(touched := s.touched + {a})
         && Undos(Touch(a), s) == if a in s.touched then [] else [Untouch(a)]
    ensures Do(Create(a), s) == s.(newContracts := s.newContracts + {a})
         && Undos(Create(a), s) == if a in s.newContracts then [] else [Uncreate(a)]
    ensures Do(Destruct(a), s) == s.(selfDestructed := s.selfDestructed + {a})
         && Undos(Destruct(a), s) == if a in s.selfDestructed then [] else [Undestruct(a)]
    ensures Do(WarmAddr(a), s) == s.(warmAddrs := s.warmAddrs + {a})
         && Undos(WarmAddr(a), s) == if a in s.warmAddrs then [] else [CoolAddr(a)]
    ensures Do(WarmSlot(k), s) == s.(warmSlots := s.warmSlots + {k})
         && Undos(WarmSlot(k), s) == if k in s.warmSlots then [] else [CoolSlot(k)]
    ensures a in s.touched ==> s.touched + {a} == s.touched
    ensures a in s.newContracts ==> s.newContracts + {a} == s.newContracts
    ensures a in s.selfDestructed ==> s.selfDestructed + {a} == s.selfDestructed
    ensures a in s.warmAddrs ==> s.warmAddrs + {a} == s.warmAddrs
    ensures k in s.warmSlots ==> s.warmSlots + {k} == s.warmSlots
  {
  }

  lemma PrepareSound(now: Image, es: seq<Entry>, ids: seq<nat>, copies: seq<Image>,
                     committed: map<StorageKey, Hash>, floor: nat, start: World, then': Image)
    requires Sound(now, es, ids, copies, committed, floor, start) && then'.world == now.world && then'.logs == now.logs
    ensures Sound(then', es, [], [], map[], |es|, now.world)
  {
  }

  lemma RevertSound(now: Image, es: seq<Entry>, ids: seq<nat>, copies: seq<Image>,
                    committed: map<StorageKey, Hash>, floor: nat, start: World, k: nat, back: Image)
    requires Sound(now, es, ids, copies, committed, floor, start) && k < |ids| && ids[k] <= |es|
    requires back == Unwind(es[ids[k]..], now) && Baseline(back.world, committed, start) && Unlogs(es[..ids[k]]) <= |back.logs|
    ensures |copies| == |ids| && Same(back, copies[k])
    ensures Sound(back, es[..ids[k]], ids[..k], copies[..k], committed, floor, start)
  {
    hide Simulates, Baseline, Unlogs, Unwind, Same;
    RevertSimulates(now, es, ids, copies, k);
    SimulatesBounds(now, es, ids, copies);
  }

  lemma SoundParts(now: Image, es: seq<Entry>, ids: seq<nat>, copies: seq<Image>,
                   committed: map<StorageKey, Hash>, floor: nat, start: World)
    requires Sound(now, es, ids, copies, committed, floor, start)
    ensures |ids| == |copies| && forall k | 0 <= k < |ids| :: floor <= ids[k] <= |es|
    ensures Baseline(now.world, committed, start) && Cached(es, floor, committed) && Unlogs(es) <= |now.logs|
  {
  }
}
