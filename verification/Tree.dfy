/**
 The Merkle Patricia trie as a plain tree, hash pointers replaced by subtrees
 (trie/trie.go). Every operation here mirrors the branches of its counterpart in the
 source; `NodeStore` proves that the hash-pointer form computes exactly these trees.
 */
module Tree {
  import opened Core
  import opened Codec

  datatype Tree =
    | Empty
    | Leaf(path: Path, value: Bytes)
    | Ext(path: Path, child: Tree)
    | Branch(children: seq<Tree>, at: Option<Bytes>)

  const NO_CHILDREN: seq<Tree> := 
    [Empty, Empty, Empty, Empty, Empty, Empty, Empty, Empty,
     Empty, Empty, Empty, Empty, Empty, Empty, Empty, Empty]

  /** Sixteen children at every branch. */
  ghost predicate Shaped(t: Tree) {
    match t
    case Empty => true
    case Leaf(_, _) => true
    case Ext(_, c) => Shaped(c)
    case Branch(_, _) => |t.children| == 16 && forall i | 0 <= i < 16 :: Shaped(t.children[i])
  }

  function Get(t: Tree, p: Path): Option<Bytes>
    requires Shaped(t)
  {
    match t
    case Empty => None
    case Leaf(q, v) => if q == p then Some(v) else None
    case Ext(q, c) => if q <= p then Get(c, p[|q|..]) else None
    case Branch(cs, at) => if |p| == 0 then at else Get(cs[p[0]], p[1..])
  }

  // Insertion

  /** `t` behind the prefix `q`; an extension is only made when the prefix is not empty. */
  function Wrap(q: Path, t: Tree): Tree {
    if |q| > 0 then Ext(q, t) else t
  }

  /** A branch at the point where two keys part: `was` continues at `q`, the new value at `p`. */
  function Split(q: Path, was: Tree, wasAt: Option<Bytes>, p: Path, v: Bytes): Tree {
    var cs := if |q| > 0 then NO_CHILDREN[q[0] := was] else NO_CHILDREN;
    if |p| > 0 then Branch(cs[p[0] := Leaf(p[1..], v)], wasAt) else Branch(cs, Some(v))
  }

  function PutLeaf(q: Path, w: Bytes, p: Path, v: Bytes): Tree {
    var cp := CommonPrefix(p, q);
    if cp == |q| && cp == |p| then Leaf(p, v)
    else if cp < |q| then Wrap(p[..cp], Split(q[cp..], Leaf(q[cp + 1..], w), None, p[cp..], v))
    else Wrap(p[..cp], Split([], Empty, Some(w), p[cp..], v))
  }

  function SplitExt(q: Path, c: Tree, p: Path, v: Bytes): Tree
    requires CommonPrefix(p, q) < |q|
  {
    var cp := CommonPrefix(p, q);
    Wrap(p[..cp], Split(q[cp..], Wrap(q[cp + 1..], c), None, p[cp..], v))
  }

  function Put(t: Tree, p: Path, v: Bytes): Tree
    requires Shaped(t)
  {
    match t
    case Empty => Leaf(p, v)
    case Leaf(q, w) => PutLeaf(q, w, p, v)
    case Ext(q, c) =>
      if CommonPrefix(p, q) == |q| then Ext(q, Put(c, p[|q|..], v)) else SplitExt(q, c, p, v)
    case Branch(cs, at) =>
      if |p| == 0 then Branch(cs, Some(v)) else Branch(cs[p[0] := Put(cs[p[0]], p[1..], v)], at)
  }

  // Deletion

  /** The node that stands for `t` behind `q` once `t` has changed: leaves and extensions absorb `q`. */
  function Merge(q: Path, t: Tree): Tree {
    match t
    case Leaf(r, v) => Leaf(q + r, v)
    case Ext(r, c) => Ext(q + r, c)
    case _ => Ext(q, t)
  }

  /** The first occupied slot at or after `i`, or the number of slots. */
  function NextChild(cs: seq<Tree>, i: nat): (k: nat)
    requires i <= |cs|
    ensures i <= k <= |cs|
    ensures forall j | i <= j < k :: cs[j].Empty?
    ensures k < |cs| ==> !cs[k].Empty?
    decreases |cs| - i
  {
    if i == |cs| || !cs[i].Empty? then i else NextChild(cs, i + 1)
  }

  function Collapse(cs: seq<Tree>, at: Option<Bytes>): Tree
    requires |cs| == 16
  {
    var i := NextChild(cs, 0);
    if i == 16 then (if at.None? then Empty else Leaf([], at.value))
    else if at.None? && NextChild(cs, i + 1) == 16 then Merge([i], cs[i])
    else Branch(cs, at)
  }

  function Del(t: Tree, p: Path): Tree
    requires Shaped(t)
  {
    match t
    case Empty => Empty
    case Leaf(q, _) => if q == p then Empty else t
    case Ext(q, c) =>
      if !(q <= p) then t else
      var c' := Del(c, p[|q|..]);
      if c'.Empty? then Empty else if c' == c then t else Merge(q, c')
    case Branch(cs, at) =>
      if |p| == 0 then (if at.None? then t else Collapse(cs, None)) else
      if cs[p[0]].Empty? then t else
      var c' := Del(cs[p[0]], p[1..]);
      if c' == cs[p[0]] then t else Collapse(cs[p[0] := c'], at)
  }

  // The tree is a map from paths to values

  lemma GetWrap(q: Path, t: Tree, k: Path)
    requires Shaped(t)
    ensures Shaped(Wrap(q, t))
    ensures Get(Wrap(q, t), k) == if q <= k then Get(t, k[|q|..]) else None
  {
  }

  lemma GetSplit(q: Path, was: Tree, wasAt: Option<Bytes>, p: Path, v: Bytes, k: Path)
    requires Shaped(was) && (|q| > 0 ==> wasAt.None?) && (|q| == 0 ==> |p| > 0)
    requires |q| > 0 && |p| > 0 ==> q[0] != p[0]
    ensures Shaped(Split(q, was, wasAt, p, v))
    ensures Get(Split(q, was, wasAt, p, v), k) ==
            if k == p then Some(v)
            else if |k| == 0 then wasAt
            else if |q| > 0 && k[0] == q[0] then Get(was, k[1..]) else None
  {
  }

  lemma PrefixSplit(a: Path, k: Path)
    ensures a <= k ==> k == a + k[|a|..]
  {
  }

  lemma GetForked(pre: Path, q: Path, was: Tree, wasAt: Option<Bytes>, p: Path, v: Bytes, k: Path)
    requires Shaped(was) && (|q| > 0 ==> wasAt.None?) && (|q| == 0 ==> |p| > 0)
    requires |q| > 0 && |p| > 0 ==> q[0] != p[0]
    ensures Shaped(Wrap(pre, Split(q, was, wasAt, p, v)))
    ensures Get(Wrap(pre, Split(q, was, wasAt, p, v)), k) ==
            if k == pre + p then Some(v)
            else if !(pre <= k) then None
            else if |k| == |pre| then wasAt
            else if |q| > 0 && k[|pre|] == q[0] then Get(was, k[|pre| + 1..]) else None
  {
    PrefixSplit(pre, k);
    var rest := if pre <= k then k[|pre|..] else [];
    GetSplit(q, was, wasAt, p, v, rest);
    GetWrap(pre, Split(q, was, wasAt, p, v), k);
    if pre <= k {
      assert k == pre + p <==> rest == p;
      if |rest| > 0 { assert rest[1..] == k[|pre| + 1..]; }
    }
  }

  lemma EqualCons(pre: Path, x: nibble, rem: Path, k: Path)
    ensures k == pre + [x] + rem <==> pre <= k && |k| > |pre| && k[|pre|] == x && k[|pre| + 1..] == rem
  {
  }

  lemma GetPutLeaf(q: Path, w: Bytes, p: Path, v: Bytes, k: Path)
    ensures Shaped(PutLeaf(q, w, p, v))
    ensures Get(PutLeaf(q, w, p, v), k) == if k == p then Some(v) else Get(Leaf(q, w), k)
  {
    var cp := CommonPrefix(p, q);
    var pre := p[..cp];
    assert p == pre + p[cp..];
    if cp < |q| {
      GetForked(pre, q[cp..], Leaf(q[cp + 1..], w), None, p[cp..], v, k);
      assert q == pre + [q[cp]] + q[cp + 1..];
      EqualCons(pre, q[cp], q[cp + 1..], k);
    } else if cp < |p| {
      assert q == pre;
      GetForked(pre, [], Empty, Some(w), p[cp..], v, k);
    }
  }

  lemma PrefixCons(pre: Path, x: nibble, rem: Path, k: Path)
    requires pre <= k && |k| > |pre|
    ensures pre + [x] + rem <= k <==> k[|pre|] == x && rem <= k[|pre| + 1..]
  {
  }

  lemma GetExtCons(pre: Path, x: nibble, rem: Path, c: Tree, k: Path)
    requires Shaped(c) && pre <= k && |k| > |pre|
    ensures Shaped(Wrap(rem, c))
    ensures Get(Ext(pre + [x] + rem, c), k) == if k[|pre|] == x then Get(Wrap(rem, c), k[|pre| + 1..]) else None
  {
    var q, r := pre + [x] + rem, k[|pre| + 1..];
    PrefixCons(pre, x, rem, k);
    GetWrap(rem, c, r);
    if q <= k { assert k[|q|..] == r[|rem|..]; }
  }

  lemma GetSplitExt(q: Path, c: Tree, p: Path, v: Bytes, k: Path)
    requires Shaped(c) && CommonPrefix(p, q) < |q|
    ensures Shaped(SplitExt(q, c, p, v))
    ensures Get(SplitExt(q, c, p, v), k) == if k == p then Some(v) else Get(Ext(q, c), k)
  {
    hide Split;
    var cp := CommonPrefix(p, q);
    var pre, rem := p[..cp], q[cp + 1..];
    assert p == pre + p[cp..] && q == pre + [q[cp]] + rem;
    GetWrap(rem, c, []);
    GetForked(pre, q[cp..], Wrap(rem, c), None, p[cp..], v, k);
    assert q <= k ==> pre <= k && |k| > cp;
    if pre <= k && |k| > cp { GetExtCons(pre, q[cp], rem, c, k); }
  }

  /** Insertion updates the map at `p` and leaves every other path alone. */
  lemma {:induction false} PutGet(t: Tree, p: Path, v: Bytes, k: Path)
    requires Shaped(t)
    ensures Shaped(Put(t, p, v))
    ensures Get(Put(t, p, v), k) == if k == p then Some(v) else Get(t, k)
  {
    hide PutLeaf, SplitExt;
    match t
    case Empty =>
    case Leaf(q, w) => GetPutLeaf(q, w, p, v, k);
    case Ext(q, c) =>
      if CommonPrefix(p, q) == |q| {
        assert p == q + p[|q|..];
        PutGet(c, p[|q|..], v, if q <= k then k[|q|..] else []);
        PrefixSplit(q, k);
      } else {
        GetSplitExt(q, c, p, v, k);
      }
    case Branch(cs, at) =>
      if |p| > 0 {
        PutGet(cs[p[0]], p[1..], v, if |k| > 0 then k[1..] else []);
        assert p == [p[0]] + p[1..];
        if |k| > 0 { assert k == [k[0]] + k[1..]; }
      }
  }

  lemma GetMerge(q: Path, t: Tree, k: Path)
    requires Shaped(t)
    ensures Shaped(Merge(q, t))
    ensures Get(Merge(q, t), k) == if q <= k then Get(t, k[|q|..]) else None
  {
  }

  lemma GetCollapse(cs: seq<Tree>, at: Option<Bytes>, k: Path)
    requires Shaped(Branch(cs, at))
    ensures Shaped(Collapse(cs, at))
    ensures Get(Collapse(cs, at), k) == Get(Branch(cs, at), k)
  {
  }

  /** Deletion removes the map entry at `p` and leaves every other path alone. */
  lemma {:induction false} DelGet(t: Tree, p: Path, k: Path)
    requires Shaped(t)
    ensures Shaped(Del(t, p))
    ensures Get(Del(t, p), k) == if k == p then None else Get(t, k)
  {
    match t
    case Empty =>
    case Leaf(q, w) =>
    case Ext(q, c) =>
      if q <= p {
        var c' := Del(c, p[|q|..]);
        PrefixSplit(q, p);
        PrefixSplit(q, k);
        DelGet(c, p[|q|..], if q <= k then k[|q|..] else []);
        GetMerge(q, c', k);
      }
    case Branch(cs, at) =>
      if |p| == 0 {
        if at.Some? { GetCollapse(cs, None, k); }
      } else {
        assert p == [p[0]] + p[1..];
        var c' := Del(cs[p[0]], p[1..]);
        DelGet(cs[p[0]], p[1..], if |k| > 0 then k[1..] else []);
        GetCollapse(cs[p[0] := c'], at, k);
        if |k| > 0 { assert k == [k[0]] + k[1..]; }
      }
  }

  /** Deleting an absent key gives back the very same tree. */
  lemma {:induction false} DelAbsent(t: Tree, p: Path)
    requires Canonical(t)
    ensures Get(t, p).None? <==> Del(t, p) == t
  {
    match t
    case Empty =>
    case Leaf(q, w) =>
    case Ext(q, c) => if q <= p { DelAbsent(c, p[|q|..]); }
    case Branch(cs, at) => if |p| > 0 { DelAbsent(cs[p[0]], p[1..]); }
    DelGet(t, p, p);
  }

  // Canonical shape

  /** At least two occupants: two children, or one child and a value. */
  ghost predicate Crowded(cs: seq<Tree>, at: Option<Bytes>) {
    exists i :: 0 <= i < |cs| && !cs[i].Empty? && (at.Some? || exists j :: i < j < |cs| && !cs[j].Empty?)
  }

  /** No extension above a leaf or an extension, no branch with fewer than two occupants. */
  ghost predicate Canonical(t: Tree)
    ensures Canonical(t) ==> Shaped(t)
  {
    match t
    case Empty => true
    case Leaf(_, _) => true
    case Ext(q, c) => |q| > 0 && c.Branch? && Canonical(c)
    case Branch(cs, at) =>
      |t.children| == 16 && Crowded(cs, at) && forall i | 0 <= i < 16 :: Canonical(t.children[i])
  }

  lemma WrapCanonical(q: Path, t: Tree)
    requires Canonical(t) && t.Branch?
    ensures Canonical(Wrap(q, t)) && !Wrap(q, t).Empty?
  {
  }

  lemma SplitCanonical(q: Path, was: Tree, wasAt: Option<Bytes>, p: Path, v: Bytes)
    requires Canonical(was) && (|q| > 0 ==> wasAt.None? && !was.Empty?) && (|q| == 0 ==> |p| > 0 && wasAt.Some?)
    requires |q| > 0 && |p| > 0 ==> q[0] != p[0]
    ensures Canonical(Split(q, was, wasAt, p, v)) && Split(q, was, wasAt, p, v).Branch?
  {
    var s := Split(q, was, wasAt, p, v);
    if |q| > 0 {
      assert s.children[q[0]] == was;
      if |p| > 0 {
        assert s.children[p[0]] == Leaf(p[1..], v);
        assert Crowded(s.children, s.at) by {
          var i, j := if q[0] < p[0] then q[0] else p[0], if q[0] < p[0] then p[0] else q[0];
          assert i < j && !s.children[i].Empty? && !s.children[j].Empty?;
        }
      }
    } else {
      assert s.children[p[0]] == Leaf(p[1..], v);
    }
  }

  /** Filling or replacing one slot keeps a branch crowded. */
  lemma CrowdedUpdate(cs: seq<Tree>, at: Option<Bytes>, x: nat, c: Tree)
    requires Crowded(cs, at) && x < |cs| && !c.Empty?
    ensures Crowded(cs[x := c], at)
  {
    var i :| 0 <= i < |cs| && !cs[i].Empty? && (at.Some? || exists j :: i < j < |cs| && !cs[j].Empty?);
    assert !cs[x := c][i].Empty?;
    if at.None? {
      var j :| i < j < |cs| && !cs[j].Empty?;
      assert !cs[x := c][j].Empty?;
    }
  }

  lemma PutLeafCanonical(q: Path, w: Bytes, p: Path, v: Bytes)
    ensures Canonical(PutLeaf(q, w, p, v)) && !PutLeaf(q, w, p, v).Empty?
  {
    var cp := CommonPrefix(p, q);
    if cp < |q| {
      var b := Split(q[cp..], Leaf(q[cp + 1..], w), None, p[cp..], v);
      SplitCanonical(q[cp..], Leaf(q[cp + 1..], w), None, p[cp..], v);
      WrapCanonical(p[..cp], b);
    } else if cp < |p| {
      SplitCanonical([], Empty, Some(w), p[cp..], v);
      WrapCanonical(p[..cp], Split([], Empty, Some(w), p[cp..], v));
    }
  }

  lemma SplitExtCanonical(q: Path, c: Tree, p: Path, v: Bytes)
    requires Canonical(c) && c.Branch? && CommonPrefix(p, q) < |q|
    ensures Canonical(SplitExt(q, c, p, v)) && !SplitExt(q, c, p, v).Empty?
  {
    var cp := CommonPrefix(p, q);
    var rest := Wrap(q[cp + 1..], c);
    WrapCanonical(q[cp + 1..], c);
    SplitCanonical(q[cp..], rest, None, p[cp..], v);
    WrapCanonical(p[..cp], Split(q[cp..], rest, None, p[cp..], v));
  }

  lemma {:induction false} PutCanonical(t: Tree, p: Path, v: Bytes)
    requires Canonical(t)
    ensures Canonical(Put(t, p, v)) && !Put(t, p, v).Empty? && (t.Branch? ==> Put(t, p, v).Branch?)
  {
    match t
    case Empty =>
    case Leaf(q, w) => PutLeafCanonical(q, w, p, v);
    case Ext(q, c) =>
      if CommonPrefix(p, q) == |q| {
        PutCanonical(c, p[|q|..], v);
      } else {
        SplitExtCanonical(q, c, p, v);
      }
    case Branch(cs, at) =>
      if |p| > 0 {
        PutCanonical(cs[p[0]], p[1..], v);
        CrowdedUpdate(cs, at, p[0], Put(cs[p[0]], p[1..], v));
      } else {
        var i :| 0 <= i < 16 && !cs[i].Empty?;
      }
  }

  lemma CollapseCanonical(cs: seq<Tree>, at: Option<Bytes>)
    requires |cs| == 16 && forall i | 0 <= i < 16 :: Canonical(cs[i])
    ensures Canonical(Collapse(cs, at))
  {
  }

  lemma {:induction false} DelCanonical(t: Tree, p: Path)
    requires Canonical(t)
    ensures Canonical(Del(t, p))
  {
    match t
    case Empty =>
    case Leaf(q, w) =>
    case Ext(q, c) => if q <= p { DelCanonical(c, p[|q|..]); }
    case Branch(cs, at) =>
      if |p| == 0 {
        CollapseCanonical(cs, None);
      } else {
        DelCanonical(cs[p[0]], p[1..]);
        CollapseCanonical(cs[p[0] := Del(cs[p[0]], p[1..])], at);
      }
  }

  // A canonical tree is determined by its contents

  ghost predicate SameContents(a: Tree, b: Tree)
    requires Shaped(a) && Shaped(b)
  {
    forall k :: Get(a, k) == Get(b, k)
  }

  lemma {:induction false} SomeKey(t: Tree) returns (k: Path)
    requires Canonical(t) && !t.Empty?
    ensures Get(t, k).Some?
  {
    match t
    case Leaf(q, _) => k := q;
    case Ext(q, c) =>
      var k1 := SomeKey(c);
      k := q + k1;
      assert k[|q|..] == k1;
    case Branch(cs, at) =>
      var i :| 0 <= i < 16 && !cs[i].Empty?;
      var k1 := SomeKey(cs[i]);
      k := [i] + k1;
      assert k[1..] == k1;
  }

  /** Two keys of a branch that already differ in their first step. */
  lemma Fork(t: Tree) returns (a: Path, b: Path)
    requires Canonical(t) && t.Branch?
    ensures Get(t, a).Some? && Get(t, b).Some? && |a| > 0 && (|b| == 0 || a[0] != b[0])
  {
    var cs, at := t.children, t.at;
    var i :| 0 <= i < 16 && !cs[i].Empty? && (at.Some? || exists j :: i < j < 16 && !cs[j].Empty?);
    var k := SomeKey(cs[i]);
    a, b := [i] + k, [];
    assert a[1..] == k;
    if at.None? {
      var j :| i < j < 16 && !cs[j].Empty?;
      var l := SomeKey(cs[j]);
      b := [j] + l;
      assert b[1..] == l;
    }
  }

  lemma ForkBehind(t: Tree) returns (a: Path, b: Path)
    requires Canonical(t) && t.Ext?
    ensures t.path <= a && t.path <= b && Get(t, a).Some? && Get(t, b).Some?
    ensures |a| > |t.path| && (|b| == |t.path| || a[|t.path|] != b[|t.path|])
  {
    var x, y := Fork(t.child);
    a, b := t.path + x, t.path + y;
    assert a[|t.path|..] == x && b[|t.path|..] == y;
  }

  lemma LeafAlone(a: Tree, b: Tree)
    requires a.Leaf? && Canonical(b) && SameContents(a, b)
    ensures a == b
  {
    assert Get(a, a.path) == Some(a.value);
    assert Get(b, a.path) == Some(a.value);
    if b.Branch? {
      var x, y := Fork(b);
      assert false;
    } else if b.Ext? {
      var x, y := ForkBehind(b);
      assert false;
    }
  }

  lemma ExtPrefixes(a: Tree, b: Tree)
    requires Canonical(a) && Canonical(b) && a.Ext? && !b.Leaf? && SameContents(a, b)
    ensures b.Ext? && b.path <= a.path
  {
    var x, y := ForkBehind(a);
    assert Get(b, x).Some? && Get(b, y).Some?;
    if b.Branch? {
      var u, w := Fork(b);
      assert false;
    }
    forall i | 0 <= i < |b.path| ensures i < |a.path| && a.path[i] == b.path[i] {
      assert x[i] == b.path[i] == y[i];
    }
  }

  lemma {:induction false} Unique(a: Tree, b: Tree)
    requires Canonical(a) && Canonical(b) && SameContents(a, b)
    ensures a == b
    decreases a
  {
    if a.Leaf? {
      LeafAlone(a, b);
    } else if b.Leaf? {
      LeafAlone(b, a);
    } else if a.Empty? {
      if !b.Empty? {
        var k := SomeKey(b);
        assert false;
      }
    } else if a.Ext? {
      ExtPrefixes(a, b);
      ExtPrefixes(b, a);
      forall k ensures Get(a.child, k) == Get(b.child, k) {
        assert Get(a, a.path + k) == Get(b, a.path + k);
        assert (a.path + k)[|a.path|..] == k;
      }
      Unique(a.child, b.child);
    } else {
      UniqueBranch(a, b);
      forall i | 0 <= i < 16 ensures a.children[i] == b.children[i] {
        forall k ensures Get(a.children[i], k) == Get(b.children[i], k) {
          assert Get(a, [i] + k) == Get(b, [i] + k);
          assert ([i] + k)[1..] == k;
        }
        Unique(a.children[i], b.children[i]);
      }
    }
  }

  lemma UniqueBranch(a: Tree, b: Tree)
    requires Canonical(a) && Canonical(b) && a.Branch? && !b.Leaf? && SameContents(a, b)
    ensures b.Branch? && a.at == b.at
  {
    assert Get(a, []) == a.at;
    var x, y := Fork(a);
    assert Get(b, x).Some? && Get(b, y).Some?;
    if b.Ext? {
      ExtPrefixes(b, a);
      assert false;
    }
  }

  // Histories

  datatype Op = PutOp(path: Path, value: Bytes) | DelOp(path: Path)

  ghost function RunTree(ops: seq<Op>): (t: Tree)
    ensures Canonical(t)
  {
    if |ops| == 0 then Empty else StepTree(RunTree(ops[..|ops| - 1]), ops[|ops| - 1])
  }

  ghost function StepTree(t: Tree, op: Op): (t': Tree)
    requires Canonical(t)
    ensures Canonical(t')
  {
    match op
    case PutOp(p, v) => PutCanonical(t, p, v); Put(t, p, v)
    case DelOp(p) => DelCanonical(t, p); Del(t, p)
  }

  function RunMap(ops: seq<Op>): map<Path, Bytes> {
    if |ops| == 0 then map[] else
    var m := RunMap(ops[..|ops| - 1]);
    match ops[|ops| - 1]
    case PutOp(p, v) => m[p := v]
    case DelOp(p) => m - {p}
  }

  function Find(m: map<Path, Bytes>, p: Path): Option<Bytes> {
    if p in m then Some(m[p]) else None
  }

  /** After any history of insertions and deletions the trie reads like the plain map. */
  lemma {:induction false} HistoryRefinesMap(ops: seq<Op>, k: Path)
    ensures Get(RunTree(ops), k) == Find(RunMap(ops), k)
  {
    if |ops| > 0 {
      var t := RunTree(ops[..|ops| - 1]);
      HistoryRefinesMap(ops[..|ops| - 1], k);
      match ops[|ops| - 1]
      case PutOp(p, v) => PutGet(t, p, v, k);
      case DelOp(p) => DelGet(t, p, k);
    }
  }

  /** The tree depends on the final contents only, never on the order or kind of operations. */
  lemma HistoryIndependence(ops: seq<Op>, ops': seq<Op>)
    ensures RunTree(ops) == RunTree(ops') <==> RunMap(ops) == RunMap(ops')
  {
    forall k ensures Get(RunTree(ops), k) == Find(RunMap(ops), k)
    {
      HistoryRefinesMap(ops, k);
    }
    forall k ensures Get(RunTree(ops'), k) == Find(RunMap(ops'), k)
    {
      HistoryRefinesMap(ops', k);
    }
    if RunMap(ops) == RunMap(ops') {
      assert SameContents(RunTree(ops), RunTree(ops'));
      Unique(RunTree(ops), RunTree(ops'));
    }
    if RunTree(ops) == RunTree(ops') {
      forall k ensures Find(RunMap(ops), k) == Find(RunMap(ops'), k) {}
      assert forall k :: k in RunMap(ops) <==> Find(RunMap(ops), k).Some?;
      assert forall k :: k in RunMap(ops') <==> Find(RunMap(ops'), k).Some?;
      assert forall k | k in RunMap(ops) :: RunMap(ops)[k] == Find(RunMap(ops), k).value;
      assert RunMap(ops) == RunMap(ops');
    }
  }
}
