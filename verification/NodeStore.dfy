/**
 The content-addressed node map of the trie and the path-copying operations that write
 into it (trie/trie.go, trie/node.go). Hash pointers in, hash pointers out; each method is
 proved to compute the tree operation of the same name.
 */
module NodeStore {
  import opened Core
  import opened Codec
  import T = Tree
  import opened Merkle

  type Tree = T.Tree

  class NodeStore {
    const sum: Bytes -> Hash
    var nodes: map<Hash, Bytes>
    /** Every encoding ever stored: the byte strings in play for the no-collision hypothesis. */
    ghost var written: set<Bytes>

    ghost predicate Valid()
      reads this
    {
      Backed(sum, nodes, written)
    }

    /** What is known of a pointer: nothing (None), or the tree it names, every node of it stored. */
    ghost predicate Known(t: Option<Tree>, root: Hash)
      reads this
    {
      t.Some? ==> Fits(t.value, KEY_LEN) && InPlay(sum, t.value, written) && root == Root(sum, t.value)
    }

    /** `root` names `t`, provided `known` was a fact and no two encodings in play collide. */
    ghost predicate Names(known: bool, root: Hash, t: Tree)
      requires known ==> T.Shaped(t)
      reads this
    {
      known && NoCollision(sum, written) ==> root == Root(sum, t) && InPlay(sum, t, written)
    }

    /** Strings that no others in `u` collide with, and that hold all before and all of `t`, hold all that is written. */
    twostate predicate Stays(known: bool, t: Tree, u: set<Bytes>)
      requires known ==> T.Shaped(t)
      reads this
    {
      known && old(written) <= u && NoCollision(sum, u) && InPlay(sum, t, u) ==> written <= u
    }

    constructor (sum: Bytes -> Hash)
      ensures Valid() && this.sum == sum && nodes == map[] && written == {}
    {
      this.sum := sum;
      nodes := map[];
      written := {};
    }

    method Store(n: Node, ghost k: int) returns (h: Hash)
      requires Valid()
      modifies this
      ensures Valid() && h == sum(Encode(n)) && h in nodes
      ensures nodes == old(nodes)[h := Encode(n)] && written == old(written) + {Encode(n)}
      ensures Progress(old(nodes), k) && Proper(n, k) ==> Progress(nodes, k)
    {
      var enc := Encode(n);
      h := sum(enc);
      nodes := nodes[h := enc];
      written := written + {enc};
      if Proper(n, k) { ProperAdvances(n, k); }
    }

    method StoreLeaf(q: Path, v: Bytes, ghost k: int, ghost u: set<Bytes>) returns (h: Hash)
      requires Valid()
      modifies this
      ensures Valid() && old(written) <= written && (Progress(old(nodes), k) ==> Progress(nodes, k))
      ensures h == Root(sum, T.Leaf(q, v)) && InPlay(sum, T.Leaf(q, v), written) && Stays(true, T.Leaf(q, v), u)
    {
      hide Encode, Decode;
      h := Store(LeafNode(q, v), k);
    }

    method StoreBranch(children: Children, at: Option<Bytes>, ghost ts: Option<seq<Tree>>, ghost k: int, ghost u: set<Bytes>)
      returns (h: Hash)
      requires Valid() && (ts.Some? ==> PointersTo(sum, children, ts.value, written))
      modifies this
      ensures Valid() && old(written) <= written && (Progress(old(nodes), k) ==> Progress(nodes, k))
      ensures ts.Some? ==>
                var b := T.Branch(ts.value, at);
                T.Shaped(b) && h == Root(sum, b) && InPlay(sum, b, written) && Stays(true, b, u)
    {
      hide Encode, Decode, NoCollision;
      h := Store(BranchNode(children, at), k);
      if ts.Some? {
        assert NodeOf(sum, T.Branch(ts.value, at)).children == children;
        PointersKept(sum, children, ts.value, old(written), written);
      }
    }

    method StoreExtension(q: Path, child: Hash, ghost c: Option<Tree>, ghost k: int, ghost u: set<Bytes>) returns (h: Hash)
      requires Valid() && |q| > 0
      requires c.Some? ==> T.Shaped(c.value) && InPlay(sum, c.value, written) && child == Root(sum, c.value)
      modifies this
      ensures Valid() && old(written) <= written && (Progress(old(nodes), k) && |q| <= k <= MAX_PATH ==> Progress(nodes, k))
      ensures c.Some? ==>
                var t := T.Ext(q, c.value);
                h == Root(sum, t) && InPlay(sum, t, written) && Stays(true, t, u)
    {
      hide Encode, Decode, NoCollision;
      h := Store(ExtensionNode(q, child), k);
      if c.Some? { InPlayMore(sum, c.value, old(written), written); }
    }

    method Get(root: Hash, rawKey: Bytes, ghost t: Option<Tree>) returns (v: Option<Bytes>)
      requires Valid() && Progress(nodes, MAX_PATH) && Known(t, root)
      ensures v == Lookup(nodes, root, Nibbles(sum(rawKey)))
      ensures t.Some? && NoCollision(sum, written) ==> v == T.Get(t.value, Nibbles(sum(rawKey)))
    {
      var p := NibblesOf(sum(rawKey));
      v := Lookup(nodes, root, p);
      if t.Some? && NoCollision(sum, written) {
        LookupIsGet(sum, nodes, written, t.value, p, KEY_LEN);
      }
    }

    // Insertion

    /** The tail of both insertion splits: place the new value, store the branch, wrap it. */
    method Finish(children: Children, at: Option<Bytes>, p: Path, cp: nat, value: Bytes, ghost ts: Option<seq<Tree>>,
                  ghost k: int, ghost u: set<Bytes>) returns (r: Hash)
      requires Valid() && Progress(nodes, k) && cp <= |p| <= KEY_LEN <= k <= MAX_PATH
      requires ts.Some? ==> PointersTo(sum, children, ts.value, written)
      modifies this
      ensures Valid() && Progress(nodes, k) && old(written) <= written
      ensures ts.Some? ==>
                var t := T.Wrap(p[..cp], Placed(ts.value, at, p[cp..], value));
                T.Shaped(t) && r == Root(sum, t) && InPlay(sum, t, written) && Stays(true, t, u)
    {
      hide Encode, Decode, NoCollision, Progress, Backed, InPlay, NodeOf, Root;
      var cs, at' := children, at;
      ghost var ts' := ts;
      if ts.Some? { PlacedInPlay(sum, ts.value, at, p, cp, value, u); }
      if cp < |p| {
        var h := StoreLeaf(p[cp + 1..], value, k, u);
        cs := cs[p[cp] := h];
        if ts.Some? {
          ts' := Some(ts.value[p[cp] := T.Leaf(p[cp + 1..], value)]);
          PointersKept(sum, children, ts.value, old(written), written);
          PointersSet(sum, children, ts.value, written, p[cp], T.Leaf(p[cp + 1..], value));
        }
      } else {
        at' := Some(value);
      }
      r := StoreBranch(cs, at', ts', k, u);
      if cp > 0 {
        r := StoreExtension(p[..cp], r, if ts.Some? then Some(T.Branch(ts'.value, at')) else None, k, u);
      }
    }

    method PutIntoLeaf(q: Path, w: Bytes, p: Path, value: Bytes, ghost k: int, ghost u: set<Bytes>) returns (r: Hash)
      requires Valid() && Progress(nodes, k) && |p| <= KEY_LEN <= k <= MAX_PATH
      modifies this
      ensures Valid() && Progress(nodes, k) && old(written) <= written
      ensures T.Shaped(T.PutLeaf(q, w, p, value)) && Stays(true, T.PutLeaf(q, w, p, value), u)
      ensures r == Root(sum, T.PutLeaf(q, w, p, value)) && InPlay(sum, T.PutLeaf(q, w, p, value), written)
    {
      hide Encode, Decode, NoCollision, Progress, Backed, InPlay, NodeOf, Root;
      T.GetPutLeaf(q, w, p, value, []);
      var cp := CommonPrefixLen(p, q);
      if cp == |q| && cp == |p| {
        r := StoreLeaf(p, value, k, u);
        return;
      }
      var children, at := seq<Hash>(16, _ => ZERO_HASH), None;
      ghost var ts := T.NO_CHILDREN;
      if cp < |q| {
        var h := StoreLeaf(q[cp + 1..], w, k, u);
        NoPointers(sum, children, written);
        PointersSet(sum, children, ts, written, q[cp], T.Leaf(q[cp + 1..], w));
        children := children[q[cp] := h];
        ts := ts[q[cp] := T.Leaf(q[cp + 1..], w)];
      } else {
        at := Some(w);
        NoPointers(sum, children, written);
      }
      assert T.PutLeaf(q, w, p, value) == T.Wrap(p[..cp], Placed(ts, at, p[cp..], value));
      PlacedInPlay(sum, ts, at, p, cp, value, u);
      assert cp < |q| ==> ts[q[cp]] == T.Leaf(q[cp + 1..], w);
      r := Finish(children, at, p, cp, value, Some(ts), k, u);
    }

    method PutIntoExtension(q: Path, child: Hash, p: Path, value: Bytes, ghost c: Option<Tree>, ghost k: int, ghost u: set<Bytes>)
      returns (r: Hash)
      requires Valid() && Progress(nodes, k) && 0 < |q| <= k <= MAX_PATH && |p| <= KEY_LEN <= k
      requires Known(c, child)
      modifies this
      ensures Valid() && Progress(nodes, k) && old(written) <= written
      ensures Names(c.Some?, r, if c.Some? then PutShaped(T.Ext(q, c.value), p, value) else T.Empty)
      ensures Stays(c.Some?, if c.Some? then PutShaped(T.Ext(q, c.value), p, value) else T.Empty, u)
      decreases |p|, 0
    {
      hide Encode, Decode, NoCollision;
      var cp := CommonPrefixLen(p, q);
      if cp == |q| {
        var newChild := PutAt(child, p[cp..], value, c, k, u);
        ghost var w := written;
        if w <= u { NoCollisionLess(sum, w, u); }
        r := StoreExtension(q, newChild,
                            if c.Some? && NoCollision(sum, written) then Some(PutShaped(c.value, p[cp..], value)) else None, k, u);
        NoCollisionLess(sum, w, written);
        return;
      }
      r := SplitExtension(q, child, p, value, cp, c, k, u);
    }

    method SplitExtension(q: Path, child: Hash, p: Path, value: Bytes, cp: nat, ghost c: Option<Tree>, ghost k: int, ghost u: set<Bytes>)
      returns (r: Hash)
      requires Valid() && Progress(nodes, k) && |q| <= k <= MAX_PATH && |p| <= KEY_LEN <= k
      requires cp == CommonPrefix(p, q) < |q| && Known(c, child)
      modifies this
      ensures Valid() && Progress(nodes, k) && old(written) <= written
      ensures c.Some? ==>
                var t := T.SplitExt(q, c.value, p, value);
                T.Shaped(t) && r == Root(sum, t) && InPlay(sum, t, written) && Stays(true, t, u)
    {
      hide Encode, Decode, NoCollision, Progress, Backed, InPlay, NodeOf, Root;
      var children := seq<Hash>(16, _ => ZERO_HASH);
      var rem := q[cp + 1..];
      var h := child;
      if |rem| > 0 {
        h := StoreExtension(rem, child, c, k, u);
      }
      ghost var ts := None;
      if c.Some? {
        NoPointers(sum, children, written);
        PointersSet(sum, children, T.NO_CHILDREN, written, q[cp], T.Wrap(rem, c.value));
        ts := Some(T.NO_CHILDREN[q[cp] := T.Wrap(rem, c.value)]);
        assert T.SplitExt(q, c.value, p, value) == T.Wrap(p[..cp], Placed(ts.value, None, p[cp..], value));
        PlacedInPlay(sum, ts.value, None, p, cp, value, u);
        assert ts.value[q[cp]] == T.Wrap(rem, c.value);
      }
      r := Finish(children[q[cp] := h], None, p, cp, value, ts, k, u);
    }

    method PutIntoBranch(children: Children, at: Option<Bytes>, p: Path, value: Bytes, ghost ts: Option<seq<Tree>>,
                         ghost k: int, ghost u: set<Bytes>) returns (r: Hash)
      requires Valid() && Progress(nodes, k) && |p| <= KEY_LEN <= k <= MAX_PATH
      requires ts.Some? ==> PointersTo(sum, children, ts.value, written) && Fits(T.Branch(ts.value, at), KEY_LEN)
      modifies this
      ensures Valid() && Progress(nodes, k) && old(written) <= written
      ensures Names(ts.Some?, r, if ts.Some? then PutShaped(T.Branch(ts.value, at), p, value) else T.Empty)
      ensures Stays(ts.Some?, if ts.Some? then PutShaped(T.Branch(ts.value, at), p, value) else T.Empty, u)
      decreases |p|, 0
    {
      hide Encode, Decode, NoCollision, Progress, Backed, InPlay, NodeOf, Root;
      if |p| == 0 {
        r := StoreBranch(children, Some(value), ts, k, u);
        return;
      }
      var idx := p[0];
      ghost var c := if ts.Some? then Some(ts.value[idx]) else None;
      if c.Some? { FitsMore(c.value, KEY_LEN - 1, KEY_LEN); }
      if c.Some? { PartInPlay(sum, ts.value[idx := PutShaped(c.value, p[1..], value)], at, idx, u); }
      var h := PutAt(children[idx], p[1..], value, c, k, u);
      if written <= u { NoCollisionLess(sum, written, u); }
      ghost var ts' := None;
      if ts.Some? && NoCollision(sum, written) {
        ts' := Some(ts.value[idx := PutShaped(c.value, p[1..], value)]);
        PointersKept(sum, children, ts.value, old(written), written);
        PointersSet(sum, children, ts.value, written, idx, PutShaped(c.value, p[1..], value));
      }
      ghost var w := written;
      r := StoreBranch(children[idx := h], at, ts', k, u);
      NoCollisionLess(sum, w, written);
    }

    method PutAt(root: Hash, p: Path, value: Bytes, ghost t: Option<Tree>, ghost k: int, ghost u: set<Bytes>) returns (r: Hash)
      requires Valid() && Progress(nodes, k) && |p| <= KEY_LEN <= k <= MAX_PATH && Known(t, root)
      modifies this
      ensures Valid() && Progress(nodes, k) && old(written) <= written
      ensures Names(t.Some?, r, if t.Some? then PutShaped(t.value, p, value) else T.Empty)
      ensures Stays(t.Some?, if t.Some? then PutShaped(t.value, p, value) else T.Empty, u)
      ensures root == ZERO_HASH || root !in old(nodes) || Decode(old(nodes)[root]).Err? ==>
                r == Root(sum, T.Leaf(p, value)) && InPlay(sum, T.Leaf(p, value), written)
      decreases |p|, 1
    {
      hide Encode, Decode, NoCollision;
      ReadKnown(sum, nodes, written, t, root);
      if written <= u { NoCollisionLess(sum, written, u); }
      if root == ZERO_HASH || root !in nodes {
        assert t.Some? && NoCollision(sum, written) ==> t.value == T.Empty;
        r := Store(LeafNode(p, value), k);
        NoCollisionLess(sum, old(written), written);
        assert r == Root(sum, T.Leaf(p, value));
        return;
      }
      assert Advances(nodes[root], k);
      ghost var sure := t.Some? && NoCollision(sum, written);
      match Decode(nodes[root]) {
        case Err(_) =>
          r := Store(LeafNode(p, value), k);
        case Ok(LeafNode(q, w)) =>
          r := PutIntoLeaf(q, w, p, value, k, u);
        case Ok(ExtensionNode(q, c)) =>
          if sure { FitsMore(t.value.child, KEY_LEN - |q|, KEY_LEN); }
          r := PutIntoExtension(q, c, p, value, if sure then Some(t.value.child) else None, k, u);
        case Ok(BranchNode(cs, at)) =>
          r := PutIntoBranch(cs, at, p, value, if sure then Some(t.value.children) else None, k, u);
      }
      NoCollisionLess(sum, old(written), written);
    }

    // Deletion. Merging lengthens extensions: `k` bounds them while nothing collides, `m` in any
    // case as long as the two-byte length field has room.

    method MergeIntoExtensionParent(prefix: Path, newChild: Hash, ghost c: Option<Tree>, ghost k: int, ghost m: int,
                                    ghost u: set<Bytes>) returns (r: Hash)
      requires Valid() && |prefix| > 0 && Known(c, newChild)
      requires c.Some? ==> Fits(c.value, KEY_LEN - |prefix|) && !c.value.Empty?
      requires KEY_LEN <= k <= MAX_PATH && k <= m
      modifies this
      ensures Valid() && old(written) <= written
      ensures Progress(old(nodes), m) && m + |prefix| <= MAX_PATH ==> Progress(nodes, m + |prefix|)
      ensures Names(c.Some?, r, if c.Some? then MergeShaped(prefix, c.value) else T.Empty)
      ensures Stays(c.Some?, if c.Some? then MergeShaped(prefix, c.value) else T.Empty, u)
      ensures c.Some? && NoCollision(sum, written) && Progress(old(nodes), k) ==> Progress(nodes, k)
    {
      hide Encode, Decode, NoCollision, Backed, InPlay;
      ReadKnown(sum, nodes, written, c, newChild);
      assert Progress(nodes, m) ==> Progress(nodes, m + |prefix|);
      if written <= u { NoCollisionLess(sum, written, u); }
      ghost var sure := c.Some? && NoCollision(sum, written);
      ghost var b := if sure && Progress(nodes, k) then k else m + |prefix|;
      if newChild !in nodes {
        r := StoreExtension(prefix, newChild, c, m + |prefix|, u);
        NoCollisionLess(sum, old(written), written);
        return;
      }
      assert Progress(nodes, m) ==> Advances(nodes[newChild], m);
      match Decode(nodes[newChild]) {
        case Err(_) =>
          r := StoreExtension(prefix, newChild, c, b, u);
        case Ok(LeafNode(q, v)) =>
          r := StoreLeaf(prefix + q, v, b, u);
        case Ok(ExtensionNode(q, gc)) =>
          if sure { ChildInPlay(sum, c.value, written); }
          r := StoreExtension(prefix + q, gc, if sure then Some(c.value.child) else None, b, u);
        case Ok(BranchNode(_, _)) =>
          r := StoreExtension(prefix, newChild, c, b, u);
      }
      NoCollisionLess(sum, old(written), written);
    }

    /** How many children there are, and the last of them. */
    method CountChildren(children: Children) returns (count: int, onlyIdx: int)
      ensures 0 <= count <= 16 && -1 <= onlyIdx < 16
      ensures count == 0 ==> forall j | 0 <= j < 16 :: children[j] == ZERO_HASH
      ensures count == 1 ==> onlyIdx >= 0 && forall j | 0 <= j < 16 :: children[j] != ZERO_HASH <==> j == onlyIdx
      ensures count >= 2 ==> exists j, k :: 0 <= j < k < 16 && children[j] != ZERO_HASH && children[k] != ZERO_HASH
    {
      onlyIdx, count := -1, 0;
      for i := 0 to 16
        invariant 0 <= count <= i && -1 <= onlyIdx < i
        invariant count == 0 ==> forall j | 0 <= j < i :: children[j] == ZERO_HASH
        invariant count == 1 ==>
            onlyIdx >= 0 && forall j | 0 <= j < i :: children[j] != ZERO_HASH <==> j == onlyIdx
        invariant count >= 2 ==>
            exists j, k :: 0 <= j < k < i && children[j] != ZERO_HASH && children[k] != ZERO_HASH
      {
        if children[i] != ZERO_HASH {
          assert count == 1 ==> children[onlyIdx] != ZERO_HASH;
          count := count + 1;
          onlyIdx := i;
        }
      }
    }

    method CollapseBranch(children: Children, at: Option<Bytes>, ghost ts: Option<seq<Tree>>, ghost k: int, ghost m: int,
                          ghost u: set<Bytes>) returns (r: Hash)
      requires Valid() && KEY_LEN <= k <= MAX_PATH && k <= m
      requires ts.Some? ==> PointersTo(sum, children, ts.value, written) && Fits(T.Branch(ts.value, at), KEY_LEN)
      modifies this
      ensures Valid() && old(written) <= written
      ensures Progress(old(nodes), m) && m < MAX_PATH ==> Progress(nodes, m + 1)
      ensures Names(ts.Some?, r, if ts.Some? then CollapseShaped(ts.value, at) else T.Empty)
      ensures Stays(ts.Some?, if ts.Some? then CollapseShaped(ts.value, at) else T.Empty, u)
      ensures ts.Some? && NoCollision(sum, written) && Progress(old(nodes), k) ==> Progress(nodes, k)
    {
      hide Encode, Decode, NoCollision, Backed, InPlay, NodeOf;
      var count, onlyIdx := CountChildren(children);
      if written <= u { NoCollisionLess(sum, written, u); }
      if ts.Some? && NoCollision(sum, written) {
        CollapseCases(sum, children, ts.value, at, written, count, onlyIdx);
      }
      ghost var b := if Progress(nodes, k) then k else m;
      if count == 0 && at.None? {
        r := ZERO_HASH;
      } else if count == 0 {
        r := StoreLeaf([], at.value, b, u);
      } else if count == 1 && at.None? {
        ghost var c := if ts.Some? && NoCollision(sum, written) then Some(ts.value[onlyIdx]) else None;
        if c.Some? { FitsMore(c.value, KEY_LEN - 1, KEY_LEN); }
        r := MergeIntoExtensionParent([onlyIdx], children[onlyIdx], c, k, m, u);
      } else {
        r := StoreBranch(children, at, ts, b, u);
      }
      NoCollisionLess(sum, old(written), written);
    }

    method DelAt(root: Hash, p: Path, ghost t: Option<Tree>, ghost k: int, ghost u: set<Bytes>) returns (r: Hash)
      requires Valid() && Known(t, root)
      requires KEY_LEN <= k <= MAX_PATH && Progress(nodes, k)
      modifies this
      ensures Valid() && old(written) <= written && (k + |p| < MAX_PATH ==> Progress(nodes, k + |p| + 1))
      ensures Names(t.Some?, r, if t.Some? then DelShaped(t.value, p) else T.Empty)
      ensures t.Some? && old(written) <= u && NoCollision(sum, u) && TrailInPlay(sum, t.value, p, u) ==> written <= u
      ensures t.Some? && NoCollision(sum, written) ==> Progress(nodes, k)
      ensures root == ZERO_HASH || root !in old(nodes) || Decode(old(nodes)[root]).Err? ==>
                r == root && nodes == old(nodes)
      decreases |p|, 1
    {
      hide Encode, Decode, NoCollision;
      ReadKnown(sum, nodes, written, t, root);
      assert Progress(nodes, k + |p| + 1);
      if written <= u { NoCollisionLess(sum, written, u); }
      if root == ZERO_HASH || root !in nodes {
        return root;
      }
      assert Advances(nodes[root], k);
      ghost var sure := t.Some? && NoCollision(sum, written);
      match Decode(nodes[root]) {
        case Err(_) =>
          r := root;
        case Ok(LeafNode(q, _)) =>
          r := if q == p then ZERO_HASH else root;
        case Ok(ExtensionNode(q, c)) =>
          r := DelFromExtension(root, q, c, p, if sure then t else None, k, u);
        case Ok(BranchNode(cs, at)) =>
          r := DelFromBranch(root, cs, at, p, if sure then t else None, k, u);
      }
      NoCollisionLess(sum, old(written), written);
    }

    method DelFromExtension(root: Hash, q: Path, child: Hash, p: Path, ghost t: Option<Tree>, ghost k: int, ghost u: set<Bytes>)
      returns (r: Hash)
      requires Valid() && |q| > 0 && Known(t, root)
      requires KEY_LEN <= k <= MAX_PATH && Progress(nodes, k)
      requires t.Some? ==> t.value.Ext? && q == t.value.path && child == Root(sum, t.value.child)
      modifies this
      ensures Valid() && old(written) <= written && (k + |p| < MAX_PATH ==> Progress(nodes, k + |p| + 1))
      ensures Names(t.Some?, r, if t.Some? then DelShaped(t.value, p) else T.Empty)
      ensures t.Some? && old(written) <= u && NoCollision(sum, u) && TrailInPlay(sum, t.value, p, u) ==> written <= u
      ensures t.Some? && NoCollision(sum, written) ==> Progress(nodes, k)
      decreases |p|, 0
    {
      hide Encode, Decode, Progress, NoCollision, Backed, T.Merge, NodeOf, InPlay;
      ProgressMore(nodes, k, k + |p| + 1);
      if |p| < |q| || q != p[..|q|] {
        return root;
      }
      ghost var c := if t.Some? then Some(t.value.child) else None;
      if c.Some? { ChildInPlay(sum, t.value, written); FitsMore(c.value, KEY_LEN - |q|, KEY_LEN); }
      var newChild := DelAt(child, p[|q|..], c, k, u);
      if written <= u { NoCollisionLess(sum, written, u); }
      ghost var m := k + |p| - |q| + 1;
      if m <= MAX_PATH { ProgressMore(nodes, m, k + |p| + 1); }
      ghost var c', w := None, written;
      if c.Some? && NoCollision(sum, written) {
        c' := Some(DelShaped(c.value, p[|q|..]));
        Compared(sum, c.value, p[|q|..], KEY_LEN - |q|, old(written), written);
      }
      if newChild == ZERO_HASH {
        r := ZERO_HASH;
      } else if newChild == child {
        r := root;
        if t.Some? { InPlayMore(sum, t.value, old(written), written); }
      } else {
        r := MergeIntoExtensionParent(q, newChild, c', k, m, u);
        NoCollisionLess(sum, w, written);
      }
    }

    method DelFromBranch(root: Hash, children: Children, at: Option<Bytes>, p: Path, ghost t: Option<Tree>, ghost k: int,
                         ghost u: set<Bytes>) returns (r: Hash)
      requires Valid() && Known(t, root)
      requires KEY_LEN <= k <= MAX_PATH && Progress(nodes, k)
      requires t.Some? ==> t.value.Branch? && at == t.value.at && PointersTo(sum, children, t.value.children, written)
      requires t.Some? ==> NoCollision(sum, written)
      modifies this
      ensures Valid() && old(written) <= written && (k + |p| < MAX_PATH ==> Progress(nodes, k + |p| + 1))
      ensures Names(t.Some?, r, if t.Some? then DelShaped(t.value, p) else T.Empty)
      ensures t.Some? && old(written) <= u && NoCollision(sum, u) && TrailInPlay(sum, t.value, p, u) ==> written <= u
      ensures t.Some? && NoCollision(sum, written) ==> Progress(nodes, k)
      decreases |p|, 0
    {
      hide Encode, Decode, Progress, NoCollision, Backed, T.Collapse, NodeOf;
      ProgressMore(nodes, k, k + |p| + 1);
      if |p| == 0 {
        if at.None? {
          return root;
        }
        r := CollapseBranch(children, None, if t.Some? then Some(t.value.children) else None, k, k, u);
        return;
      }
      var idx := p[0];
      ghost var c := if t.Some? then Some(t.value.children[idx]) else None;
      if c.Some? {
        FitsMore(c.value, KEY_LEN - 1, KEY_LEN);
        ReadKnown(sum, nodes, written, c, children[idx]);
      }
      if children[idx] == ZERO_HASH {
        return root;
      }
      var newChild := DelAt(children[idx], p[1..], c, k, u);
      if written <= u { NoCollisionLess(sum, written, u); }
      if k + |p| <= MAX_PATH { ProgressMore(nodes, k + |p|, k + |p| + 1); }
      ghost var ts, w := None, written;
      if c.Some? && NoCollision(sum, written) {
        ts := Some(t.value.children[idx := DelShaped(c.value, p[1..])]);
        Compared(sum, c.value, p[1..], KEY_LEN - 1, old(written), written);
        PointersKept(sum, children, t.value.children, old(written), written);
        PointersSet(sum, children, t.value.children, written, idx, DelShaped(c.value, p[1..]));
      }
      if newChild == children[idx] {
        r := root;
        if t.Some? { InPlayMore(sum, t.value, old(written), written); }
      } else {
        r := CollapseBranch(children[idx := newChild], at, ts, k, k + |p|, u);
        NoCollisionLess(sum, w, written);
      }
    }

    // The raw-key interface: a key is hashed first, so every path has 64 nibbles

    method Put(root: Hash, rawKey: Bytes, value: Bytes, ghost t: Option<Tree>, ghost k: int, ghost u: set<Bytes>) returns (r: Hash)
      requires Valid() && Known(t, root) && KEY_LEN <= k <= MAX_PATH && Progress(nodes, k)
      modifies this
      ensures Valid() && Progress(nodes, k) && old(written) <= written
      ensures t.Some? && |value| < 0x1_0000_0000 && NoCollision(sum, written) ==>
                Known(Some(PutShaped(t.value, Nibbles(sum(rawKey)), value)), r)
      ensures Stays(t.Some?, if t.Some? then PutShaped(t.value, Nibbles(sum(rawKey)), value) else T.Empty, u)
    {
      hide Encode, Decode, NoCollision;
      var p := NibblesOf(sum(rawKey));
      r := PutAt(root, p, value, t, k, u);
      if t.Some? && |value| < 0x1_0000_0000 { PutFits(t.value, p, value, KEY_LEN); }
    }

    /** Removes the key if present; an absent key leaves the root as it is. */
    method Delete(root: Hash, rawKey: Bytes, ghost t: Option<Tree>, ghost k: int, ghost u: set<Bytes>) returns (r: Hash)
      requires Valid() && Known(t, root) && KEY_LEN <= k <= MAX_PATH && Progress(nodes, k)
      modifies this
      ensures Valid() && old(written) <= written && (k + KEY_LEN < MAX_PATH ==> Progress(nodes, k + KEY_LEN + 1))
      ensures t.Some? && NoCollision(sum, written) ==>
                Progress(nodes, k) && Known(Some(DelShaped(t.value, Nibbles(sum(rawKey)))), r)
      ensures t.Some? && old(written) <= u && NoCollision(sum, u) && TrailInPlay(sum, t.value, Nibbles(sum(rawKey)), u) ==>
                written <= u
      ensures t.Some? && NoCollision(sum, written) && T.Canonical(t.value) ==>
                (r == root <==> T.Get(t.value, Nibbles(sum(rawKey))).None?)
    {
      hide Encode, Decode;
      var p := NibblesOf(sum(rawKey));
      r := DelAt(root, p, t, k, u);
      if t.Some? && NoCollision(sum, written) {
        Compared(sum, t.value, p, KEY_LEN, old(written), written);
        if T.Canonical(t.value) { T.DelAbsent(t.value, p); }
      }
    }

    /** A proof for the key, with the value the trie holds there. */
    method GenerateProof(root: Hash, rawKey: Bytes, ghost t: Option<Tree>) returns (proof: Proof, v: Option<Bytes>)
      requires Valid() && Progress(nodes, MAX_PATH) && Known(t, root)
      ensures v == Lookup(nodes, root, Nibbles(sum(rawKey)))
      ensures v.Some? ==> Accepts(sum, root, Nibbles(sum(rawKey)), v.value, proof)
      ensures t.Some? && NoCollision(sum, written) ==> v == T.Get(t.value, Nibbles(sum(rawKey)))
    {
      hide Encode, Decode;
      var p := NibblesOf(sum(rawKey));
      var (pr, found) := GenProof(nodes, root, p);
      proof, v := pr, found;
      ProofComplete(sum, nodes, root, p);
      if t.Some? && NoCollision(sum, written) {
        LookupIsGet(sum, nodes, written, t.value, p, KEY_LEN);
      }
    }
  }

  lemma ProgressMore(nodes: map<Hash, Bytes>, k: int, m: int)
    requires Progress(nodes, k) && k <= m
    ensures Progress(nodes, m)
  {
  }

  ghost function PutShaped(t: Tree, p: Path, v: Bytes): (t': Tree)
    requires T.Shaped(t)
    ensures T.Shaped(t') && t' == T.Put(t, p, v)
  {
    T.PutGet(t, p, v, []);
    T.Put(t, p, v)
  }

  ghost function MergeShaped(q: Path, t: Tree): (t': Tree)
    requires T.Shaped(t)
    ensures T.Shaped(t') && t' == T.Merge(q, t)
  {
    T.GetMerge(q, t, []);
    T.Merge(q, t)
  }

  ghost function CollapseShaped(cs: seq<Tree>, at: Option<Bytes>): (t': Tree)
    requires T.Shaped(T.Branch(cs, at))
    ensures T.Shaped(t') && t' == T.Collapse(cs, at)
  {
    T.GetCollapse(cs, at, []);
    T.Collapse(cs, at)
  }

  ghost function DelShaped(t: Tree, p: Path): (t': Tree)
    requires T.Shaped(t)
    ensures T.Shaped(t') && t' == T.Del(t, p)
  {
    T.DelGet(t, p, []);
    T.Del(t, p)
  }

  /** Every tree that a deletion goes through on its way up has its nodes among `u`. */
  ghost predicate TrailInPlay(sum: Bytes -> Hash, t: Tree, p: Path, u: set<Bytes>)
    requires T.Shaped(t)
  {
    && InPlay(sum, DelShaped(t, p), u)
    && (t.Ext? && t.path <= p ==> TrailInPlay(sum, t.child, p[|t.path|..], u))
    && (t.Branch? && |p| > 0 ==> TrailInPlay(sum, t.children[p[0]], p[1..], u))
  }

  /** The encodings that a deletion may write on its way up. */
  ghost function Trail(sum: Bytes -> Hash, t: Tree, p: Path): set<Bytes>
    requires T.Shaped(t)
  {
    Encodings(sum, DelShaped(t, p))
    + (if t.Ext? && t.path <= p then Trail(sum, t.child, p[|t.path|..]) else {})
    + (if t.Branch? && |p| > 0 then Trail(sum, t.children[p[0]], p[1..]) else {})
  }

  lemma {:induction false} TrailIsInPlay(sum: Bytes -> Hash, t: Tree, p: Path, u: set<Bytes>)
    requires T.Shaped(t)
    ensures TrailInPlay(sum, t, p, u) <==> Trail(sum, t, p) <= u
  {
    hide InPlay, Encodings;
    EncodingsInPlay(sum, DelShaped(t, p), u);
    if t.Ext? && t.path <= p {
      TrailIsInPlay(sum, t.child, p[|t.path|..], u);
    } else if t.Branch? && |p| > 0 {
      TrailIsInPlay(sum, t.children[p[0]], p[1..], u);
    }
  }

  /** The branch of a split once the new value is in place. */
  function Placed(ts: seq<Tree>, at: Option<Bytes>, p: Path, value: Bytes): Tree
    requires |ts| == 16
  {
    if |p| > 0 then T.Branch(ts[p[0] := T.Leaf(p[1..], value)], at) else T.Branch(ts, Some(value))
  }

  lemma PartInPlay(sum: Bytes -> Hash, ts: seq<Tree>, at: Option<Bytes>, i: int, u: set<Bytes>)
    requires T.Shaped(T.Branch(ts, at)) && 0 <= i < 16
    ensures InPlay(sum, T.Branch(ts, at), u) ==> InPlay(sum, ts[i], u)
  {
    assert T.Branch(ts, at).children[i] == ts[i];
  }

  lemma ChildInPlay(sum: Bytes -> Hash, t: Tree, u: set<Bytes>)
    requires T.Shaped(t) && t.Ext? && InPlay(sum, t, u)
    ensures InPlay(sum, t.child, u)
  {
  }

  lemma WrapInPlay(sum: Bytes -> Hash, q: Path, t: Tree, u: set<Bytes>)
    requires T.Shaped(t)
    ensures T.Shaped(T.Wrap(q, t)) && (InPlay(sum, T.Wrap(q, t), u) ==> InPlay(sum, t, u))
  {
  }

  lemma PlacedInPlay(sum: Bytes -> Hash, ts: seq<Tree>, at: Option<Bytes>, p: Path, cp: nat, value: Bytes, u: set<Bytes>)
    requires T.Shaped(T.Branch(ts, at)) && cp <= |p|
    ensures T.Shaped(Placed(ts, at, p[cp..], value)) && T.Shaped(T.Wrap(p[..cp], Placed(ts, at, p[cp..], value)))
    ensures InPlay(sum, T.Wrap(p[..cp], Placed(ts, at, p[cp..], value)), u) ==>
              && InPlay(sum, Placed(ts, at, p[cp..], value), u)
              && (cp < |p| ==> InPlay(sum, T.Leaf(p[cp + 1..], value), u))
              && forall i: nibble | cp == |p| || i != p[cp] :: InPlay(sum, ts[i], u)
  {
    hide InPlay, NodeOf;
    var b := Placed(ts, at, p[cp..], value);
    assert T.Shaped(b);
    WrapInPlay(sum, p[..cp], b, u);
    forall i | 0 <= i < 16
      ensures InPlay(sum, b, u) ==> InPlay(sum, b.children[i], u)
    {
      PartInPlay(sum, b.children, b.at, i, u);
    }
    forall i: nibble | cp == |p| || i != p[cp]
      ensures InPlay(sum, b, u) ==> InPlay(sum, ts[i], u)
    {
      assert b.children[i] == ts[i];
    }
    if cp < |p| { assert b.children[p[cp]] == T.Leaf(p[cp..][1..], value) && p[cp..][1..] == p[cp + 1..]; }
  }

  /** An extension whose nibble count survives the 16-bit length field and is not zero. */
  predicate Proper(n: Node, k: int) {
    n.ExtensionNode? ==> 0 < |n.nibbles| <= k <= MAX_PATH
  }

  lemma ProperAdvances(n: Node, k: int)
    requires Proper(n, k)
    ensures Advances(Encode(n), k)
  {
    if n.ExtensionNode? { RoundTrip(n); }
  }

  /** Sixteen pointers naming sixteen stored subtrees. */
  ghost predicate PointersTo(sum: Bytes -> Hash, children: Children, ts: seq<Tree>, w: set<Bytes>) {
    |ts| == 16 && forall i | 0 <= i < 16 :: T.Shaped(ts[i]) && InPlay(sum, ts[i], w) && children[i] == Root(sum, ts[i])
  }

  lemma NoPointers(sum: Bytes -> Hash, children: Children, w: set<Bytes>)
    requires forall i | 0 <= i < 16 :: children[i] == ZERO_HASH
    ensures PointersTo(sum, children, T.NO_CHILDREN, w)
  {
  }

  lemma PointersSet(sum: Bytes -> Hash, children: Children, ts: seq<Tree>, w: set<Bytes>, i: nibble, t: Tree)
    requires PointersTo(sum, children, ts, w) && T.Shaped(t) && InPlay(sum, t, w)
    ensures PointersTo(sum, children[i := Root(sum, t)], ts[i := t], w)
  {
  }

  lemma NoCollisionLess(sum: Bytes -> Hash, w: set<Bytes>, w': set<Bytes>)
    requires w <= w'
    ensures NoCollision(sum, w') ==> NoCollision(sum, w)
  {
  }

  lemma PointersKept(sum: Bytes -> Hash, children: Children, ts: seq<Tree>, w: set<Bytes>, w': set<Bytes>)
    requires PointersTo(sum, children, ts, w) && w <= w'
    ensures PointersTo(sum, children, ts, w')
  {
    forall i | 0 <= i < 16 ensures InPlay(sum, ts[i], w') { InPlayMore(sum, ts[i], w, w'); }
  }

  /** Reading a known pointer, when nothing in play collides, gives the node of its tree. */
  lemma ReadKnown(sum: Bytes -> Hash, nodes: map<Hash, Bytes>, w: set<Bytes>, t: Option<Tree>, root: Hash)
    requires Backed(sum, nodes, w)
    requires t.Some? ==> Fits(t.value, KEY_LEN) && InPlay(sum, t.value, w) && root == Root(sum, t.value)
    ensures t.Some? && NoCollision(sum, w) ==>
              && (root == ZERO_HASH <==> t.value.Empty?)
              && (root != ZERO_HASH ==> root in nodes && Decode(nodes[root]) == Ok(NodeOf(sum, t.value)))
  {
    if t.Some? && NoCollision(sum, w) && !t.value.Empty? { ReadNode(sum, nodes, w, t.value, KEY_LEN); }
  }

  /** Comparing child pointers compares the subtrees before and after a deletion. */
  lemma Compared(sum: Bytes -> Hash, c: Tree, p: Path, n: int, w: set<Bytes>, w': set<Bytes>)
    requires Fits(c, n) && n <= KEY_LEN && InPlay(sum, c, w) && w <= w' && NoCollision(sum, w')
    requires InPlay(sum, DelShaped(c, p), w')
    ensures Fits(T.Del(c, p), n) && Fits(T.Del(c, p), KEY_LEN)
    ensures Root(sum, T.Del(c, p)) == Root(sum, c) <==> T.Del(c, p) == c
    ensures Root(sum, T.Del(c, p)) == ZERO_HASH <==> T.Del(c, p).Empty?
  {
    hide Encode;
    InPlayMore(sum, c, w, w');
    DelFits(c, p, n);
    FitsMore(T.Del(c, p), n, KEY_LEN);
    RootInjective(sum, c, T.Del(c, p), w', n, n);
  }

  /** Counting non-zero pointers decides which shape the branch collapses to. */
  lemma CollapseCases(sum: Bytes -> Hash, children: Children, ts: seq<Tree>, at: Option<Bytes>, w: set<Bytes>, count: int, only: int)
    requires PointersTo(sum, children, ts, w) && NoCollision(sum, w)
    requires count == 0 ==> forall j | 0 <= j < 16 :: children[j] == ZERO_HASH
    requires count == 1 ==> 0 <= only < 16 && forall j | 0 <= j < 16 :: children[j] != ZERO_HASH <==> j == only
    requires count >= 2 ==> exists j, k :: 0 <= j < k < 16 && children[j] != ZERO_HASH && children[k] != ZERO_HASH
    requires 0 <= count
    ensures T.Collapse(ts, at) ==
            if count == 0 then (if at.None? then T.Empty else T.Leaf([], at.value))
            else if count == 1 && at.None? then T.Merge([only], ts[only])
            else T.Branch(ts, at)
    ensures count == 1 ==> !ts[only].Empty?
  {
  }
}
