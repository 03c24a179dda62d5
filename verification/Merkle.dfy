/**
 Hash pointers: the root of a tree, what a content-addressed node map must hold for the
 tree to be readable from its root, and inclusion proofs (trie/trie.go, trie/proof.go).
 */
module Merkle {
  import opened Core
  import opened Codec
  import opened Tree

  const MAX_PATH: int := 0xFFFF

  /** Keys are hashed to 32 bytes, so every path of the secure trie has 64 nibbles. */
  const KEY_LEN: int := 64

  /** Keys of at most `n` nibbles and values of less than 4 GiB, so that every length field is wide enough. */
  ghost predicate Fits(t: Tree, n: int)
    ensures Fits(t, n) ==> Shaped(t)
  {
    match t
    case Empty => true
    case Leaf(q, v) => |q| <= n && |v| < 0x1_0000_0000
    case Ext(q, c) => |q| <= n && Fits(c, n - |q|)
    case Branch(_, at) =>
      && 0 <= n && |t.children| == 16 && (at.Some? ==> |at.value| < 0x1_0000_0000)
      && forall i | 0 <= i < 16 :: Fits(t.children[i], n - 1)
  }

  lemma {:induction false} FitsMore(t: Tree, n: int, m: int)
    requires Fits(t, n) && n <= m
    ensures Fits(t, m)
  {
    match t
    case Empty =>
    case Leaf(q, v) =>
    case Ext(q, c) => FitsMore(c, n - |q|, m - |q|);
    case Branch(cs, at) => forall i | 0 <= i < 16 ensures Fits(cs[i], m - 1) { FitsMore(cs[i], n - 1, m - 1); }
  }

  lemma SplitFits(q: Path, was: Tree, wasAt: Option<Bytes>, p: Path, v: Bytes, n: int)
    requires |p| <= n && |v| < 0x1_0000_0000 && (wasAt.Some? ==> |wasAt.value| < 0x1_0000_0000)
    requires |q| > 0 ==> Fits(was, n - 1)
    ensures Fits(Split(q, was, wasAt, p, v), n)
  {
  }

  lemma PutLeafFits(q: Path, w: Bytes, p: Path, v: Bytes, n: int)
    requires |q| <= n && |w| < 0x1_0000_0000 && |p| <= n && |v| < 0x1_0000_0000
    ensures Fits(PutLeaf(q, w, p, v), n)
  {
  }

  lemma SplitExtFits(q: Path, c: Tree, p: Path, v: Bytes, n: int)
    requires |q| <= n && Fits(c, n - |q|) && CommonPrefix(p, q) < |q| && |p| <= n && |v| < 0x1_0000_0000
    ensures Fits(SplitExt(q, c, p, v), n)
  {
    hide Split;
    var cp := CommonPrefix(p, q);
    var rem := q[cp + 1..];
    assert n - |q| == n - cp - 1 - |rem|;
    var was := Wrap(rem, c);
    assert Fits(was, n - cp - 1);
    SplitFits(q[cp..], was, None, p[cp..], v, n - cp);
  }

  lemma {:induction false} PutFits(t: Tree, p: Path, v: Bytes, n: int)
    requires Fits(t, n) && |p| <= n && |v| < 0x1_0000_0000
    ensures Fits(Put(t, p, v), n)
  {
    match t
    case Empty =>
    case Leaf(q, w) => PutLeafFits(q, w, p, v, n);
    case Ext(q, c) =>
      if CommonPrefix(p, q) == |q| {
        PutFits(c, p[|q|..], v, n - |q|);
      } else {
        SplitExtFits(q, c, p, v, n);
      }
    case Branch(cs, at) => if |p| > 0 { PutFits(cs[p[0]], p[1..], v, n - 1); }
  }

  lemma MergeFits(q: Path, t: Tree, n: int)
    requires Fits(t, n - |q|) && !t.Empty?
    ensures Fits(Merge(q, t), n)
  {
  }

  lemma CollapseFits(cs: seq<Tree>, at: Option<Bytes>, n: int)
    requires 0 <= n && |cs| == 16 && (at.Some? ==> |at.value| < 0x1_0000_0000) && forall i | 0 <= i < 16 :: Fits(cs[i], n - 1)
    ensures Fits(Collapse(cs, at), n)
  {
  }

  lemma {:induction false} DelFits(t: Tree, p: Path, n: int)
    requires Fits(t, n)
    ensures Fits(Del(t, p), n)
  {
    match t
    case Empty =>
    case Leaf(q, w) =>
    case Ext(q, c) =>
      if q <= p {
        DelFits(c, p[|q|..], n - |q|);
        var c' := Del(c, p[|q|..]);
        if !c'.Empty? { MergeFits(q, c', n); }
      }
    case Branch(cs, at) =>
      if |p| > 0 {
        DelFits(cs[p[0]], p[1..], n - 1);
        CollapseFits(cs[p[0] := Del(cs[p[0]], p[1..])], at, n);
      } else {
        CollapseFits(cs, None, n);
      }
  }

  // Roots

  function NodeOf(sum: Bytes -> Hash, t: Tree): Node
    requires Shaped(t) && !t.Empty?
    decreases t, 0
  {
    match t
    case Leaf(q, v) => LeafNode(q, v)
    case Ext(q, c) => ExtensionNode(q, Root(sum, c))
    case Branch(_, at) => BranchNode(seq<Hash>(16, i requires 0 <= i < 16 => Root(sum, t.children[i])), at)
  }

  /** The hash pointer that stands for `t`: zero for no node, else the digest of the node's encoding. */
  function Root(sum: Bytes -> Hash, t: Tree): Hash
    requires Shaped(t)
    decreases t, 1
  {
    if t.Empty? then ZERO_HASH else sum(Encode(NodeOf(sum, t)))
  }

  /** Every node of `t` has its encoding among `w`. */
  ghost predicate InPlay(sum: Bytes -> Hash, t: Tree, w: set<Bytes>)
    requires Shaped(t)
  {
    !t.Empty? ==>
      && Encode(NodeOf(sum, t)) in w
      && (t.Ext? ==> InPlay(sum, t.child, w))
      && (t.Branch? ==> forall i | 0 <= i < 16 :: InPlay(sum, t.children[i], w))
  }

  lemma {:induction false} InPlayMore(sum: Bytes -> Hash, t: Tree, w: set<Bytes>, w': set<Bytes>)
    requires Shaped(t) && InPlay(sum, t, w) && w <= w'
    ensures InPlay(sum, t, w')
  {
    match t
    case Empty =>
    case Leaf(q, v) =>
    case Ext(q, c) => InPlayMore(sum, c, w, w');
    case Branch(cs, at) => forall i | 0 <= i < 16 ensures InPlay(sum, cs[i], w') { InPlayMore(sum, cs[i], w, w'); }
  }

  /** The encodings of the nodes of `t`. */
  ghost function Encodings(sum: Bytes -> Hash, t: Tree): (w: set<Bytes>)
    requires Shaped(t)
  {
    if t.Empty? then {} else
    {Encode(NodeOf(sum, t))}
    + (if t.Ext? then Encodings(sum, t.child) else {})
    + (if t.Branch? then set i, e | 0 <= i < 16 && e in Encodings(sum, t.children[i]) :: e else {})
  }

  lemma {:induction false} EncodingsInPlay(sum: Bytes -> Hash, t: Tree, w: set<Bytes>)
    requires Shaped(t)
    ensures InPlay(sum, t, w) <==> Encodings(sum, t) <= w
  {
    match t
    case Empty =>
    case Leaf(q, v) =>
    case Ext(q, c) => EncodingsInPlay(sum, c, w);
    case Branch(cs, at) => forall i | 0 <= i < 16 { EncodingsInPlay(sum, cs[i], w); }
  }

  lemma NodeInRange(sum: Bytes -> Hash, t: Tree, n: int)
    requires Fits(t, n) && n <= MAX_PATH && !t.Empty?
    ensures InRange(NodeOf(sum, t))
  {
  }

  /** Distinct trees have distinct roots, as long as no two encodings in play collide. */
  lemma {:induction false} RootInjective(sum: Bytes -> Hash, a: Tree, b: Tree, w: set<Bytes>, n: int, m: int)
    requires Fits(a, n) && Fits(b, m) && n <= MAX_PATH && m <= MAX_PATH
    requires InPlay(sum, a, w) && InPlay(sum, b, w) && NoCollision(sum, w)
    ensures Root(sum, a) == Root(sum, b) ==> a == b
    decreases a
  {
    hide Encode;
    if Root(sum, a) == Root(sum, b) && !a.Empty? && !b.Empty? {
      NodeInRange(sum, a, n);
      NodeInRange(sum, b, m);
      EncodeInjective(NodeOf(sum, a), NodeOf(sum, b));
      assert NodeOf(sum, a) == NodeOf(sum, b);
      if a.Ext? {
        RootInjective(sum, a.child, b.child, w, n - |a.path|, m - |b.path|);
      } else if a.Branch? {
        forall i | 0 <= i < 16 ensures a.children[i] == b.children[i] {
          assert NodeOf(sum, a).children[i] == NodeOf(sum, b).children[i];
          RootInjective(sum, a.children[i], b.children[i], w, n - 1, m - 1);
        }
      }
    }
  }

  // Reading the node map

  /** An extension that consumes no nibble would make the walk spin. */
  predicate Advances(enc: Bytes, n: int) {
    var node := Decode(enc);
    node.Ok? && node.value.ExtensionNode? ==> 0 < |node.value.nibbles| <= n
  }

  /** Every stored extension consumes at least one and at most `n` nibbles. */
  ghost predicate Progress(nodes: map<Hash, Bytes>, n: int) {
    forall h | h in nodes :: Advances(nodes[h], n)
  }

  function Lookup(nodes: map<Hash, Bytes>, root: Hash, p: Path): Option<Bytes>
    requires Progress(nodes, MAX_PATH)
    decreases |p|
  {
    if root == ZERO_HASH || root !in nodes then None else
    match Decode(nodes[root])
    case Err(_) => None
    case Ok(LeafNode(q, v)) => if q == p then Some(v) else None
    case Ok(ExtensionNode(q, c)) =>
      assert Advances(nodes[root], MAX_PATH);
      if |p| < |q| || q != p[..|q|] then None else Lookup(nodes, c, p[|q|..])
    case Ok(BranchNode(cs, at)) => if |p| == 0 then at else Lookup(nodes, cs[p[0]], p[1..])
  }

  /** `nodes` is what storing exactly the encodings `w` leaves behind. */
  ghost predicate Backed(sum: Bytes -> Hash, nodes: map<Hash, Bytes>, w: set<Bytes>) {
    && (forall e | e in w :: sum(e) in nodes)
    && (forall h | h in nodes :: nodes[h] in w && sum(nodes[h]) == h)
  }

  lemma ReadNode(sum: Bytes -> Hash, nodes: map<Hash, Bytes>, w: set<Bytes>, t: Tree, n: int)
    requires Backed(sum, nodes, w) && NoCollision(sum, w)
    requires Fits(t, n) && n <= MAX_PATH && InPlay(sum, t, w) && !t.Empty?
    ensures Root(sum, t) != ZERO_HASH && Root(sum, t) in nodes
    ensures Decode(nodes[Root(sum, t)]) == Ok(NodeOf(sum, t))
  {
    NodeInRange(sum, t, n);
    RoundTrip(NodeOf(sum, t));
    assert sum(Encode(NodeOf(sum, t))) in nodes;
  }

  /** The walk over hash pointers reads exactly the tree. */
  lemma {:induction false} LookupIsGet(sum: Bytes -> Hash, nodes: map<Hash, Bytes>, w: set<Bytes>, t: Tree, p: Path, n: int)
    requires Backed(sum, nodes, w) && NoCollision(sum, w) && Progress(nodes, MAX_PATH)
    requires Fits(t, n) && n <= MAX_PATH && InPlay(sum, t, w)
    ensures Lookup(nodes, Root(sum, t), p) == Get(t, p)
    decreases t
  {
    hide Decode, Encode;
    if !t.Empty? {
      ReadNode(sum, nodes, w, t, n);
      if t.Ext? {
        if t.path <= p { LookupIsGet(sum, nodes, w, t.child, p[|t.path|..], n - |t.path|); }
      } else if t.Branch? {
        if |p| > 0 { LookupIsGet(sum, nodes, w, t.children[p[0]], p[1..], n - 1); }
      }
    }
  }

  /** Growing the node map never changes what an older root reads. */
  lemma OldRootReads(sum: Bytes -> Hash, nodes: map<Hash, Bytes>, w: set<Bytes>, nodes': map<Hash, Bytes>, w': set<Bytes>,
                     t: Tree, p: Path)
    requires Backed(sum, nodes, w) && Progress(nodes, MAX_PATH) && Backed(sum, nodes', w') && Progress(nodes', MAX_PATH)
    requires w <= w' && NoCollision(sum, w')
    requires Fits(t, MAX_PATH) && InPlay(sum, t, w)
    ensures Lookup(nodes', Root(sum, t), p) == Lookup(nodes, Root(sum, t), p) == Get(t, p)
  {
    InPlayMore(sum, t, w, w');
    LookupIsGet(sum, nodes, w, t, p, MAX_PATH);
    LookupIsGet(sum, nodes', w', t, p, MAX_PATH);
  }

  /** Two histories over any stores end in the same root exactly when they end in the same map. */
  lemma RootsDecideContents(sum: Bytes -> Hash, ops: seq<Op>, ops': seq<Op>, w: set<Bytes>)
    requires Fits(RunTree(ops), MAX_PATH) && Fits(RunTree(ops'), MAX_PATH) && NoCollision(sum, w)
    requires InPlay(sum, RunTree(ops), w) && InPlay(sum, RunTree(ops'), w)
    ensures Root(sum, RunTree(ops)) == Root(sum, RunTree(ops')) <==> RunMap(ops) == RunMap(ops')
  {
    HistoryIndependence(ops, ops');
    RootInjective(sum, RunTree(ops), RunTree(ops'), w, MAX_PATH, MAX_PATH);
  }

  // Inclusion proofs

  type Proof = seq<Bytes>

  /** Collects every node visited, outermost first, together with the value found. */
  function GenProof(nodes: map<Hash, Bytes>, root: Hash, p: Path): (r: (Proof, Option<Bytes>))
    requires Progress(nodes, MAX_PATH)
    ensures r.1 == Lookup(nodes, root, p)
    decreases |p|
  {
    if root == ZERO_HASH || root !in nodes then ([], None) else
    var enc := nodes[root];
    match Decode(enc)
    case Err(_) => ([enc], None)
    case Ok(LeafNode(q, v)) => ([enc], if q == p then Some(v) else None)
    case Ok(ExtensionNode(q, c)) =>
      assert Advances(nodes[root], MAX_PATH);
      if |p| < |q| || q != p[..|q|] then ([enc], None) else
      var rest := GenProof(nodes, c, p[|q|..]);
      ([enc] + rest.0, rest.1)
    case Ok(BranchNode(cs, at)) =>
      if |p| == 0 then ([enc], at) else
      var rest := GenProof(nodes, cs[p[0]], p[1..]);
      ([enc] + rest.0, rest.1)
  }

  /** What the verifier's loop decides: each element hashes to the pointer its predecessor named. */
  predicate Accepts(sum: Bytes -> Hash, expected: Hash, p: Path, v: Bytes, proof: Proof)
    decreases |proof|
  {
    |proof| > 0 && sum(proof[0]) == expected &&
    match Decode(proof[0])
    case Err(_) => false
    case Ok(LeafNode(q, w)) => |proof| == 1 && q == p && w == v
    case Ok(ExtensionNode(q, c)) => |proof| > 1 && q <= p && Accepts(sum, c, p[|q|..], v, proof[1..])
    case Ok(BranchNode(cs, at)) =>
      if |p| == 0 then |proof| == 1 && at == Some(v)
      else |proof| > 1 && Accepts(sum, cs[p[0]], p[1..], v, proof[1..])
  }

  method VerifyProof(sum: Bytes -> Hash, root: Hash, rawKey: Bytes, value: Bytes, proof: Proof) returns (ok: bool)
    ensures ok == Accepts(sum, root, Nibbles(sum(rawKey)), value, proof)
  {
    var p := NibblesOf(sum(rawKey));
    var expected := root;
    for i := 0 to |proof|
      invariant Accepts(sum, root, Nibbles(sum(rawKey)), value, proof) == Accepts(sum, expected, p, value, proof[i..])
    {
      var enc := proof[i];
      assert proof[i..][0] == enc && proof[i..][1..] == proof[i + 1..];
      if sum(enc) != expected {
        return false;
      }
      var last := i == |proof| - 1;
      match Decode(enc) {
        case Err(_) =>
          return false;
        case Ok(LeafNode(q, w)) =>
          if !last {
            return false;
          }
          return q == p && w == value;
        case Ok(ExtensionNode(q, c)) =>
          if last {
            return false;
          }
          if |p| < |q| || q != p[..|q|] {
            return false;
          }
          p := p[|q|..];
          expected := c;
        case Ok(BranchNode(cs, at)) =>
          if |p| == 0 {
            if !last {
              return false;
            }
            return at.Some? && at.value == value;
          }
          if last {
            return false;
          }
          expected := cs[p[0]];
          p := p[1..];
      }
    }
    ok := false;
  }

  /** Whatever the generator finds, the verifier accepts. */
  lemma {:induction false} ProofComplete(sum: Bytes -> Hash, nodes: map<Hash, Bytes>, root: Hash, p: Path)
    requires Progress(nodes, MAX_PATH) && forall h | h in nodes :: sum(nodes[h]) == h
    ensures var (proof, found) := GenProof(nodes, root, p);
            found.Some? ==> |proof| > 0 && Accepts(sum, root, p, found.value, proof)
    decreases |p|
  {
    var (proof, found) := GenProof(nodes, root, p);
    if found.Some? {
      assert proof[0] == nodes[root] && sum(proof[0]) == root;
      match Decode(nodes[root])
      case Ok(LeafNode(q, v)) =>
      case Ok(ExtensionNode(q, c)) =>
        assert Advances(nodes[root], MAX_PATH);
        ProofComplete(sum, nodes, c, p[|q|..]);
        assert proof[1..] == GenProof(nodes, c, p[|q|..]).0;
      case Ok(BranchNode(cs, at)) =>
        if |p| > 0 {
          ProofComplete(sum, nodes, cs[p[0]], p[1..]);
          assert proof[1..] == GenProof(nodes, cs[p[0]], p[1..]).0;
        }
    }
  }

  /** Whatever the verifier accepts against a real root is what the trie holds there. */
  lemma {:induction false} ProofSound(sum: Bytes -> Hash, t: Tree, w: set<Bytes>, p: Path, v: Bytes, proof: Proof, n: int)
    requires Fits(t, n) && n <= MAX_PATH && InPlay(sum, t, w)
    requires forall e | e in proof :: e in w
    requires NoCollision(sum, w)
    requires Accepts(sum, Root(sum, t), p, v, proof)
    ensures Get(t, p) == Some(v)
    decreases |proof|
  {
    assert proof[0] in w;
    assert !t.Empty?;
    NodeInRange(sum, t, n);
    RoundTrip(NodeOf(sum, t));
    assert proof[0] == Encode(NodeOf(sum, t));
    if t.Ext? {
      ProofSound(sum, t.child, w, p[|t.path|..], v, proof[1..], n - |t.path|);
    } else if t.Branch? && |p| > 0 {
      ProofSound(sum, t.children[p[0]], w, p[1..], v, proof[1..], n - 1);
    }
  }

  /** The only proof that is accepted for a key is the one generated for it. */
  lemma {:induction false} ProofUnique(sum: Bytes -> Hash, nodes: map<Hash, Bytes>, t: Tree, w: set<Bytes>, p: Path, v: Bytes,
                                       proof: Proof, n: int)
    requires Backed(sum, nodes, w) && Progress(nodes, MAX_PATH)
    requires Fits(t, n) && n <= MAX_PATH && InPlay(sum, t, w)
    requires (forall e | e in proof :: e in w) && NoCollision(sum, w)
    requires Accepts(sum, Root(sum, t), p, v, proof)
    ensures GenProof(nodes, Root(sum, t), p) == (proof, Some(v))
    decreases |proof|
  {
    hide Encode, Decode, Backed;
    assert proof[0] in w;
    assert !t.Empty?;
    ReadNode(sum, nodes, w, t, n);
    HeldNode(sum, nodes, w, t, n, proof[0]);
    assert proof == [proof[0]] + proof[1..];
    if t.Leaf? {
      assert proof == [proof[0]];
    } else if t.Ext? {
      ProofUnique(sum, nodes, t.child, w, p[|t.path|..], v, proof[1..], n - |t.path|);
    } else if |p| > 0 {
      ProofUnique(sum, nodes, t.children[p[0]], w, p[1..], v, proof[1..], n - 1);
    } else {
      assert proof == [proof[0]];
    }
  }

  lemma HeldNode(sum: Bytes -> Hash, nodes: map<Hash, Bytes>, w: set<Bytes>, t: Tree, n: int, e: Bytes)
    requires Backed(sum, nodes, w) && NoCollision(sum, w) && Fits(t, n) && n <= MAX_PATH && InPlay(sum, t, w) && !t.Empty?
    requires e in w && sum(e) == Root(sum, t)
    ensures Root(sum, t) in nodes && nodes[Root(sum, t)] == e && e == Encode(NodeOf(sum, t)) && Decode(e) == Ok(NodeOf(sum, t))
  {
    NodeInRange(sum, t, n);
    RoundTrip(NodeOf(sum, t));
    assert sum(Encode(NodeOf(sum, t))) in nodes;
  }
}
