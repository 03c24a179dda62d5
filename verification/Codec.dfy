/**
 The node codec of the Merkle Patricia trie (trie/node.go): nibble packing, the three
 node kinds, and their tagged, length-prefixed byte encoding.
 */
module Codec {
  import opened Core

  type Path = seq<nibble>
  type Children = c: seq<Hash> | |c| == 16 witness seq<Hash>(16, _ => ZERO_HASH)

  datatype Node =
    | LeafNode(nibbles: Path, value: Bytes)
    | ExtensionNode(nibbles: Path, child: Hash)
    | BranchNode(children: Children, at: Option<Bytes>)

  datatype DecodeError = ShortInput | BadTag

  const TAG_LEAF: byte := 1
  const TAG_EXTENSION: byte := 2
  const TAG_BRANCH: byte := 3

  // Nibbles

  function Nibbles(b: Bytes): (ns: Path)
    ensures |ns| == 2 * |b|
  {
    seq(2 * |b|, i requires 0 <= i < 2 * |b| => if i % 2 == 0 then b[i / 2] / 16 else b[i / 2] % 16)
  }

  method NibblesOf(b: Bytes) returns (out: Path)
    ensures out == Nibbles(b)
  {
    out := [];
    for i := 0 to |b|
      invariant out == Nibbles(b)[..2 * i]
    {
      out := out + [b[i] / 16, b[i] % 16];
    }
  }

  lemma NibblesInjective(a: Bytes, b: Bytes)
    requires |a| == |b|
    ensures Nibbles(a) == Nibbles(b) ==> a == b
  {
    if Nibbles(a) == Nibbles(b) {
      forall i | 0 <= i < |a| ensures a[i] == b[i] {
        assert Nibbles(a)[2 * i] == Nibbles(b)[2 * i];
        assert Nibbles(a)[2 * i + 1] == Nibbles(b)[2 * i + 1];
      }
    }
  }

  /** Two nibbles a byte, high nibble first; an odd tail is padded with a zero low nibble. */
  function Pack(ns: Path): (b: Bytes)
    ensures |b| == (|ns| + 1) / 2
  {
    seq((|ns| + 1) / 2, j requires 0 <= j < (|ns| + 1) / 2 =>
      ns[2 * j] as int * 16 + if 2 * j + 1 < |ns| then ns[2 * j + 1] else 0)
  }

  function Unpack(b: Bytes, count: nat): (ns: Path)
    requires (count + 1) / 2 <= |b|
    ensures |ns| == count
  {
    seq(count, i requires 0 <= i < count => if i % 2 == 0 then b[i / 2] / 16 else b[i / 2] % 16)
  }

  lemma UnpackPack(ns: Path)
    ensures Unpack(Pack(ns), |ns|) == ns
  {
  }

  /** The buffer-filling loop of the source: even nibbles set the high half, odd ones add the low half. */
  method PackNibbles(ns: Path) returns (out: array<byte>)
    ensures fresh(out) && out[..] == Pack(ns)
  {
    out := new byte[(|ns| + 1) / 2](_ => 0);
    for i := 0 to |ns|
      invariant forall j :: 0 <= j < i / 2 ==> out[j] == Pack(ns)[j]
      invariant i % 2 == 1 ==> out[i / 2] == ns[i - 1] as int * 16
    {
      if i % 2 == 0 {
        out[i / 2] := ns[i] as int * 16;
      } else {
        out[i / 2] := out[i / 2] + ns[i];
      }
    }
    assert |ns| % 2 == 1 ==> out[|ns| / 2] == Pack(ns)[|ns| / 2];
  }

  method UnpackNibbles(b: Bytes, count: nat) returns (out: array<nibble>)
    requires (count + 1) / 2 <= |b|
    ensures fresh(out) && out[..] == Unpack(b, count)
  {
    out := new nibble[count](_ => 0);
    for i := 0 to count
      invariant out[..i] == Unpack(b, count)[..i]
    {
      var packed := b[i / 2];
      out[i] := if i % 2 == 0 then packed / 16 else packed % 16;
    }
  }

  function CommonPrefix(a: Path, b: Path): (n: nat)
    ensures n <= |a| && n <= |b| && a[..n] == b[..n]
    ensures n < |a| && n < |b| ==> a[n] != b[n]
  {
    if |a| == 0 || |b| == 0 || a[0] != b[0] then 0
    else
      var n := CommonPrefix(a[1..], b[1..]);
      assert a[..n + 1] == [a[0]] + a[1..][..n];
      assert b[..n + 1] == [b[0]] + b[1..][..n];
      n + 1
  }

  lemma CommonPrefixUnique(a: Path, b: Path, n: nat)
    requires n <= |a| && n <= |b| && a[..n] == b[..n]
    requires n < |a| && n < |b| ==> a[n] != b[n]
    ensures n == CommonPrefix(a, b)
  {
  }

  method CommonPrefixLen(a: Path, b: Path) returns (i: nat)
    ensures i == CommonPrefix(a, b)
  {
    var n := if |b| < |a| then |b| else |a|;
    i := 0;
    while i < n && a[i] == b[i]
      invariant i <= n && a[..i] == b[..i]
    {
      i := i + 1;
    }
    CommonPrefixUnique(a, b, i);
  }

  // Encoding

  function ConcatHashes(children: Children): (b: Bytes)
    ensures |b| == 512
  {
    seq(512, k requires 0 <= k < 512 => children[k / 32][k % 32])
  }

  function SplitHashes(b: Bytes): (children: Children)
    requires |b| >= 512
  {
    seq<Hash>(16, i requires 0 <= i < 16 => b[i * 32..(i + 1) * 32])
  }

  lemma SplitConcat(children: Children, rest: Bytes)
    ensures SplitHashes(ConcatHashes(children) + rest) == children
  {
    var b := ConcatHashes(children) + rest;
    forall i | 0 <= i < 16 ensures SplitHashes(b)[i] == children[i] {
      forall j | 0 <= j < 32 ensures b[i * 32..(i + 1) * 32][j] == children[i][j] {
        assert b[i * 32 + j] == ConcatHashes(children)[i * 32 + j];
        assert (i * 32 + j) / 32 == i && (i * 32 + j) % 32 == j;
      }
    }
  }

  /** The child loop of the branch encoder. */
  method AppendChildren(children: Children) returns (out: Bytes)
    ensures out == ConcatHashes(children)
  {
    out := [];
    for i := 0 to 16
      invariant out == ConcatHashes(children)[..32 * i]
    {
      forall j | 0 <= j < 32
        ensures ConcatHashes(children)[32 * i + j] == children[i][j]
      {
        assert (32 * i + j) / 32 == i && (32 * i + j) % 32 == j;
      }
      out := out + children[i];
    }
  }

  /** The child loop of the branch decoder. */
  method CutChildren(b: Bytes) returns (children: Children)
    requires |b| >= 512
    ensures children == SplitHashes(b)
  {
    children := seq<Hash>(16, _ => ZERO_HASH);
    for i := 0 to 16
      invariant forall j :: 0 <= j < i ==> children[j] == SplitHashes(b)[j]
    {
      children := children[i := b[i * 32..(i + 1) * 32]];
    }
  }

  /** The length fields are 16-bit (nibble count) and 32-bit (value length) and truncate. */
  function Encode(n: Node): (b: Bytes)
    ensures |b| > 0
  {
    match n
    case LeafNode(ns, v) => [TAG_LEAF] + BigEndian(|ns|, 2) + Pack(ns) + BigEndian(|v|, 4) + v
    case ExtensionNode(ns, c) => [TAG_EXTENSION] + BigEndian(|ns|, 2) + Pack(ns) + c
    case BranchNode(cs, None) => [TAG_BRANCH] + ConcatHashes(cs) + [0]
    case BranchNode(cs, Some(v)) => [TAG_BRANCH] + ConcatHashes(cs) + [1] + BigEndian(|v|, 4) + v
  }

  function Decode(enc: Bytes): Result<Node, DecodeError> {
    if |enc| < 1 then Err(ShortInput)
    else if enc[0] == TAG_LEAF then DecodeLeaf(enc[1..])
    else if enc[0] == TAG_EXTENSION then DecodeExtension(enc[1..])
    else if enc[0] == TAG_BRANCH then DecodeBranch(enc[1..])
    else Err(BadTag)
  }

  function DecodeLeaf(b: Bytes): Result<Node, DecodeError> {
    if |b| < 2 then Err(ShortInput) else
    var count := FromBigEndian(b[..2]);
    var b1 := b[2..];
    var packedLen := (count + 1) / 2;
    if |b1| < packedLen + 4 then Err(ShortInput) else
    var ns := Unpack(b1[..packedLen], count);
    var b2 := b1[packedLen..];
    var valLen := FromBigEndian(b2[..4]);
    var b3 := b2[4..];
    if |b3| < valLen then Err(ShortInput) else Ok(LeafNode(ns, b3[..valLen]))
  }

  function DecodeExtension(b: Bytes): Result<Node, DecodeError> {
    if |b| < 2 then Err(ShortInput) else
    var count := FromBigEndian(b[..2]);
    var b1 := b[2..];
    var packedLen := (count + 1) / 2;
    if |b1| < packedLen + HASH_LEN then Err(ShortInput) else
    Ok(ExtensionNode(Unpack(b1[..packedLen], count), b1[packedLen..packedLen + HASH_LEN]))
  }

  function DecodeBranch(b: Bytes): Result<Node, DecodeError> {
    if |b| < 513 then Err(ShortInput) else
    var children := SplitHashes(b);
    var b1 := b[513..];
    if b[512] != 1 then Ok(BranchNode(children, None))
    else if |b1| < 4 then Err(ShortInput) else
    var valLen := FromBigEndian(b1[..4]);
    var b2 := b1[4..];
    if |b2| < valLen then Err(ShortInput) else Ok(BranchNode(children, Some(b2[..valLen])))
  }

  /** What the 16-bit and 32-bit length fields can carry. */
  predicate InRange(n: Node) {
    match n
    case LeafNode(ns, v) => |ns| < 0x1_0000 && |v| < 0x1_0000_0000
    case ExtensionNode(ns, _) => |ns| < 0x1_0000
    case BranchNode(_, v) => v.Some? ==> |v.value| < 0x1_0000_0000
  }

  lemma FieldWidths()
    ensures Pow256(2) == 0x1_0000 && Pow256(4) == 0x1_0000_0000
  {
  }

  lemma AfterChildren(head: Bytes, len: Bytes, v: Bytes, b: Bytes)
    requires |head| == 512 && b == head + ([1] + len + v)
    ensures |b| >= 513 && b[512] == 1 && b[513..] == len + v
  {
  }

  lemma DecodedInRange(enc: Bytes)
    ensures Decode(enc).Ok? ==> InRange(Decode(enc).value)
  {
  }

  /** Decoding undoes encoding exactly on the nodes whose lengths fit their fields. */
  lemma RoundTrip(n: Node)
    ensures Decode(Encode(n)) == Ok(n) <==> InRange(n)
  {
    if InRange(n) {
      TailsIgnored(n, []);
      assert Encode(n) + [] == Encode(n);
    } else {
      DecodedInRange(Encode(n));
    }
  }

  lemma EncodeInjective(m: Node, n: Node)
    requires InRange(m) && InRange(n)
    ensures Encode(m) == Encode(n) ==> m == n
  {
    RoundTrip(m);
    RoundTrip(n);
  }

  // What else decodes

  lemma LeafWithTail(b: Bytes, count: Bytes, ns: Path, len: Bytes, v: Bytes, x: Bytes)
    requires b == count + (Pack(ns) + (len + (v + x)))
    requires |count| == 2 && FromBigEndian(count) == |ns| && |len| == 4 && FromBigEndian(len) == |v|
    ensures DecodeLeaf(b) == Ok(LeafNode(ns, v))
  {
    var packed := Pack(ns);
    assert b[..2] == count;
    var b1 := b[2..];
    assert b1 == packed + (len + (v + x));
    assert b1[..|packed|] == packed;
    var b2 := b1[|packed|..];
    assert b2 == len + (v + x);
    assert b2[..4] == len && b2[4..] == v + x && (v + x)[..|v|] == v;
    UnpackPack(ns);
  }

  lemma ExtensionWithTail(b: Bytes, count: Bytes, ns: Path, c: Hash, x: Bytes)
    requires b == count + (Pack(ns) + (c + x)) && |count| == 2 && FromBigEndian(count) == |ns|
    ensures DecodeExtension(b) == Ok(ExtensionNode(ns, c))
  {
    var packed := Pack(ns);
    assert b[..2] == count;
    var b1 := b[2..];
    assert b1 == packed + (c + x);
    assert b1[..|packed|] == packed && b1[|packed|..|packed| + HASH_LEN] == c;
    UnpackPack(ns);
  }

  lemma BranchWithTail(cs: Children, b: Bytes, len: Bytes, v: Bytes, x: Bytes)
    requires |b| >= 513 && SplitHashes(b) == cs && b[512] == 1
    requires |len| == 4 && FromBigEndian(len) == |v| && b[513..] == len + (v + x)
    ensures DecodeBranch(b) == Ok(BranchNode(cs, Some(v)))
  {
    var rest := b[513..];
    assert rest[..4] == len && rest[4..] == v + x && (v + x)[..|v|] == v;
  }

  lemma CountsFit(ns: Path, v: Bytes)
    ensures |ns| < 0x1_0000 ==> FromBigEndian(BigEndian(|ns|, 2)) == |ns|
    ensures |v| < 0x1_0000_0000 ==> FromBigEndian(BigEndian(|v|, 4)) == |v|
  {
    FieldWidths();
    BigEndianRoundTrip(|ns|, 2);
    BigEndianRoundTrip(|v|, 4);
  }

  lemma Joined(a: Bytes, b: Bytes, c: Bytes)
    ensures a + b + c == a + (b + c)
  {
  }

  lemma Regrouped(t: byte, a: Bytes, b: Bytes, c: Bytes, d: Bytes, x: Bytes)
    ensures |[t] + a + b + c + d + x| > 0 && ([t] + a + b + c + d + x)[1..] == a + (b + (c + (d + x)))
  {
    Joined([t] + a + b + c, d, x);
    Joined([t] + a + b, c, d + x);
    Joined([t] + a, b, c + (d + x));
    Joined([t], a, b + (c + (d + x)));
  }

  lemma LeafTail(ns: Path, v: Bytes, x: Bytes)
    requires InRange(LeafNode(ns, v))
    ensures Decode(Encode(LeafNode(ns, v)) + x) == Ok(LeafNode(ns, v))
  {
    hide Pack, DecodeLeaf, BigEndian, FromBigEndian;
    CountsFit(ns, v);
    var enc := Encode(LeafNode(ns, v)) + x;
    Regrouped(TAG_LEAF, BigEndian(|ns|, 2), Pack(ns), BigEndian(|v|, 4), v, x);
    assert enc[1..] == BigEndian(|ns|, 2) + (Pack(ns) + (BigEndian(|v|, 4) + (v + x)));
    LeafWithTail(enc[1..], BigEndian(|ns|, 2), ns, BigEndian(|v|, 4), v, x);
  }

  lemma ExtensionTail(ns: Path, c: Hash, x: Bytes)
    requires InRange(ExtensionNode(ns, c))
    ensures Decode(Encode(ExtensionNode(ns, c)) + x) == Ok(ExtensionNode(ns, c))
  {
    hide Pack, DecodeExtension, BigEndian, FromBigEndian;
    CountsFit(ns, []);
    var enc := Encode(ExtensionNode(ns, c)) + x;
    assert enc[1..] == BigEndian(|ns|, 2) + (Pack(ns) + (c + x));
    ExtensionWithTail(enc[1..], BigEndian(|ns|, 2), ns, c, x);
  }

  lemma BranchTail(cs: Children, v: Bytes, x: Bytes)
    requires InRange(BranchNode(cs, Some(v)))
    ensures Decode(Encode(BranchNode(cs, Some(v))) + x) == Ok(BranchNode(cs, Some(v)))
  {
    hide DecodeBranch, BigEndian, FromBigEndian, ConcatHashes, SplitHashes;
    CountsFit([], v);
    var enc, len := Encode(BranchNode(cs, Some(v))) + x, BigEndian(|v|, 4);
    Regrouped(TAG_BRANCH, ConcatHashes(cs), [1], len, v, x);
    Joined([1], len, v + x);
    assert enc[1..] == ConcatHashes(cs) + ([1] + len + (v + x));
    SplitConcat(cs, [1] + len + (v + x));
    AfterChildren(ConcatHashes(cs), len, v + x, enc[1..]);
    BranchWithTail(cs, enc[1..], len, v, x);
  }

  /** Bytes behind an encoding are not looked at. */
  lemma TailsIgnored(n: Node, x: Bytes)
    requires InRange(n)
    ensures Decode(Encode(n) + x) == Ok(n)
  {
    hide Decode;
    match n
    case LeafNode(ns, v) => LeafTail(ns, v, x);
    case ExtensionNode(ns, c) => ExtensionTail(ns, c, x);
    case BranchNode(cs, None) =>
      assert Encode(n) + x == [TAG_BRANCH] + (ConcatHashes(cs) + ([0] + x));
      OtherFlags(cs, 0, x);
    case BranchNode(cs, Some(v)) => BranchTail(cs, v, x);
  }

  /** A branch has a value only under the flag 1; any other flag means that it has none, whatever follows. */
  lemma OtherFlags(cs: Children, flag: byte, x: Bytes)
    requires flag != 1
    ensures Decode([TAG_BRANCH] + (ConcatHashes(cs) + ([flag] + x))) == Ok(BranchNode(cs, None))
  {
    hide ConcatHashes, SplitHashes;
    var b := ConcatHashes(cs) + ([flag] + x);
    SplitConcat(cs, [flag] + x);
    assert ([TAG_BRANCH] + b)[1..] == b && b[512] == flag;
  }

  /** Only an input that begins with one of the three tags is read on; no input at all is too short. */
  lemma TagsDecide(enc: Bytes)
    ensures Decode(enc) == Err(BadTag) <==> |enc| > 0 && enc[0] !in {TAG_LEAF, TAG_EXTENSION, TAG_BRANCH}
    ensures enc == [] ==> Decode(enc) == Err(ShortInput)
  {
    hide Unpack, SplitHashes, FromBigEndian;
  }

  lemma CutFields(body: Bytes, count: Bytes, packed: Bytes, len: Bytes, v: Bytes, k: nat)
    requires body == count + (packed + (len + v)) && k < |body| && |count| == 2 && |len| == 4
    ensures k >= 2 ==> body[..k][..2] == count
    ensures k >= 2 + |packed| + 4 ==> body[..k][2..][|packed|..][..4] == len
  {
    if k >= 2 {
      assert body[..k][..2] == body[..2] == count;
      if k >= 2 + |packed| + 4 {
        var m := 2 + |packed|;
        assert body[..k][2..][|packed|..][..4] == body[m..m + 4];
        assert body[m..] == len + v;
        assert body[m..m + 4] == (len + v)[..4] == len;
      }
    }
  }

  lemma LeafCut(body: Bytes, count: Bytes, packed: Bytes, ns: nat, len: Bytes, v: Bytes, k: nat)
    requires body == count + (packed + (len + v)) && k < |body| && |packed| == (ns + 1) / 2
    requires |count| == 2 && FromBigEndian(count) == ns && |len| == 4 && FromBigEndian(len) == |v|
    ensures DecodeLeaf(body[..k]) == Err(ShortInput)
  {
    hide Unpack, FromBigEndian;
    CutFields(body, count, packed, len, v, k);
    assert |body| == 2 + |packed| + 4 + |v|;
    ShortLeaf(body[..k], ns, |v|);
  }

  lemma ShortLeaf(b: Bytes, ns: nat, size: nat)
    requires |b| < 2 + (ns + 1) / 2 + 4 + size && (|b| >= 2 ==> FromBigEndian(b[..2]) == ns)
    requires |b| >= 2 + (ns + 1) / 2 + 4 ==> FromBigEndian(b[2..][(ns + 1) / 2..][..4]) == size
    ensures DecodeLeaf(b) == Err(ShortInput)
  {
    hide Unpack, FromBigEndian;
  }

  lemma BranchCut(body: Bytes, head: Bytes, len: Bytes, v: Bytes, k: nat)
    requires |head| == 512 && body == head + ([1] + len + v) && k < |body| && |len| == 4 && FromBigEndian(len) == |v|
    ensures DecodeBranch(body[..k]) == Err(ShortInput)
  {
    hide SplitHashes;
    var b := body[..k];
    AfterChildren(head, len, v, body);
    if k >= 513 {
      assert b[512] == body[512];
      if k >= 517 { assert b[513..][..4] == body[513..][..4] == len; }
    }
  }

  /** No encoding that was cut short decodes. */
  lemma CutsRefused(n: Node, k: nat)
    requires InRange(n) && k < |Encode(n)|
    ensures Decode(Encode(n)[..k]) == Err(ShortInput)
  {
    hide Pack, DecodeLeaf, DecodeBranch, BigEndian, FromBigEndian, ConcatHashes;
    var enc := Encode(n);
    if k > 0 {
      assert enc[..k][1..] == enc[1..][..k - 1];
      match n
      case LeafNode(ns, v) =>
        CountsFit(ns, v);
        assert enc[1..] == BigEndian(|ns|, 2) + (Pack(ns) + (BigEndian(|v|, 4) + v));
        LeafCut(enc[1..], BigEndian(|ns|, 2), Pack(ns), |ns|, BigEndian(|v|, 4), v, k - 1);
      case ExtensionNode(ns, c) =>
        CountsFit(ns, []);
        assert enc[1..] == BigEndian(|ns|, 2) + (Pack(ns) + c);
        if k - 1 >= 2 { assert enc[1..][..k - 1][..2] == BigEndian(|ns|, 2); }
      case BranchNode(cs, None) => BareBranchCut(enc[1..][..k - 1]);
      case BranchNode(cs, Some(v)) =>
        CountsFit([], v);
        assert enc[1..] == ConcatHashes(cs) + ([1] + BigEndian(|v|, 4) + v);
        BranchCut(enc[1..], ConcatHashes(cs), BigEndian(|v|, 4), v, k - 1);
    }
  }

  lemma BareBranchCut(b: Bytes)
    requires |b| < 513
    ensures DecodeBranch(b) == Err(ShortInput)
  {
  }
}
