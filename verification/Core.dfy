/**
 Primitives shared by every component: bytes, nibbles, 64-bit unsigned arithmetic,
 32-byte digests and the big-endian integer fields used by the wire formats.
 */
module Core {

  type byte = x: int | 0 <= x < 256
  type nibble = x: int | 0 <= x < 16
  type Bytes = seq<byte>

  const U64: int := 0x1_0000_0000_0000_0000
  type uint64 = x: int | 0 <= x < 0x1_0000_0000_0000_0000

  /** Go's unsigned 64-bit addition and multiplication wrap around. */
  function Add64(x: uint64, y: uint64): uint64 { (x + y) % U64 }
  function Mul64(x: uint64, y: uint64): uint64 { (x * y) % U64 }

  lemma Mul64Exact(x: uint64, y: uint64)
    requires x * y < U64
    ensures Mul64(x, y) == x * y
  {
  }

  const HASH_LEN: nat := 32
  type Hash = h: Bytes | |h| == 32 witness seq(32, _ => 0)

  /** The zero hash is the "no node" pointer and the "no code" marker. */
  const ZERO_HASH: Hash :=
    [0, 0, 0, 0, 0, 0, 0, 0, 0, 0, 0, 0, 0, 0, 0, 0,
     0, 0, 0, 0, 0, 0, 0, 0, 0, 0, 0, 0, 0, 0, 0, 0]

  datatype Option<+T> = None | Some(value: T)
  datatype Result<+T, +E> = Ok(value: T) | Err(error: E)

  /**
   The modelling assumption about SHA-256. A digest is an arbitrary function `sum` of the
   bytes; what the theorems need of it is only that the finitely many byte strings `inPlay`
   do not collide with one another and that none of them hashes to the zero sentinel.
   */
  ghost predicate NoCollision(sum: Bytes -> Hash, inPlay: set<Bytes>)
  {
    && (forall e | e in inPlay :: sum(e) != ZERO_HASH)
    && (forall e, f | e in inPlay && f in inPlay && sum(e) == sum(f) :: e == f)
  }

  // Fixed-width big-endian fields

  function Pow256(k: nat): (r: nat)
    ensures r > 0
  {
    if k == 0 then 1 else 256 * Pow256(k - 1)
  }

  /** The low `k` bytes of `n`, most significant first; higher bytes are cut off. */
  function BigEndian(n: nat, k: nat): (b: Bytes)
    ensures |b| == k
    decreases k
  {
    if k == 0 then [] else BigEndian(n / 256, k - 1) + [n % 256]
  }

  function FromBigEndian(b: Bytes): (n: nat)
    ensures n < Pow256(|b|)
  {
    if |b| == 0 then 0 else FromBigEndian(b[..|b| - 1]) * 256 + b[|b| - 1]
  }

  lemma {:induction false} BigEndianRoundTrip(n: nat, k: nat)
    ensures FromBigEndian(BigEndian(n, k)) == n <==> n < Pow256(k)
    decreases k
  {
    if k > 0 {
      BigEndianRoundTrip(n / 256, k - 1);
      var b := BigEndian(n, k);
      assert b[..k - 1] == BigEndian(n / 256, k - 1);
    }
  }

  lemma WordWidth()
    ensures Pow256(8) == U64
  {
  }

  function Word64(b: Bytes): uint64
    requires |b| == 8
  {
    WordWidth();
    FromBigEndian(b)
  }

  lemma {:induction false} BigEndianInjective(b: Bytes, b': Bytes)
    requires |b| == |b'| && FromBigEndian(b) == FromBigEndian(b')
    ensures b == b'
    decreases |b|
  {
    if |b| > 0 {
      var n := |b| - 1;
      BigEndianInjective(b[..n], b'[..n]);
      assert b == b[..n] + [b[n]] && b' == b'[..n] + [b'[n]];
    }
  }

  /** A wrapping sum of a remainder is the remainder of the sum. */
  lemma ModSum(t: uint64, s: nat, w: uint64)
    requires t == s % U64
    ensures Add64(t, w) == (s + w) % U64
  {
  }

  // Multiplication and division

  lemma MulGrows(q: nat, b: nat)
    requires b > 0
    ensures q <= q * b
  {
  }

  lemma DivFacts(a: nat, b: nat)
    requires b > 0
    ensures (a / b) * b <= a < (a / b + 1) * b && 0 <= a / b <= a
  {
    var q := a / b;
    assert a == q * b + a % b;
    assert (q + 1) * b == q * b + b;
    MulGrows(q, b);
  }

  lemma DivMono(a: nat, b: nat, d: nat)
    requires d > 0 && a <= b
    ensures a / d <= b / d
  {
    var x, y := a / d, b / d;
    if y + 1 <= x { MulMono(d, y + 1, x); }
    assert x * d <= a && b < y * d + d;
  }

  lemma MulMono(a: nat, b: nat, c: nat)
    requires b <= c
    ensures a * b <= a * c
  {
  }

  lemma SameQuotient(a: nat, q: nat, d: nat, s: nat, r: nat)
    requires s < d && r < d && a * d + s == q * d + r
    ensures a == q
  {
    assert q + 1 <= a ==> (q + 1) * d <= a * d;
    assert a + 1 <= q ==> (a + 1) * d <= q * d;
  }

  lemma MulDiv(a: nat, d: nat)
    requires d > 0
    ensures a * d / d == a
  {
    var q: nat := a * d / d;
    assert a * d == q * d + (a * d) % d;
    SameQuotient(a, q, d, 0, (a * d) % d);
  }
}
