/** Byte strings, little-endian numbers and the borsh encodings that are hashed. */
module Bytes {

  type Byte = x: int | 0 <= x < 256
  type Bytes = seq<Byte>

  type U64 = x: int | 0 <= x < 0x1_0000_0000_0000_0000
  type U128 = x: int | 0 <= x < 0x1_0000_0000_0000_0000_0000_0000_0000_0000

  const U64_LIMIT: nat := 0x1_0000_0000_0000_0000
  const U128_LIMIT: nat := 0x1_0000_0000_0000_0000_0000_0000_0000_0000

  /** The output of SHA-256. */
  datatype RawHash = Hash(bytes: Bytes)
  type CryptoHash = h: RawHash | |h.bytes| == 32 witness Hash(ZeroBytes(32))

  const ZERO_HASH: CryptoHash := Hash(ZeroBytes(32))

  /** The hash function is a parameter: nothing is assumed about it except where a
      lemma says "collision free on" an explicit finite set of inputs. */
  type Sha256 = Bytes -> CryptoHash

  function ZeroBytes(n: nat): (b: Bytes)
    ensures |b| == n
  {
    if n == 0 then [] else [0] + ZeroBytes(n - 1)
  }

  /** Collision freedom, restricted to the inputs that a computation hashes. */
  ghost predicate CollisionFreeOn(sha: Sha256, inputs: set<Bytes>) {
    forall x, y :: x in inputs && y in inputs && sha(x) == sha(y) ==> x == y
  }

  function LittleEndian(n: nat, width: nat): (b: Bytes)
    ensures |b| == width
  {
    if width == 0 then [] else [n % 256] + LittleEndian(n / 256, width - 1)
  }

  function FromLittleEndian(b: Bytes): nat {
    if b == [] then 0 else b[0] + 256 * FromLittleEndian(b[1..])
  }

  function Pow256(width: nat): (p: nat)
    ensures p > 0
  {
    if width == 0 then 1 else 256 * Pow256(width - 1)
  }

  /** A number that fits its width is read back from its encoding. */
  lemma {:induction false} LittleEndianRoundTrip(n: nat, width: nat)
    requires n < Pow256(width)
    ensures FromLittleEndian(LittleEndian(n, width)) == n
  {
    if width > 0 {
      LittleEndianRoundTrip(n / 256, width - 1);
      assert LittleEndian(n, width)[1..] == LittleEndian(n / 256, width - 1);
    }
  }

  /** Byte `i` of the encoding is digit `i` to the base 256, the least significant first. */
  lemma {:induction false} LittleEndianDigits(n: nat, width: nat, i: nat)
    requires i < width
    ensures LittleEndian(n, width)[i] == n / Pow256(i) % 256
  {
    if i > 0 {
      LittleEndianDigits(n / 256, width - 1, i - 1);
      DivideTwice(n, Pow256(i - 1));
    }
  }

  lemma DivideTwice(n: nat, d: nat)
    requires d > 0
    ensures n / 256 / d == n / (256 * d)
  {
    var q, q1 := n / (256 * d), n / 256;
    var r := n % (256 * d);
    assert n == q * (256 * d) + r && 0 <= r < 256 * d;
    assert q * (256 * d) == (q * d) * 256;
    assert q1 == q * d + r / 256;
    assert 0 <= r / 256 < d;
    QuotientUnique(q1, q, r / 256, d);
  }

  lemma QuotientUnique(n: int, q: int, r: int, d: int)
    requires d > 0 && n == q * d + r && 0 <= r < d
    ensures n / d == q
  {
    var e := n / d - q;
    assert n == (n / d) * d + n % d;
    assert e * d == r - n % d;
    assert e >= 1 ==> e * d >= d;
    assert e <= -1 ==> e * d <= -d;
  }

  /** Every byte string is the encoding of the number that is read from it. */
  lemma {:induction false} ReadsBack(b: Bytes)
    ensures FromLittleEndian(b) < Pow256(|b|) && LittleEndian(FromLittleEndian(b), |b|) == b
  {
    if b != [] {
      ReadsBack(b[1..]);
      assert FromLittleEndian(b) / 256 == FromLittleEndian(b[1..]) && FromLittleEndian(b) % 256 == b[0];
      assert b == [b[0]] + b[1..];
    }
  }

  lemma U64Width()
    ensures Pow256(8) == U64_LIMIT
  {
    assert Pow256(4) == 0x1_0000_0000;
    assert Pow256(6) == 0x1_0000_0000_0000;
  }

  /** A data request; borsh stores its length in four bytes. */
  datatype RawRequest = Request(text: Bytes)
  type Request = r: RawRequest | |r.text| < 0x1_0000_0000 witness RawRequest.Request([])

  function BorshString(r: Request): Bytes {
    LittleEndian(|r.text|, 4) + r.text
  }

  /** Four bytes of length, the least significant first, and the text. */
  lemma BorshStringParts(r: Request)
    ensures var b, n := BorshString(r), |r.text|;
            && b[..4] == [n % 256, n / 256 % 256, n / 65536 % 256, n / 16777216 % 256] && b[4..] == r.text
  {
    var n := |r.text|;
    LittleEndianDigits(n, 4, 0);
    LittleEndianDigits(n, 4, 1);
    LittleEndianDigits(n, 4, 2);
    LittleEndianDigits(n, 4, 3);
    assert Pow256(1) == 256 && Pow256(2) == 65536 && Pow256(3) == 16777216;
  }

  lemma BorshStringInjective(a: Request, b: Request)
    requires BorshString(a) == BorshString(b)
    ensures a == b
  {
    assert a.text == BorshString(a)[4..] && b.text == BorshString(b)[4..];
  }

  // ----- the byte-wise order in which hashes are sorted

  predicate Leq(a: Bytes, b: Bytes) {
    if a == [] then true
    else if b == [] then false
    else a[0] < b[0] || (a[0] == b[0] && Leq(a[1..], b[1..]))
  }

  lemma {:induction false} LeqTotal(a: Bytes, b: Bytes)
    ensures Leq(a, b) || Leq(b, a)
  {
    if a != [] && b != [] && a[0] == b[0] { LeqTotal(a[1..], b[1..]); }
  }

  lemma {:induction false} LeqAntisymmetric(a: Bytes, b: Bytes)
    requires Leq(a, b) && Leq(b, a)
    ensures a == b
  {
    if a != [] {
      LeqAntisymmetric(a[1..], b[1..]);
      assert a == [a[0]] + a[1..] && b == [b[0]] + b[1..];
    }
  }

  lemma {:induction false} LeqTransitive(a: Bytes, b: Bytes, c: Bytes)
    requires Leq(a, b) && Leq(b, c)
    ensures Leq(a, c)
  {
    if a != [] && a[0] == b[0] && b[0] == c[0] { LeqTransitive(a[1..], b[1..], c[1..]); }
  }

  /** The strings agree below position `i`, where `a` has the smaller byte. */
  ghost predicate SmallerAt(a: Bytes, b: Bytes, i: nat) {
    i < |a| && i < |b| && a[..i] == b[..i] && a[i] < b[i]
  }

  ghost predicate Precedes(a: Bytes, b: Bytes) {
    exists i: nat :: SmallerAt(a, b, i)
  }

  lemma SmallerOneOn(a: Bytes, b: Bytes, i: nat)
    requires a != [] && b != [] && a[0] == b[0]
    ensures SmallerAt(a[1..], b[1..], i) <==> SmallerAt(a, b, i + 1)
  {
    if i < |a[1..]| && i < |b[1..]| {
      assert a[..i + 1] == [a[0]] + a[1..][..i] && b[..i + 1] == [b[0]] + b[1..][..i];
      assert a[1..][..i] == a[..i + 1][1..] && b[1..][..i] == b[..i + 1][1..];
    }
  }

  /** Strings of one length are in order exactly when they are equal or, at the first
      position where they differ, the first of them has the smaller byte. */
  lemma {:induction false} LeqIsLexicographic(a: Bytes, b: Bytes)
    requires |a| == |b|
    ensures Leq(a, b) <==> a == b || Precedes(a, b)
  {
    if a != [] {
      if a[0] == b[0] {
        LeqIsLexicographic(a[1..], b[1..]);
        assert a == [a[0]] + a[1..] && b == [b[0]] + b[1..];
        if i: nat :| SmallerAt(a[1..], b[1..], i) { SmallerOneOn(a, b, i); }
        if i: nat :| SmallerAt(a, b, i) { SmallerOneOn(a, b, i - 1); }
      } else {
        if a[0] < b[0] { assert SmallerAt(a, b, 0); }
        if i: nat :| SmallerAt(a, b, i) { assert i == 0 || a[..i][0] == b[..i][0]; }
      }
    }
  }
}
