/** Octet strings that carry integers: the big-endian INTEGER contents of
    ITU-T X.690 section 8.3, as written by the return-file builder and read
    back by the loader. */
module Octets {
  import opened Wrappers

  newtype byte = x: int | 0 <= x < 256

  const TWO_63: int := 0x8000_0000_0000_0000
  const TWO_64: int := 0x1_0000_0000_0000_0000

  /** The message the source throws when a value does not fit in 8 bytes. */
  const OVERFLOW_MESSAGE: string := "8-byte integer overflow"

  function Pow256(n: nat): (p: nat)
    ensures p >= 1
  {
    if n == 0 then 1 else 256 * Pow256(n - 1)
  }

  /** Unsigned value of the bytes, most significant byte first. */
  function BigEndian(s: seq<byte>): nat
  {
    if s == [] then 0 else s[0] as nat * Pow256(|s| - 1) + BigEndian(s[1..])
  }

  /** Reinterprets a value modulo 2^64 as a signed 64-bit integer. */
  function Wrap64(u: int): (r: int)
    ensures -TWO_63 <= r < TWO_63
    ensures (r - u) % TWO_64 == 0
  {
    var m := u % TWO_64;
    if m < TWO_63 then m else m - TWO_64
  }

  /** X.690 section 8.3.2: the contents octets of an INTEGER are minimal, i.e. the
      first nine bits are neither all zero nor all one.  Together with a leading
      byte below 0x80 and at most 8 bytes, these are the octets of a non-negative
      64-bit INTEGER equal to v. */
  ghost predicate IsInt64Content(s: seq<byte>, v: int)
  {
    && 1 <= |s| <= 8
    && s[0] < 0x80
    && (|s| > 1 ==> !(s[0] == 0 && s[1] < 0x80))
    && BigEndian(s) == v
  }

  /** Big-endian bytes of v without leading zero bytes (one byte for zero). */
  function MinimalBytes(v: nat): seq<byte>
    decreases v
  {
    if v < 256 then [v as byte] else MinimalBytes(v / 256) + [(v % 256) as byte]
  }

  /** The INTEGER contents of a non-negative 64-bit value: its minimal bytes,
      with one 0x00 in front when the leading byte would read as a sign bit. */
  function Int64Content(v: int): seq<byte>
    requires 0 <= v < TWO_63
  {
    var m := MinimalBytes(v);
    if m[0] >= 0x80 then [0 as byte] + m else m
  }

  /** The loader's decoder (OctetStr2Int64): more than 8 bytes overflow, otherwise
      the big-endian value, read as a signed 64-bit number. */
  function DecodeInt64(s: seq<byte>): Result<int, string>
  {
    if |s| > 8 then Failure(OVERFLOW_MESSAGE) else Success(Wrap64(BigEndian(s)))
  }

  // ---------------------------------------------------------------------------
  // Arithmetic facts about the big-endian reading

  lemma {:induction false} BigEndianBound(s: seq<byte>)
    ensures BigEndian(s) < Pow256(|s|)
  {
    if s != [] {
      BigEndianBound(s[1..]);
      var p := Pow256(|s| - 1);
      assert s[0] as nat <= 255;
      assert s[0] as nat * p <= 255 * p;
    }
  }

  lemma {:induction false} BigEndianAppend(s: seq<byte>, b: byte)
    ensures BigEndian(s + [b]) == BigEndian(s) * 256 + b as nat
  {
    if s == [] {
      assert [] + [b] == [b];
    } else {
      assert (s + [b])[1..] == s[1..] + [b];
      BigEndianAppend(s[1..], b);
      calc {
        BigEndian(s + [b]);
        s[0] as nat * Pow256(|s|) + BigEndian(s[1..] + [b]);
        s[0] as nat * (256 * Pow256(|s| - 1)) + BigEndian(s[1..]) * 256 + b as nat;
        { assert s[0] as nat * (256 * Pow256(|s| - 1)) == (s[0] as nat * Pow256(|s| - 1)) * 256; }
        (s[0] as nat * Pow256(|s| - 1) + BigEndian(s[1..])) * 256 + b as nat;
      }
    }
  }

  lemma LeadingByteBound(s: seq<byte>)
    requires |s| >= 1
    ensures BigEndian(s) >= s[0] as nat * Pow256(|s| - 1)
    ensures s[0] == 0 ==> BigEndian(s) == BigEndian(s[1..])
    ensures s[0] != 0 ==> BigEndian(s) >= Pow256(|s| - 1)
  {
    var p := Pow256(|s| - 1);
    var d := s[0] as nat;
    assert BigEndian(s) == d * p + BigEndian(s[1..]);
    if d != 0 {
      MulAtLeast(d, p);
    }
  }

  lemma MulAtLeast(d: nat, p: nat)
    requires d >= 1
    ensures d * p >= p
  {
  }

  lemma {:induction false} MinimalBytesShape(v: nat)
    ensures 1 <= |MinimalBytes(v)|
    ensures BigEndian(MinimalBytes(v)) == v
    ensures |MinimalBytes(v)| > 1 ==> MinimalBytes(v)[0] != 0
    ensures v < Pow256(|MinimalBytes(v)|)
    ensures |MinimalBytes(v)| > 1 ==> v >= Pow256(|MinimalBytes(v)| - 1)
  {
    if v >= 256 {
      var q := v / 256;
      MinimalBytesShape(q);
      var m := MinimalBytes(q);
      BigEndianAppend(m, (v % 256) as byte);
      assert MinimalBytes(v) == m + [(v % 256) as byte];
      assert MinimalBytes(v)[0] == m[0];
      assert q >= 1;
      if |m| > 1 {
        assert m[0] != 0;
      } else {
        assert m == [q as byte];
        assert m[0] != 0;
      }
    }
  }

  lemma MinimalBytesLength(v: nat, n: nat)
    requires v < Pow256(n)
    ensures |MinimalBytes(v)| <= if n == 0 then 1 else n
  {
    MinimalBytesShape(v);
    var k := |MinimalBytes(v)|;
    if k > 1 && k > n {
      PowMonotone(n, k - 1);
    }
  }

  lemma {:induction false} PowMonotone(a: nat, b: nat)
    requires a <= b
    ensures Pow256(a) <= Pow256(b)
  {
    if a < b {
      PowMonotone(a, b - 1);
    }
  }

  lemma PowOrder(a: nat, b: nat)
    ensures Pow256(a) < Pow256(b) ==> a < b
  {
    if b <= a {
      PowMonotone(b, a);
    }
  }

  // ---------------------------------------------------------------------------
  // The encoder's contract and the round trip with the decoder

  /** Int64Content is the minimal, sign-correct, at most 8-byte INTEGER content. */
  lemma Int64ContentIsContent(v: int)
    requires 0 <= v < TWO_63
    ensures IsInt64Content(Int64Content(v), v)
  {
    MinimalBytesShape(v);
    var m := MinimalBytes(v);
    assert |m| <= 8 by {
      assert TWO_63 * 2 == Pow256(8);
      MinimalBytesLength(v, 8);
    }
    if m[0] >= 0x80 {
      SignGuardFits(v);
      var s := [0 as byte] + m;
      assert s[1..] == m;
      LeadingByteBound(s);
    }
  }

  /** A value below 2^63 whose minimal leading byte has its top bit set needs
      fewer than 8 bytes, leaving room for the 0x00 sign guard. */
  lemma SignGuardFits(v: int)
    requires 0 <= v < TWO_63
    requires |MinimalBytes(v)| >= 1 && MinimalBytes(v)[0] >= 0x80
    ensures |MinimalBytes(v)| < 8
  {
    MinimalBytesShape(v);
    var m := MinimalBytes(v);
    if |m| >= 8 {
      LeadingByteBound(m);
      PowMonotone(7, |m| - 1);
      MulMonotone(128, m[0] as nat, Pow256(7), Pow256(|m| - 1));
      assert false;
    }
  }

  lemma MulMonotone(a: nat, b: nat, c: nat, d: nat)
    requires a <= b && c <= d
    ensures a * c <= b * d
  {
    assert a * c <= b * c;
    assert b * c <= b * d;
  }

  /** There is only one such content per value: the encoder's output is determined. */
  lemma {:induction false} Int64ContentUnique(s: seq<byte>, v: int)
    requires 0 <= v < TWO_63
    requires IsInt64Content(s, v)
    ensures s == Int64Content(v)
  {
    var m := MinimalBytes(v);
    MinimalBytesShape(v);
    if s[0] == 0 && |s| > 1 {
      // a sign-guard zero before a byte >= 0x80
      var t := s[1..];
      assert BigEndian(t) == v;
      assert t[0] >= 0x80;
      MinimalDigitsUnique(t, v);
      assert t == m;
    } else {
      MinimalDigitsUnique(s, v);
      assert s == m;
    }
  }

  /** Bytes with a non-zero leading byte (or a single byte) are the minimal bytes. */
  lemma {:induction false} MinimalDigitsUnique(s: seq<byte>, v: nat)
    requires |s| >= 1 && BigEndian(s) == v
    requires |s| > 1 ==> s[0] != 0
    ensures s == MinimalBytes(v)
    decreases |s|
  {
    if |s| == 1 {
      assert BigEndian(s) == s[0] as nat;
    } else {
      var init := s[..|s| - 1];
      var last := s[|s| - 1];
      assert s == init + [last];
      BigEndianAppend(init, last);
      LeadingByteBound(s);
      PowMonotone(1, |s| - 1);
      assert v >= 256;
      assert v / 256 == BigEndian(init) && v % 256 == last as nat;
      assert init[0] == s[0];
      MinimalDigitsUnique(init, v / 256);
    }
  }

  /** Reading an unsigned 64-bit pattern as signed. */
  lemma Wrap64OfUnsigned(u: int)
    requires 0 <= u < TWO_64
    ensures Wrap64(u) == if u < TWO_63 then u else u - TWO_64
  {
  }

  /** Round trip: the loader's decoder reads back every value the builder encodes. */
  lemma Int64RoundTrip(v: int)
    requires 0 <= v < TWO_63
    ensures DecodeInt64(Int64Content(v)) == Success(v)
  {
    Int64ContentIsContent(v);
    Wrap64OfUnsigned(v);
  }

  /** Fewer than 8 bytes always decode to their non-negative unsigned value. */
  lemma ShortDecodeIsUnsigned(s: seq<byte>)
    requires |s| < 8
    ensures DecodeInt64(s) == Success(BigEndian(s))
  {
    BigEndianBound(s);
    PowMonotone(|s|, 7);
    assert Pow256(7) < TWO_63;
  }

  /** Eight bytes whose top bit is set decode to a negative number (two's complement). */
  lemma EightBytesTopBitIsNegative(s: seq<byte>)
    requires |s| == 8 && s[0] >= 0x80
    ensures DecodeInt64(s).Success? && DecodeInt64(s).value == BigEndian(s) - TWO_64 < 0
  {
    BigEndianBound(s);
    assert Pow256(8) == TWO_64;
    assert BigEndian(s) >= s[0] as nat * Pow256(7);
    assert Pow256(7) * 128 == TWO_63;
  }
}
