/** The loader's pure codecs: TD.57 BCD strings, octet-string integers and the
    integer options of the configuration. */
module LoaderCodec {
  import opened Wrappers
  import opened Octets
  import opened Decimal

  // ---------------------------------------------------------------------------
  // BCDString

  /** A half byte. */
  type Nibble = n: int | 0 <= n < 16

  /** The character of a BCD nibble other than the filler: a digit, '*' for 0xA
      and 0xB, '#' for 0xC, 'a' for 0xD, 'b' for 0xE. */
  function NibbleChar(n: Nibble): char
  {
    if n < 10 then DigitChar(n)
    else if n == 0xA || n == 0xB then '*'
    else if n == 0xC then '#'
    else if n == 0xD then 'a'
    else 'b'
  }

  /** The text of one BCD nibble; the 0xF filler produces nothing. */
  function NibbleText(n: Nibble): string
  {
    if n == 0xF then [] else [NibbleChar(n)]
  }

  /** The two nibbles of a byte, high first unless the digits are switched. */
  function ByteNibbles(b: byte, switchDigits: bool): (ns: seq<Nibble>)
    ensures |ns| == 2
  {
    var hi := b as int / 16;
    var lo := b as int % 16;
    if switchDigits then [lo, hi] else [hi, lo]
  }

  function Nibbles(src: seq<byte>, switchDigits: bool): (ns: seq<Nibble>)
    ensures |ns| == 2 * |src|
  {
    if src == [] then []
    else Nibbles(src[..|src| - 1], switchDigits) + ByteNibbles(src[|src| - 1], switchDigits)
  }

  function NibblesText(ns: seq<Nibble>): string
  {
    if ns == [] then "" else NibblesText(ns[..|ns| - 1]) + NibbleText(ns[|ns| - 1])
  }

  /** The text BCDString gives for a present source. */
  function BcdText(src: seq<byte>, switchDigits: bool): string
  {
    NibblesText(Nibbles(src, switchDigits))
  }

  /** The nibbles as the raw (unmapped) characters of the first pass. */
  function RawChars(ns: seq<Nibble>): (cs: string)
        ensures |cs| == |ns|
  {
    seq(|ns|, i requires 0 <= i < |ns| => ns[i] as char)
  }

  lemma {:induction false} NibblesTextConcat(a: seq<Nibble>, b: seq<Nibble>)
    ensures NibblesText(a + b) == NibblesText(a) + NibblesText(b)
    decreases |b|
  {
    if b == [] {
      assert a + b == a;
    } else {
      var b' := b[..|b| - 1];
      assert (a + b)[..|a + b| - 1] == a + b';
      NibblesTextConcat(a, b');
    }
  }

  lemma {:induction false} NibblesConcat(a: seq<byte>, b: seq<byte>, switchDigits: bool)
    ensures Nibbles(a + b, switchDigits) == Nibbles(a, switchDigits) + Nibbles(b, switchDigits)
    decreases |b|
  {
    if b == [] {
      assert a + b == a;
    } else {
      var b' := b[..|b| - 1];
      assert (a + b)[..|a + b| - 1] == a + b';
      NibblesConcat(a, b', switchDigits);
    }
  }

  lemma RawCharsStep(buf: seq<byte>, i: nat, switchDigits: bool)
    requires i < |buf|
    ensures RawChars(Nibbles(buf[..i + 1], switchDigits))
         == RawChars(Nibbles(buf[..i], switchDigits)) + RawChars(ByteNibbles(buf[i], switchDigits))
  {
    assert buf[..i + 1][..i] == buf[..i];
    var a := Nibbles(buf[..i], switchDigits);
    var b := ByteNibbles(buf[i], switchDigits);
    assert RawChars(a + b) == RawChars(a) + RawChars(b);
  }

  lemma RawHead(dest: string, j: nat, ns: seq<Nibble>, k: nat)
    requires j < |dest| && k <= |ns|
    requires dest[j..] == RawChars(ns[k..])
    ensures k < |ns| && dest[j] == ns[k] as char
  {
    assert dest[j..][0] == dest[j];
  }

  lemma ReplaceStep(dest: string, j: nat, ns: seq<Nibble>, k: nat, t: char)
    requires j < |dest| && k < |ns| && dest[j] == ns[k] as char
    requires dest[..j] == NibblesText(ns[..k]) && dest[j..] == RawChars(ns[k..])
    requires ns[k] != 0xF && t == NibbleChar(ns[k])
    ensures dest[j := t][..j + 1] == NibblesText(ns[..k + 1])
    ensures dest[j := t][j + 1..] == RawChars(ns[k + 1..])
  {
    assert ns[..k + 1][..k] == ns[..k];
    assert dest[j := t][..j + 1] == dest[..j] + [t];
    assert dest[j + 1..] == dest[j..][1..];
  }

  lemma EraseStep(dest: string, j: nat, ns: seq<Nibble>, k: nat)
    requires j < |dest| && k < |ns| && ns[k] == 0xF
    requires dest[..j] == NibblesText(ns[..k]) && dest[j..] == RawChars(ns[k..])
    ensures (dest[..j] + dest[j + 1..])[..j] == NibblesText(ns[..k + 1])
    ensures (dest[..j] + dest[j + 1..])[j..] == RawChars(ns[k + 1..])
  {
    assert ns[..k + 1][..k] == ns[..k];
    assert dest[j + 1..] == dest[j..][1..];
  }

  /** The second pass of BCDString: walks the raw nibble characters once,
      replacing each by its text and erasing 0xF fillers in place. */
  method ConvertNibbles(raw: string, ghost ns: seq<Nibble>) returns (text: string)
    requires raw == RawChars(ns)
    ensures text == NibblesText(ns)
  {
    var dest := raw;
    ghost var k := 0;
    var j := 0;
    while j < |dest|
      invariant 0 <= j <= |dest| && 0 <= k <= |ns|
      invariant dest[..j] == NibblesText(ns[..k])
      invariant dest[j..] == RawChars(ns[k..])
      decreases |dest| - j
    {
      RawHead(dest, j, ns, k);
      var c := dest[j];
      if c == 0xF as char {
        // the filler is erased
        EraseStep(dest, j, ns, k);
        dest := dest[..j] + dest[j + 1..];
      } else {
        var t: char;
        if c < 10 as char {
          t := (c as int + '0' as int) as char;
        } else if c == 0xA as char || c == 0xB as char {
          t := '*';
        } else if c == 0xC as char {
          t := '#';
        } else if c == 0xD as char {
          t := 'a';
        } else {
          t := 'b';
        }
        ReplaceStep(dest, j, ns, k, t);
        dest := dest[j := t];
        j := j + 1;
      }
      k := k + 1;
    }
    assert k == |ns| by {
      assert |RawChars(ns[k..])| == |dest[j..]| == 0;
    }
    assert ns[..k] == ns;
    text := dest;
  }

  /** Writes the nibbles of every byte as raw characters, then converts them
      in place.  A null source gives the empty string. */
  method BCDString(src: Option<seq<byte>>, switchDigits: bool) returns (dest: string)
    ensures src.None? ==> dest == ""
    ensures src.Some? ==> dest == BcdText(src.value, switchDigits)
  {
    dest := "";
    if src.None? {
      return;
    }
    var buf := src.value;
    var i := 0;
    while i < |buf|
      invariant 0 <= i <= |buf|
      invariant dest == RawChars(Nibbles(buf[..i], switchDigits))
    {
      var hi := (buf[i] as int / 16) as char;
      var lo := (buf[i] as int % 16) as char;
      if switchDigits {
        dest := dest + [lo, hi];
      } else {
        dest := dest + [hi, lo];
      }
      RawCharsStep(buf, i, switchDigits);
      i := i + 1;
    }
    assert buf[..i] == buf;
    dest := ConvertNibbles(dest, Nibbles(buf, switchDigits));
  }

  /** Number of 0xF filler nibbles in the bytes. */
  function FillerCount(src: seq<byte>): nat
  {
    if src == [] then 0
    else FillerCount(src[..|src| - 1])
         + (if src[|src| - 1] as int / 16 == 0xF then 1 else 0)
         + (if src[|src| - 1] as int % 16 == 0xF then 1 else 0)
  }

  /** Each byte yields two characters, minus one for every 0xF filler nibble. */
  lemma {:induction false} BcdTextLength(src: seq<byte>, switchDigits: bool)
    ensures |BcdText(src, switchDigits)| == 2 * |src| - FillerCount(src)
    decreases |src|
  {
    if src != [] {
      var init := src[..|src| - 1];
      var b := src[|src| - 1];
      BcdTextLength(init, switchDigits);
      NibblesTextConcat(Nibbles(init, switchDigits), ByteNibbles(b, switchDigits));
      PairText(ByteNibbles(b, switchDigits));
    }
  }

  lemma PairText(ns: seq<Nibble>)
    requires |ns| == 2
    ensures NibblesText(ns) == NibbleText(ns[0]) + NibbleText(ns[1])
  {
    var one := ns[..1];
    assert one[..0] == [];
    assert NibblesText(one) == NibbleText(ns[0]);
    assert ns[..|ns| - 1] == one;
  }

  function SwapNibbles(src: seq<byte>): (r: seq<byte>)
    ensures |r| == |src|
  {
    seq(|src|, i requires 0 <= i < |src| => ((src[i] as int % 16) * 16 + src[i] as int / 16) as byte)
  }

  /** Switching digits is the same as decoding the bytes with their nibbles swapped. */
  lemma {:induction false} BcdSwitchIsSwap(src: seq<byte>)
    ensures BcdText(src, true) == BcdText(SwapNibbles(src), false)
    decreases |src|
  {
    if src != [] {
      var init := src[..|src| - 1];
      assert SwapNibbles(src)[..|src| - 1] == SwapNibbles(init);
      BcdSwitchIsSwap(init);
      NibblesSwitchIsSwap(init);
      var b := src[|src| - 1];
      var sb := SwapNibbles(src)[|src| - 1];
      assert sb as int / 16 == b as int % 16 && sb as int % 16 == b as int / 16;
      assert ByteNibbles(b, true) == ByteNibbles(sb, false);
    }
  }

  lemma {:induction false} NibblesSwitchIsSwap(src: seq<byte>)
    ensures Nibbles(src, true) == Nibbles(SwapNibbles(src), false)
    decreases |src|
  {
    if src != [] {
      var init := src[..|src| - 1];
      assert SwapNibbles(src)[..|src| - 1] == SwapNibbles(init);
      NibblesSwitchIsSwap(init);
      var b := src[|src| - 1];
      var sb := SwapNibbles(src)[|src| - 1];
      assert sb as int / 16 == b as int % 16 && sb as int % 16 == b as int / 16;
      assert ByteNibbles(b, true) == ByteNibbles(sb, false);
    }
  }

  predicate AllDigits(s: string)
  {
    forall i | 0 <= i < |s| :: IsDigit(s[i])
  }

  /** Reference packing of a digit string into TD.57 BCD: two digits per byte,
      high nibble first, an odd length closed by an 0xF filler nibble. */
  function PackDigits(s: string): (r: seq<byte>)
    requires AllDigits(s)
    decreases |s|
  {
    if s == [] then []
    else if |s| == 1 then [(DigitValue(s[0]) * 16 + 0xF) as byte]
    else [(DigitValue(s[0]) * 16 + DigitValue(s[1])) as byte] + PackDigits(s[2..])
  }

  lemma PackedByteText(d0: nat, d1: nat)
    requires d0 < 10 && d1 < 16
    ensures BcdText([(d0 * 16 + d1) as byte], false) == [DigitChar(d0)] + NibbleText(d1)
  {
    var b := (d0 * 16 + d1) as byte;
    assert [b][..0] == [];
    assert Nibbles([b], false) == [d0, d1];
    PairText([d0, d1]);
  }

  lemma BcdTextConcat(a: seq<byte>, b: seq<byte>)
    ensures BcdText(a + b, false) == BcdText(a, false) + BcdText(b, false)
  {
    NibblesConcat(a, b, false);
    NibblesTextConcat(Nibbles(a, false), Nibbles(b, false));
  }

  /** Round trip: BCDString reads back every digit string packed into BCD. */
  lemma {:induction false} BcdRoundTrip(s: string)
    requires AllDigits(s)
    ensures BcdText(PackDigits(s), false) == s
    decreases |s|
  {
    if |s| == 1 {
      PackedByteText(DigitValue(s[0]), 0xF);
    } else if |s| >= 2 {
      var d0, d1 := DigitValue(s[0]), DigitValue(s[1]);
      var b := (d0 * 16 + d1) as byte;
      assert PackDigits(s) == [b] + PackDigits(s[2..]);
      BcdTextConcat([b], PackDigits(s[2..]));
      PackedByteText(d0, d1);
      BcdRoundTrip(s[2..]);
      assert DigitChar(d0) == s[0] && DigitChar(d1) == s[1];
      assert s == [s[0]] + [s[1]] + s[2..];
    }
  }

  // ---------------------------------------------------------------------------
  // OctetStr2Int64

  /** Reads at most 8 bytes, most significant first, into a signed 64-bit value
      (the shift wraps like the source's long long); longer strings overflow. */
  method OctetStr2Int64(octetStr: seq<byte>) returns (r: Result<int, string>)
    ensures r == DecodeInt64(octetStr)
  {
    var value := 0;
    if |octetStr| > 8 {
      return Failure(OVERFLOW_MESSAGE);
    }
    var i := 0;
    while i < |octetStr|
      invariant 0 <= i <= |octetStr|
      invariant value == Wrap64(BigEndian(octetStr[..i]))
    {
      var prefix := octetStr[..i];
      BigEndianBound(prefix);
      PowMonotone(i, 7);
      assert Pow256(7) < TWO_63 && Pow256(7) * 256 == TWO_64;
      Wrap64OfUnsigned(BigEndian(prefix));
      // the shift leaves the low byte zero, so or-ing the next byte adds it
      value := Wrap64(value * 256);
      value := value + octetStr[i] as int;
      assert octetStr[..i + 1] == prefix + [octetStr[i]];
      BigEndianAppend(prefix, octetStr[i]);
      Wrap64OfUnsigned(BigEndian(prefix) * 256);
      Wrap64OfUnsigned(BigEndian(prefix) * 256 + octetStr[i] as int);
      i := i + 1;
    }
    assert octetStr[..i] == octetStr;
    r := Success(value);
  }

  // ---------------------------------------------------------------------------
  // assign_integer_option

  predicate IsSpace(c: char)
  {
    c == ' ' || c == '\t' || c == '\n' || c == '\r' || c == 11 as char || c == 12 as char
  }

  function LeadingSpaces(s: string): (n: nat)
    ensures n <= |s|
  {
    if s != [] && IsSpace(s[0]) then 1 + LeadingSpaces(s[1..]) else 0
  }

  function DigitCount(s: string): (n: nat)
    ensures n <= |s| && AllDigits(s[..n])
    ensures n < |s| ==> !IsDigit(s[n])
  {
    if s != [] && IsDigit(s[0]) then
      var n := 1 + DigitCount(s[1..]);
      assert s[..n] == [s[0]] + s[1..][..n - 1];
      n
    else 0
  }

  /** std::stoi: optional white space, an optional sign and at least one digit;
      the value and the index just past the digits.  No digits or a value outside
      the int range is an exception (None). */
  function Stoi(s: string): Option<(int, nat)>
  {
    var ws := LeadingSpaces(s);
    var signed := ws < |s| && (s[ws] == '+' || s[ws] == '-');
    var start := if signed then ws + 1 else ws;
    var n := DigitCount(s[start..]);
    if n == 0 then None
    else
      var magnitude := DigitsValue(s[start..][..n]);
      var v: int := if signed && s[ws] == '-' then -(magnitude as int) else magnitude;
      if v < INT_MIN || v > INT_MAX then None else Some((v, start + n))
  }

  /** Parses an integer option: 0 and the value exactly when the whole text is an
      integer in [minValid, maxValid], otherwise -1.  As in the source, the parameter
      already holds the parsed value when only the trailing text or the range
      check fails; it is untouched when nothing parses. */
  function AssignIntegerOption(name: string, value: string, param: int, minValid: int, maxValid: int)
    : (r: (int, int))
    ensures r.0 == 0 || r.0 == -1
    ensures r.0 == 0 ==> minValid <= r.1 <= maxValid && INT_MIN <= r.1 <= INT_MAX
    ensures r.0 == 0 ==> Stoi(value).Some? && Stoi(value).value.1 == |value|
    ensures (Stoi(value).Some? && Stoi(value).value.1 == |value|
             && minValid <= Stoi(value).value.0 <= maxValid) ==> r.0 == 0
    ensures Stoi(value).None? ==> r == (-1, param)
    ensures Stoi(value).Some? ==> r.1 == Stoi(value).value.0
  {
    match Stoi(value)
    case None => (-1, param)
    case Some((parsed, idx)) =>
      if idx < |value| then (-1, parsed)
      else if parsed < minValid || parsed > maxValid then (-1, parsed)
      else (0, parsed)
  }

  lemma DigitCountAll(s: string)
    requires AllDigits(s)
    ensures DigitCount(s) == |s|
  {
  }

  /** Round trip: the decimal text of any int in the valid range is accepted
      with its value. */
  lemma AssignIntegerOptionAcceptsDecimal(name: string, n: int, param: int, minValid: int, maxValid: int)
    requires INT_MIN <= n <= INT_MAX && minValid <= n <= maxValid
    ensures AssignIntegerOption(name, IntToString(n), param, minValid, maxValid) == (0, n)
  {
    var s := IntToString(n);
    var m: nat := if n < 0 then -n else n;
    var digits := NatToString(m);
    NatToStringValue(m);
    DigitCountAll(digits);
    if n < 0 {
      assert s[1..] == digits;
      assert LeadingSpaces(s) == 0;
    } else {
      assert s == digits;
      assert LeadingSpaces(s) == 0 by {
        assert IsDigit(s[0]);
      }
    }
    assert digits[..|digits|] == digits;
  }
}
