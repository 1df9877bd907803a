/** Bytes, decimal numbers and hexadecimal, as the source formats and parses them.

    A Rust `String` is represented by its UTF-8 bytes, one `char` below 256 per byte
    (`Utf8`), so that lengths are byte lengths and equality is byte equality. */
module Text {
  import opened Wrappers

  type byte = b: int | 0 <= b < 256

  type u16 = n: int | 0 <= n < 0x1_0000

  type u32 = n: int | 0 <= n < 0x1_0000_0000

  type u64 = n: int | 0 <= n < 0x1_0000_0000_0000_0000

  function Pow256(k: nat): nat {
    if k == 0 then 1 else 256 * Pow256(k - 1)
  }

  predicate IsUtf8(s: string) {
    forall i :: 0 <= i < |s| ==> s[i] as int < 256
  }

  type Utf8 = s: string | IsUtf8(s)

  function Bytes(s: Utf8): (r: seq<byte>)
    ensures |r| == |s|
  {
    seq(|s|, i requires 0 <= i < |s| => s[i] as int)
  }

  lemma BytesInjective(a: Utf8, b: Utf8)
    requires Bytes(a) == Bytes(b)
    ensures a == b
  {
    forall i | 0 <= i < |a| ensures a[i] == b[i] {
      assert Bytes(a)[i] == Bytes(b)[i];
    }
  }

  // ---- decimal ----

  predicate IsDigit(c: char) {
    '0' <= c <= '9'
  }

  function Digit(d: int): (c: char)
    requires 0 <= d < 10
    ensures IsDigit(c) && c as int - '0' as int == d
  {
    '0' + d as char
  }

  /** `format!("{n}")`. */
  function Decimal(n: nat): (s: string)
    ensures |s| > 0
    ensures forall i :: 0 <= i < |s| ==> IsDigit(s[i])
  {
    if n < 10 then [Digit(n)] else Decimal(n / 10) + [Digit(n % 10)]
  }

  function DecimalValue(s: string): int {
    if s == [] then 0 else 10 * DecimalValue(s[..|s| - 1]) + (s[|s| - 1] as int - '0' as int)
  }

  lemma {:induction false} DecimalRoundTrip(n: nat)
    ensures DecimalValue(Decimal(n)) == n
  {
    if n >= 10 {
      DecimalRoundTrip(n / 10);
      assert Decimal(n)[..|Decimal(n)| - 1] == Decimal(n / 10);
    } else {
      assert Decimal(n)[..0] == [];
    }
  }

  lemma DecimalInjective(a: nat, b: nat)
    requires Decimal(a) == Decimal(b)
    ensures a == b
  {
    DecimalRoundTrip(a);
    DecimalRoundTrip(b);
  }

  // ---- hexadecimal ----

  function HexDigit(d: int): (c: char)
    requires 0 <= d < 16
  {
    if d < 10 then '0' + d as char else 'a' + (d - 10) as char
  }

  function HexValue(c: char): Option<int> {
    if '0' <= c <= '9' then Some(c as int - '0' as int)
    else if 'a' <= c <= 'f' then Some(c as int - 'a' as int + 10)
    else if 'A' <= c <= 'F' then Some(c as int - 'A' as int + 10)
    else None
  }

  /** `format!("{b:02x}")`. */
  function HexByte(b: byte): string {
    [HexDigit(b / 16), HexDigit(b % 16)]
  }

  function Hex(bytes: seq<byte>): (s: string)
    ensures |s| == 2 * |bytes|
  {
    if bytes == [] then [] else HexByte(bytes[0]) + Hex(bytes[1..])
  }

  /** `u8::from_str_radix(pair, 16)` on two characters: a leading `+` is accepted. */
  function ParsePair(hi: char, lo: char): Option<byte> {
    match (HexValue(hi), HexValue(lo))
    case (Some(h), Some(l)) => Some(16 * h + l)
    case (None, Some(l)) => if hi == '+' then Some(l) else None
    case (_, None) => None
  }

  /** Both decoders of the source: an odd length or one bad pair rejects the whole text. */
  function Unhex(s: string): Option<seq<byte>>
    decreases |s|
  {
    if |s| % 2 != 0 then None
    else if s == [] then Some([])
    else match (ParsePair(s[0], s[1]), Unhex(s[2..]))
      case (Some(b), Some(rest)) => Some([b] + rest)
      case _ => None
  }

  predicate IsLowerHex(c: char) {
    '0' <= c <= '9' || 'a' <= c <= 'f'
  }

  lemma PairOfByte(b: byte)
    ensures ParsePair(HexDigit(b / 16), HexDigit(b % 16)) == Some(b)
  {
    var h, l := b / 16, b % 16;
    assert HexValue(HexDigit(h)) == Some(h) && HexValue(HexDigit(l)) == Some(l);
  }

  /** A pair is the rendering of the byte it parses to exactly when both digits are lower-case. */
  lemma ByteOfPair(hi: char, lo: char)
    requires ParsePair(hi, lo).Some?
    ensures HexByte(ParsePair(hi, lo).value) == [hi, lo] <==> IsLowerHex(hi) && IsLowerHex(lo)
  {
    var b := ParsePair(hi, lo).value;
    if IsLowerHex(hi) && IsLowerHex(lo) {
      var h, l := HexValue(hi).value, HexValue(lo).value;
      assert b / 16 == h && b % 16 == l && HexDigit(h) == hi && HexDigit(l) == lo;
    } else {
      assert IsLowerHex(HexByte(b)[0]) && IsLowerHex(HexByte(b)[1]);
    }
  }

  lemma UnhexCons(hi: char, lo: char, s: string)
    ensures Unhex([hi, lo] + s) ==
      match (ParsePair(hi, lo), Unhex(s)) { case (Some(b), Some(rest)) => Some([b] + rest) case _ => None }
  {
    assert ([hi, lo] + s)[2..] == s;
  }

  /** Decoding inverts encoding, for every byte sequence. */
  lemma {:induction false} UnhexHex(bytes: seq<byte>)
    ensures Unhex(Hex(bytes)) == Some(bytes)
  {
    if bytes != [] {
      UnhexHex(bytes[1..]);
      PairOfByte(bytes[0]);
      UnhexCons(HexDigit(bytes[0] / 16), HexDigit(bytes[0] % 16), Hex(bytes[1..]));
      assert [bytes[0]] + bytes[1..] == bytes;
    }
  }

  /** A character stands for the digit `d` in lower or in upper case. */
  predicate StandsFor(c: char, d: int) {
    0 <= d < 16 && (c == HexDigit(d) || (d >= 10 && c == 'A' + (d - 10) as char))
  }

  /** A pair is accepted exactly as two hex digits, or as a plus sign before one. */
  lemma PairExactly(hi: char, lo: char, b: byte)
    ensures ParsePair(hi, lo) == Some(b) <==>
      StandsFor(lo, b % 16) && (StandsFor(hi, b / 16) || (hi == '+' && b < 16))
  {
    DigitExactly(hi);
    DigitExactly(lo);
  }

  lemma DigitExactly(c: char)
    ensures forall d :: HexValue(c) == Some(d) <==> StandsFor(c, d)
  {
  }

  /** A decoded text has an even length, and each byte is its pair. */
  lemma {:induction false} UnhexPair(s: string, i: nat)
    requires Unhex(s).Some? && i < |s| / 2
    ensures |s| % 2 == 0 && |Unhex(s).value| == |s| / 2
    ensures ParsePair(s[2 * i], s[2 * i + 1]) == Some(Unhex(s).value[i])
    decreases |s|
  {
    var tail := s[2..];
    if i > 0 {
      UnhexPair(tail, i - 1);
      assert tail[2 * (i - 1)] == s[2 * i] && tail[2 * (i - 1) + 1] == s[2 * i + 1];
    } else if tail != [] {
      UnhexPair(tail, 0);
    }
  }

  /** A refused text has an odd length or a pair that is not accepted. */
  lemma {:induction false} UnhexRefused(s: string) returns (i: nat)
    requires Unhex(s).None? && |s| % 2 == 0
    ensures i < |s| / 2 && ParsePair(s[2 * i], s[2 * i + 1]).None?
    decreases |s|
  {
    i := 0;
    if ParsePair(s[0], s[1]).Some? {
      i := UnhexRefused(s[2..]);
      assert s[2..][2 * i] == s[2 * (i + 1)] && s[2..][2 * i + 1] == s[2 * (i + 1) + 1];
      i := i + 1;
    }
  }

  predicate AllLowerHex(s: string) {
    forall i :: 0 <= i < |s| ==> IsLowerHex(s[i])
  }

  /** Encoding inverts decoding on exactly the texts made of lower-case hex digits: the decoders
      also accept upper case and a `+`, which do not survive the trip. */
  lemma {:induction false} HexUnhex(s: string)
    requires Unhex(s).Some?
    ensures Hex(Unhex(s).value) == s <==> AllLowerHex(s)
  {
    if s != [] {
      var tail := s[2..];
      HexUnhex(tail);
      ByteOfPair(s[0], s[1]);
      var b, rest := ParsePair(s[0], s[1]).value, Unhex(tail).value;
      assert ([b] + rest)[1..] == rest;
      assert Hex(Unhex(s).value) == HexByte(b) + Hex(rest);
      var r := HexByte(b) + Hex(rest);
      assert s == [s[0], s[1]] + tail && s[..2] == [s[0], s[1]];
      assert r[..2] == HexByte(b) && r[2..] == Hex(rest);
      AllLowerCons(s);
    }
  }

  lemma AllLowerCons(s: string)
    requires |s| >= 2
    ensures AllLowerHex(s) <==> IsLowerHex(s[0]) && IsLowerHex(s[1]) && AllLowerHex(s[2..])
  {
    assert forall i :: 2 <= i < |s| ==> s[i] == s[2..][i - 2];
  }

  lemma {:induction false} HexAppend(a: seq<byte>, b: byte)
    ensures Hex(a + [b]) == Hex(a) + HexByte(b)
  {
    if a == [] {
      assert a + [b] == [b];
      assert Hex([b]) == HexByte(b) + Hex([]);
    } else {
      HexAppend(a[1..], b);
      assert (a + [b])[1..] == a[1..] + [b];
    }
  }

  /** The encoder's loop: each byte's two digits are pushed onto the text. */
  method HexEncode(bytes: seq<byte>) returns (s: string)
    ensures s == Hex(bytes)
    ensures Unhex(s) == Some(bytes)
  {
    s := [];
    for i := 0 to |bytes|
      invariant s == Hex(bytes[..i])
    {
      HexAppend(bytes[..i], bytes[i]);
      assert bytes[..i + 1] == bytes[..i] + [bytes[i]];
      s := s + HexByte(bytes[i]);
    }
    assert bytes[..|bytes|] == bytes;
    UnhexHex(bytes);
  }

  /** The decoder's loop over two-character chunks. */
  method HexDecode(s: string) returns (r: Option<seq<byte>>)
    ensures r == Unhex(s)
  {
    if |s| % 2 != 0 {
      return None;
    }
    var bytes: seq<byte> := [];
    var i := 0;
    assert s[0..] == s;
    assert forall rest: seq<byte> :: bytes + rest == rest;
    while i < |s|
      invariant 0 <= i <= |s| && i % 2 == 0
      invariant Unhex(s) == match Unhex(s[i..]) case Some(rest) => Some(bytes + rest) case None => None
    {
      assert s[i..][0] == s[i] && s[i..][1] == s[i + 1] && s[i..][2..] == s[i + 2..];
      var pair := ParsePair(s[i], s[i + 1]);
      match pair {
        case None => return None;
        case Some(b) =>
          assert forall rest :: bytes + ([b] + rest) == bytes + [b] + rest;
          bytes := bytes + [b];
      }
      i := i + 2;
    }
    assert bytes + [] == bytes;
    return Some(bytes);
  }
}
