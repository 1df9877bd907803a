/** The message unit of the board and its content-derived 64-bit identity. */
module Envelopes {
  import opened Wrappers
  import opened Text

  /** FROST identifiers are nonzero scalars; roster members are `1..=n`. */
  type Identifier = n: int | 0 < n witness 1

  datatype MessageClass =
    | CeremonyOpen
    | Round1Package
    | Round2Bundle
    | Commitments
    | SignatureShare
    | Confirmation
    | SessionControl

  function Tag(c: MessageClass): byte {
    match c
    case CeremonyOpen => 1
    case Round1Package => 2
    case Round2Bundle => 3
    case Commitments => 4
    case SignatureShare => 5
    case Confirmation => 6
    case SessionControl => 7
  }

  datatype Envelope = Envelope(
    class_: MessageClass,
    session: Utf8,
    round: u32,
    seat: u16,
    recipient: Option<u16>,
    payload: seq<byte>)

  function Broadcast(c: MessageClass, session: Utf8, round: u32, seat: u16, payload: seq<byte>): Envelope {
    Envelope(c, session, round, seat, None, payload)
  }

  function Directed(c: MessageClass, session: Utf8, round: u32, seat: u16, to: u16, payload: seq<byte>): Envelope {
    Envelope(c, session, round, seat, Some(to), payload)
  }

  // ---- FNV-1a over 64 bits ----

  const WORD: int := 0x1_0000_0000_0000_0000

  const OFFSET: u64 := 0xcbf2_9ce4_8422_2325

  const PRIME: int := 0x0000_0100_0000_01b3

  /** The inverse of PRIME modulo 2^64. */
  const PRIME_INVERSE: int := 0xce96_5057_aff6_957b

  /** Exclusive or of the low `width` bits. */
  function Xor(a: nat, b: nat, width: nat): nat {
    if width == 0 then 0 else (a + b) % 2 + 2 * Xor(a / 2, b / 2, width - 1)
  }

  function Pow2(k: nat): nat {
    if k == 0 then 1 else 2 * Pow2(k - 1)
  }

  lemma {:induction false} XorFits(a: nat, b: nat, width: nat)
    ensures Xor(a, b, width) < Pow2(width)
    ensures Xor(a, b, width) == Xor(b, a, width)
  {
    if width > 0 { XorFits(a / 2, b / 2, width - 1); }
  }

  lemma {:induction false} XorCancels(a: nat, b: nat, c: nat, width: nat)
    requires b < Pow2(width) && c < Pow2(width) && Xor(a, b, width) == Xor(a, c, width)
    ensures b == c
  {
    if width > 0 {
      LowBits((a + b) % 2, (a + c) % 2, Xor(a / 2, b / 2, width - 1), Xor(a / 2, c / 2, width - 1));
      XorCancels(a / 2, b / 2, c / 2, width - 1);
      SameParity(a, b, c);
    }
  }

  lemma LowBits(x: int, y: int, u: int, v: int)
    requires 0 <= x < 2 && 0 <= y < 2 && x + 2 * u == y + 2 * v
    ensures x == y && u == v
  {
  }

  lemma SameParity(a: nat, b: nat, c: nat)
    ensures (a + b) % 2 == (a + c) % 2 && b / 2 == c / 2 ==> b == c
  {
  }

  lemma ByteIsPow2()
    ensures Pow2(8) == 256
  {
    assert Pow2(8) == 2 * Pow2(7) && Pow2(7) == 2 * Pow2(6) && Pow2(6) == 2 * Pow2(5);
    assert Pow2(5) == 2 * Pow2(4) && Pow2(4) == 2 * Pow2(3);
  }

  function XorByte(a: byte, b: byte): byte {
    XorFits(a, b, 8);
    ByteIsPow2();
    Xor(a, b, 8)
  }

  /** `h ^= b as u64`: only the low byte of the state is affected. */
  function XorLow(h: u64, b: byte): (r: u64) {
    h - h % 256 + XorByte(h % 256, b)
  }

  function FnvStep(h: u64, b: byte): u64 {
    (XorLow(h, b) * PRIME) % WORD
  }

  function Fnv(h: u64, bytes: seq<byte>): u64
    decreases |bytes|
  {
    if bytes == [] then h else Fnv(FnvStep(h, bytes[0]), bytes[1..])
  }

  lemma {:induction false} FnvConcat(h: u64, a: seq<byte>, b: seq<byte>)
    ensures Fnv(h, a + b) == Fnv(Fnv(h, a), b)
    decreases |a|
  {
    if a == [] {
      assert a + b == b;
    } else {
      assert (a + b)[1..] == a[1..] + b;
      FnvConcat(FnvStep(h, a[0]), a[1..], b);
    }
  }

  lemma XorByteCancels(a: byte, b: byte, c: byte)
    requires XorByte(a, b) == XorByte(a, c)
    ensures b == c
  {
    ByteIsPow2();
    XorCancels(a, b, c, 8);
  }

  lemma XorByteInjective(a: byte, b: byte, c: byte)
    requires XorByte(a, c) == XorByte(b, c)
    ensures a == b
  {
    ByteIsPow2();
    XorFits(a, c, 8);
    XorFits(b, c, 8);
    XorCancels(c, a, b, 8);
  }

  lemma XorLowParts(h: u64, b: byte)
    ensures XorLow(h, b) / 256 == h / 256 && XorLow(h, b) % 256 == XorByte(h % 256, b)
  {
  }

  /** Multiplying by the odd PRIME is injective modulo 2^64. */
  lemma TimesPrimeInjective(x: u64, y: u64)
    requires (x * PRIME) % WORD == (y * PRIME) % WORD
    ensures x == y
  {
    var k := (x * PRIME) / WORD - (y * PRIME) / WORD;
    assert (x - y) * PRIME == k * WORD;
    var c := (PRIME * PRIME_INVERSE) / WORD;
    assert PRIME * PRIME_INVERSE == 1 + c * WORD;
    var m := k * PRIME_INVERSE - (x - y) * c;
    calc {
      x - y;
      (x - y) * (PRIME * PRIME_INVERSE - c * WORD);
      (x - y) * PRIME * PRIME_INVERSE - (x - y) * c * WORD;
      k * WORD * PRIME_INVERSE - (x - y) * c * WORD;
      m * WORD;
    }
  }

  /** One hash step is a bijection of the state for a fixed byte. */
  lemma StepInjective(h1: u64, h2: u64, b: byte)
    requires FnvStep(h1, b) == FnvStep(h2, b)
    ensures h1 == h2
  {
    TimesPrimeInjective(XorLow(h1, b), XorLow(h2, b));
    XorLowParts(h1, b);
    XorLowParts(h2, b);
    XorByteInjective(h1 % 256, h2 % 256, b);
  }

  lemma {:induction false} FnvInjective(h1: u64, h2: u64, suffix: seq<byte>)
    requires Fnv(h1, suffix) == Fnv(h2, suffix)
    ensures h1 == h2
    decreases |suffix|
  {
    if suffix != [] {
      FnvInjective(FnvStep(h1, suffix[0]), FnvStep(h2, suffix[0]), suffix[1..]);
      StepInjective(h1, h2, suffix[0]);
    }
  }

  /** Two products by PRIME of states that share their upper 56 bits are either equal or
      differ in their upper 56 bits: the gap `d * (2^40 + 435)` with `0 < |d| < 256` is too
      large to stay inside a byte and too small to wrap. */
  lemma GapLeavesTheByte(x: u64, y: u64)
    requires x / 256 == y / 256 && x != y
    ensures ((x * PRIME) % WORD) / 256 != ((y * PRIME) % WORD) / 256
  {
    var d := x - y;
    assert -256 < d < 256 && d != 0;
    var r, s := (x * PRIME) % WORD, (y * PRIME) % WORD;
    var k := (x * PRIME) / WORD - (y * PRIME) / WORD;
    assert r - s == d * PRIME - k * WORD;
    assert PRIME <= d * PRIME < 256 * PRIME || -256 * PRIME < d * PRIME <= -PRIME;
    assert r / 256 == s / 256 ==> -256 < r - s < 256;
    assert !(-256 < r - s < 256);
  }

  /** From one state, two different pairs of bytes lead to two different states. */
  lemma TwoBytesInjective(h: u64, a: byte, b: byte, c: byte, d: byte)
    requires FnvStep(FnvStep(h, a), b) == FnvStep(FnvStep(h, c), d)
    ensures a == c && b == d
  {
    var p, q := FnvStep(h, a), FnvStep(h, c);
    TimesPrimeInjective(XorLow(p, b), XorLow(q, d));
    XorLowParts(p, b);
    XorLowParts(q, d);
    assert p / 256 == q / 256;
    XorLowParts(h, a);
    XorLowParts(h, c);
    if XorLow(h, a) != XorLow(h, c) {
      GapLeavesTheByte(XorLow(h, a), XorLow(h, c));
      assert false;
    }
    XorByteCancels(h % 256, a, c);
    XorByteCancels(p % 256, b, d);
  }

  // ---- the canonical encoding ----

  function Le(n: nat, width: nat): (r: seq<byte>)
    ensures |r| == width
  {
    if width == 0 then [] else [n % 256] + Le(n / 256, width - 1)
  }

  lemma {:induction false} LeInjective(a: nat, b: nat, width: nat)
    requires a < Pow256(width) && b < Pow256(width) && Le(a, width) == Le(b, width)
    ensures a == b
  {
    if width > 0 {
      assert Le(a, width)[0] == Le(b, width)[0];
      assert Le(a, width)[1..] == Le(a / 256, width - 1) && Le(b, width)[1..] == Le(b / 256, width - 1);
      LeInjective(a / 256, b / 256, width - 1);
    }
  }

  /** Lengths are written as `u64`; a vector in memory is never that long. */
  predicate WellSized(e: Envelope) {
    |e.session| < WORD && |e.payload| < WORD
  }

  function RecipientBytes(r: Option<u16>): seq<byte> {
    match r
    case Some(to) => [1] + Le(to, 2)
    case None => [0]
  }

  /** Everything the hash reads before the seat field. */
  function Head(e: Envelope): seq<byte> {
    [Tag(e.class_)] + (Le(|e.session|, 8) + (Bytes(e.session) + Le(e.round, 4)))
  }

  /** Everything the hash reads after the seat field. */
  function Tail(e: Envelope): seq<byte> {
    RecipientBytes(e.recipient) + (Le(|e.payload|, 8) + e.payload)
  }

  function Encode(e: Envelope): seq<byte> {
    Head(e) + (Le(e.seat, 2) + Tail(e))
  }

  function Id(e: Envelope): u64 {
    Fnv(OFFSET, Encode(e))
  }

  lemma XorOfLowBytes()
    ensures XorByte(0x25, 97) == 0x44
  {
    assert Xor(0, 1, 2) == 1;
    assert Xor(1, 3, 3) == 2;
    assert Xor(2, 6, 4) == 4;
    assert Xor(4, 12, 5) == 8;
    assert Xor(9, 24, 6) == 17;
    assert Xor(18, 48, 7) == 34;
  }

  lemma FnvOne(h: u64, b: byte)
    ensures Fnv(h, [b]) == FnvStep(h, b)
  {
    assert [b][1..] == [];
    assert Fnv(FnvStep(h, b), []) == FnvStep(h, b);
  }

  lemma StepOf(h: u64, b: byte, x: byte)
    requires XorByte(h % 256, b) == x
    ensures FnvStep(h, b) == ((h - h % 256 + x) * PRIME) % WORD
  {
  }

  lemma KnownArithmetic()
    ensures OFFSET % 256 == 0x25 && ((OFFSET - 0x25 + 0x44) * PRIME) % WORD == 0xaf63_dc4c_8601_ec8c
  {
  }

  lemma HashOfOne(h: u64, b: byte, low: byte, x: byte, out: u64)
    requires h % 256 == low && XorByte(low, b) == x && ((h - low + x) * PRIME) % WORD == out
    ensures Fnv(h, [b]) == out
  {
    StepOf(h, b, x);
    FnvOne(h, b);
  }

  /** The published FNV-1a value of the one-byte text `a`. */
  lemma KnownHash()
    ensures Fnv(OFFSET, [97]) == 0xaf63_dc4c_8601_ec8c
  {
    XorOfLowBytes();
    KnownArithmetic();
    HashOfOne(OFFSET, 97, 0x25, 0x44, 0xaf63_dc4c_8601_ec8c);
  }

  lemma SplitAt<T>(a: seq<T>, b: seq<T>, c: seq<T>, d: seq<T>)
    requires a + b == c + d && |a| == |c|
    ensures a == c && b == d
  {
    assert (a + b)[..|a|] == a && (c + d)[..|c|] == c;
    assert (a + b)[|a|..] == b && (c + d)[|c|..] == d;
  }

  lemma WordIsPow256()
    ensures Pow256(2) == 0x1_0000 && Pow256(4) == 0x1_0000_0000 && Pow256(8) == WORD
  {
    assert Pow256(2) == 256 * Pow256(1) && Pow256(4) == 256 * Pow256(3) && Pow256(3) == 256 * Pow256(2);
    assert Pow256(8) == 256 * Pow256(7) && Pow256(7) == 256 * Pow256(6);
    assert Pow256(6) == 256 * Pow256(5) && Pow256(5) == 256 * Pow256(4);
  }

  /** The encoding fed to the hash loses nothing: only FNV itself can make two different
      envelopes share an id. */
  lemma EncodeInjective(e: Envelope, f: Envelope)
    requires WellSized(e) && WellSized(f) && Encode(e) == Encode(f)
    ensures e == f
  {
    WordIsPow256();
    EncodeHeadInjective(e, f);
    SplitAt(Head(e), Le(e.seat, 2) + Tail(e), Head(f), Le(f.seat, 2) + Tail(f));
    SplitAt(Le(e.seat, 2), Tail(e), Le(f.seat, 2), Tail(f));
    LeInjective(e.seat, f.seat, 2);
    TailInjective(e, f);
  }

  /** Prepending `a` distributes over the nesting of `Encode`. */
  lemma Reassociate(a: seq<byte>, b: seq<byte>, c: seq<byte>, d: seq<byte>, rest: seq<byte>)
    ensures (a + (b + (c + d))) + rest == a + (b + (c + (d + rest)))
  {
  }

  lemma EncodeHeadInjective(e: Envelope, f: Envelope)
    requires WellSized(e) && WellSized(f) && Encode(e) == Encode(f)
    ensures e.class_ == f.class_ && e.session == f.session && e.round == f.round
  {
    WordIsPow256();
    var (te, tf) := ([Tag(e.class_)], [Tag(f.class_)]);
    var (le, lf) := (Le(|e.session|, 8), Le(|f.session|, 8));
    HeadFieldsInjective(te, le, Bytes(e.session), Le(e.round, 4), Le(e.seat, 2) + Tail(e),
                        tf, lf, Bytes(f.session), Le(f.round, 4), Le(f.seat, 2) + Tail(f),
                        |e.session|, |f.session|);
    assert te[0] == tf[0];
    BytesInjective(e.session, f.session);
    LeInjective(e.round, f.round, 4);
  }

  lemma HeadFieldsInjective(
      a: seq<byte>, b: seq<byte>, c: seq<byte>, d: seq<byte>, rest: seq<byte>,
      a': seq<byte>, b': seq<byte>, c': seq<byte>, d': seq<byte>, rest': seq<byte>, n: nat, n': nat)
    requires |a| == |a'| && b == Le(n, 8) && b' == Le(n', 8) && |c| == n < WORD && |c'| == n' < WORD
    requires |d| == |d'|
    requires (a + (b + (c + d))) + rest == (a' + (b' + (c' + d'))) + rest'
    ensures a == a' && c == c' && d == d'
  {
    Reassociate(a, b, c, d, rest);
    Reassociate(a', b', c', d', rest');
    SplitAt(a, b + (c + (d + rest)), a', b' + (c' + (d' + rest')));
    SplitAt(b, c + (d + rest), b', c' + (d' + rest'));
    WordIsPow256();
    LeInjective(n, n', 8);
    SplitAt(c, d + rest, c', d' + rest');
    SplitAt(d, rest, d', rest');
  }

  lemma TailInjective(e: Envelope, f: Envelope)
    requires WellSized(e) && WellSized(f) && Tail(e) == Tail(f)
    ensures e.recipient == f.recipient && e.payload == f.payload
  {
    WordIsPow256();
    var re, rf := RecipientBytes(e.recipient), RecipientBytes(f.recipient);
    var pe, pf := Le(|e.payload|, 8) + e.payload, Le(|f.payload|, 8) + f.payload;
    assert re[0] == Tail(e)[0] == Tail(f)[0] == rf[0];
    SplitAt(re, pe, rf, pf);
    if e.recipient.Some? {
      SplitAt([1 as byte], Le(e.recipient.value, 2), [1 as byte], Le(f.recipient.value, 2));
      LeInjective(e.recipient.value, f.recipient.value, 2);
    }
    SplitAt(Le(|e.payload|, 8), e.payload, Le(|f.payload|, 8), f.payload);
  }

  /** Two envelopes that differ in their seat only never share an id, whatever the rest is. */
  lemma SeatsNeverCollide(e: Envelope, f: Envelope)
    requires e.(seat := f.seat) == f && Id(e) == Id(f)
    ensures e == f
  {
    var h := Fnv(OFFSET, Head(e));
    assert Head(e) == Head(f) && Tail(e) == Tail(f);
    FnvConcat(OFFSET, Head(e), Le(e.seat, 2) + Tail(e));
    FnvConcat(OFFSET, Head(f), Le(f.seat, 2) + Tail(f));
    FnvConcat(h, Le(e.seat, 2), Tail(e));
    FnvConcat(h, Le(f.seat, 2), Tail(f));
    FnvInjective(Fnv(h, Le(e.seat, 2)), Fnv(h, Le(f.seat, 2)), Tail(e));
    FnvTwoBytes(h, e.seat);
    FnvTwoBytes(h, f.seat);
    TwoBytesInjective(h, e.seat % 256, e.seat / 256, f.seat % 256, f.seat / 256);
  }

  lemma FnvPair(h: u64, a: byte, b: byte)
    ensures Fnv(h, [a, b]) == FnvStep(FnvStep(h, a), b)
  {
    assert [a, b][1..] == [b] && [b][1..] == [];
    assert Fnv(FnvStep(h, a), [b]) == Fnv(FnvStep(FnvStep(h, a), b), []);
  }

  lemma FnvTwoBytes(h: u64, n: u16)
    ensures Fnv(h, Le(n, 2)) == FnvStep(FnvStep(h, n % 256), n / 256)
  {
    assert Le(n / 256, 1) == [n / 256] + Le(n / 256 / 256, 0);
    assert Le(n, 2) == [n % 256, n / 256];
    FnvPair(h, n % 256, n / 256);
  }

  // ---- the loop that computes the id ----

  /** The `mix` closure: fold every byte into the state. */
  method Mix(h: u64, bytes: seq<byte>) returns (r: u64)
    ensures r == Fnv(h, bytes)
  {
    r := h;
    for i := 0 to |bytes|
      invariant Fnv(h, bytes) == Fnv(r, bytes[i..])
    {
      assert bytes[i..][0] == bytes[i] && bytes[i..][1..] == bytes[i + 1..];
      r := (XorLow(r, bytes[i]) * PRIME) % WORD;
    }
  }

  /** `Envelope::id`: the fields are mixed one after the other, without building the encoding. */
  method ComputeId(e: Envelope) returns (h: u64)
    ensures h == Id(e)
  {
    h := Mix(OFFSET, [Tag(e.class_)]);
    h := Mix(h, Le(|e.session|, 8));
    h := Mix(h, Bytes(e.session));
    h := Mix(h, Le(e.round, 4));
    FnvConcat(OFFSET, [Tag(e.class_)], Le(|e.session|, 8) + (Bytes(e.session) + Le(e.round, 4)));
    FnvConcat(Fnv(OFFSET, [Tag(e.class_)]), Le(|e.session|, 8), Bytes(e.session) + Le(e.round, 4));
    FnvConcat(Fnv(Fnv(OFFSET, [Tag(e.class_)]), Le(|e.session|, 8)), Bytes(e.session), Le(e.round, 4));
    assert h == Fnv(OFFSET, Head(e));
    FnvConcat(OFFSET, Head(e), Le(e.seat, 2) + Tail(e));
    FnvConcat(h, Le(e.seat, 2), Tail(e));
    h := Mix(h, Le(e.seat, 2));
    FnvConcat(h, RecipientBytes(e.recipient), Le(|e.payload|, 8) + e.payload);
    match e.recipient {
      case Some(to) =>
        FnvConcat(h, [1 as byte], Le(to, 2));
        h := Mix(h, [1]);
        h := Mix(h, Le(to, 2));
      case None =>
        h := Mix(h, [0]);
    }
    FnvConcat(h, Le(|e.payload|, 8), e.payload);
    h := Mix(h, Le(|e.payload|, 8));
    h := Mix(h, e.payload);
  }
}
