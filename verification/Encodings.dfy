/**
 * The text encodings between server and browser: UTF-8 as Go writes it, the incremental decoder behind
 * `TextDecoder` (section 8.1.1 of the WHATWG Encoding Standard), and the UTF-16 units of a JavaScript
 * string.
 */
module Encodings {
  /** A Unicode scalar value. */
  type Scalar = c: int | 0 <= c < 0xD800 || 0xE000 <= c < 0x11_0000

  type Byte = b: int | 0 <= b < 0x100

  /** A UTF-16 code unit. */
  type Unit = u: int | 0 <= u < 0x1_0000

  const REPLACEMENT: Scalar := 0xFFFD
  const BYTE_ORDER_MARK: Scalar := 0xFEFF

  /** A character that is one scalar, one byte and one code unit. */
  type Ascii = c: int | 0 <= c < 0x80

  predicate IsAscii(s: string) {
    forall i :: 0 <= i < |s| ==> s[i] < '\U{0080}'
  }

  function Codes(s: string): (r: seq<Ascii>)
    requires IsAscii(s)
    ensures |r| == |s| && forall i :: 0 <= i < |s| ==> r[i] == s[i] as int
  {
    seq(|s|, i requires 0 <= i < |s| => s[i] as int)
  }

  function Utf8(c: Scalar): seq<Byte> {
    if c < 0x80 then [c]
    else if c < 0x800 then [0xC0 + c / 64, 0x80 + c % 64]
    else if c < 0x1_0000 then [0xE0 + c / 4096, 0x80 + c / 64 % 64, 0x80 + c % 64]
    else [0xF0 + c / 262144, 0x80 + c / 4096 % 64, 0x80 + c / 64 % 64, 0x80 + c % 64]
  }

  function Utf16(c: Scalar): seq<Unit> {
    if c < 0x1_0000 then [c] else [0xD800 + (c - 0x1_0000) / 1024, 0xDC00 + (c - 0x1_0000) % 1024]
  }

  /** Every element turned into a piece of the result, in order. */
  function FlatMap<A, B>(f: A -> seq<B>, xs: seq<A>): seq<B> {
    if xs == [] then [] else f(xs[0]) + FlatMap(f, xs[1..])
  }

  function Utf8All(s: seq<Scalar>): seq<Byte> {
    FlatMap(Utf8, s)
  }

  function Utf16All(s: seq<Scalar>): seq<Unit> {
    FlatMap(Utf16, s)
  }

  lemma FlatMapOne<A, B>(f: A -> seq<B>, x: A)
    ensures FlatMap(f, [x]) == f(x)
  {
    assert [x][1..] == [];
    assert f(x) + [] == f(x);
  }

  lemma ConcatAssociative<T>(a: seq<T>, b: seq<T>, c: seq<T>)
    ensures a + b + c == a + (b + c)
  {
  }

  lemma {:induction false} FlatMapConcat<A, B>(f: A -> seq<B>, xs: seq<A>, ys: seq<A>)
    ensures FlatMap(f, xs + ys) == FlatMap(f, xs) + FlatMap(f, ys)
  {
    if xs == [] {
      assert xs + ys == ys;
    } else {
      FlatMapConcat(f, xs[1..], ys);
      assert (xs + ys)[1..] == xs[1..] + ys;
      ConcatAssociative(f(xs[0]), FlatMap(f, xs[1..]), FlatMap(f, ys));
    }
  }

  lemma {:induction false} AsciiUnits(s: seq<Ascii>)
    ensures Utf16All(s) == s
  {
    if s != [] {
      AsciiUnits(s[1..]);
    }
  }

  // ---- The decoder ----

  /** The decoder between two bytes; `begun`: a first character has been seen, so no byte order mark is due. */
  datatype Decoder = Decoder(point: int, needed: nat, seen: nat, lower: int, upper: int, begun: bool)

  const FRESH := Decoder(0, 0, 0, 0x80, 0xBF, false)

  function Rest(begun: bool): Decoder {
    FRESH.(begun := begun)
  }

  /** A decoded character; a byte order mark in first place is dropped. */
  function Emit(c: Scalar, begun: bool): (Decoder, seq<Unit>) {
    (Rest(true), if !begun && c == BYTE_ORDER_MARK then [] else Utf16(c))
  }

  /** A byte that starts a character, or an error. */
  function Lead(b: Byte, begun: bool): (Decoder, seq<Unit>) {
    if b < 0x80 then Emit(b, begun)
    else if 0xC2 <= b <= 0xDF then (Decoder(b - 0xC0, 1, 0, 0x80, 0xBF, begun), [])
    else if 0xE0 <= b <= 0xEF then
      (Decoder(b - 0xE0, 2, 0, if b == 0xE0 then 0xA0 else 0x80, if b == 0xED then 0x9F else 0xBF, begun), [])
    else if 0xF0 <= b <= 0xF4 then
      (Decoder(b - 0xF0, 3, 0, if b == 0xF0 then 0x90 else 0x80, if b == 0xF4 then 0x8F else 0xBF, begun), [])
    else Emit(REPLACEMENT, begun)
  }

  /** One byte. A byte that cannot continue a character ends it with a replacement and is read again. */
  function DecodeByte(d: Decoder, b: Byte): (Decoder, seq<Unit>) {
    if d.needed == 0 then Lead(b, d.begun)
    else if !(d.lower <= b <= d.upper) then
      var (d1, o1) := Emit(REPLACEMENT, d.begun);
      var (d2, o2) := Lead(b, d1.begun);
      (d2, o1 + o2)
    else
      var point := d.point * 64 + (b - 0x80);
      if d.seen + 1 < d.needed then (Decoder(point, d.needed, d.seen + 1, 0x80, 0xBF, d.begun), [])
      else Emit(if 0 <= point < 0xD800 || 0xE000 <= point < 0x11_0000 then point else REPLACEMENT, d.begun)
  }

  function Decode(d: Decoder, bytes: seq<Byte>): (Decoder, seq<Unit>) {
    if bytes == [] then (d, [])
    else
      var (d1, o1) := Decode(d, bytes[..|bytes| - 1]);
      var (d2, o2) := DecodeByte(d1, bytes[|bytes| - 1]);
      (d2, o1 + o2)
  }

  lemma DecodeLast(d: Decoder, bytes: seq<Byte>, b: Byte)
    ensures var (d1, o1) := Decode(d, bytes);
            var (d2, o2) := DecodeByte(d1, b);
            Decode(d, bytes + [b]) == (d2, o1 + o2)
  {
    assert (bytes + [b])[..|bytes|] == bytes;
  }

  /** Decoding in two goes is decoding in one. */
  lemma {:induction false} DecodeConcat(d: Decoder, a: seq<Byte>, b: seq<Byte>)
    ensures var (d1, o1) := Decode(d, a);
            var (d2, o2) := Decode(d1, b);
            Decode(d, a + b) == (d2, o1 + o2)
    decreases |b|, 0
  {
    var (d1, o1) := Decode(d, a);
    if b == [] {
      assert a + b == a && o1 + [] == o1;
    } else {
      DecodeConcatStep(d, a, b[..|b| - 1], b[|b| - 1]);
      assert b[..|b| - 1] + [b[|b| - 1]] == b;
    }
  }

  lemma {:induction false} DecodeConcatStep(d: Decoder, a: seq<Byte>, b: seq<Byte>, last: Byte)
    ensures var (d1, o1) := Decode(d, a);
            var (d2, o2) := Decode(d1, b + [last]);
            Decode(d, a + (b + [last])) == (d2, o1 + o2)
    decreases |b|, 1
  {
    var d1 := Decode(d, a).0;
    var d2 := Decode(d1, b).0;
    DecodeConcat(d, a, b);
    DecodeLast(d, a + b, last);
    DecodeLast(d1, b, last);
    ConcatAssociative(a, b, [last]);
    ConcatAssociative(Decode(d, a).1, Decode(d1, b).1, DecodeByte(d2, last).1);
  }

  lemma DecodeOne(d: Decoder, b: Byte)
    ensures Decode(d, [b]) == DecodeByte(d, b)
  {
    assert [b][..0] == [];
    assert [] + DecodeByte(d, b).1 == DecodeByte(d, b).1;
  }

  /** A byte that emits nothing, followed by the rest. */
  lemma DecodeSilent(d: Decoder, b: Byte, d1: Decoder, rest: seq<Byte>)
    requires DecodeByte(d, b) == (d1, [])
    ensures Decode(d, [b] + rest) == Decode(d1, rest)
  {
    DecodeOne(d, b);
    DecodeConcat(d, [b], rest);
    var o := Decode(d1, rest).1;
    assert [] + o == o;
  }

  /** The decoder inside a character: `point` holds the bits read so far. */
  function Inside(point: int, needed: nat, seen: nat, begun: bool): Decoder {
    Decoder(point, needed, seen, 0x80, 0xBF, begun)
  }

  lemma DecodeTwo(c: Scalar, begun: bool)
    requires 0x80 <= c < 0x800
    ensures Decode(Rest(begun), Utf8(c)) == Emit(c, begun)
  {
    var d1 := Inside(c / 64, 1, 0, begun);
    assert [0xC0 + c / 64, 0x80 + c % 64] == [0xC0 + c / 64] + [0x80 + c % 64];
    DecodeSilent(Rest(begun), 0xC0 + c / 64, d1, [0x80 + c % 64]);
    DecodeOne(d1, 0x80 + c % 64);
  }

  /** The last two bytes of a character of three or four bytes. */
  lemma DecodeLastTwo(c: Scalar, d: Decoder, m: nat, l: nat)
    requires d.needed >= 2 && d.seen + 2 == d.needed
    requires m < 64 && l < 64 && c == (d.point * 64 + m) * 64 + l
    requires d.lower <= 0x80 + m <= d.upper
    ensures Decode(d, [0x80 + m, 0x80 + l]) == Emit(c, d.begun)
  {
    var d2 := Inside(d.point * 64 + m, d.needed, d.seen + 1, d.begun);
    assert [0x80 + m, 0x80 + l] == [0x80 + m] + [0x80 + l];
    DecodeSilent(d, 0x80 + m, d2, [0x80 + l]);
    DecodeOne(d2, 0x80 + l);
  }

  /** After the first of three bytes, the bounds on the second let through exactly what continues a scalar. */
  lemma LeadThree(c: Scalar, p: nat, m: nat, l: nat, begun: bool)
    requires p < 16 && m < 64 && l < 64 && c == (p * 64 + m) * 64 + l && 0x800 <= c
    ensures var (d, o) := DecodeByte(Rest(begun), 0xE0 + p);
            o == [] && d.needed == 2 && d.seen == 0 && d.point == p && d.begun == begun
            && d.lower <= 0x80 + m <= d.upper
  {
  }

  lemma DecodeThree(c: Scalar, p: nat, m: nat, l: nat, begun: bool)
    requires p < 16 && m < 64 && l < 64 && c == (p * 64 + m) * 64 + l && 0x800 <= c
    ensures Decode(Rest(begun), [0xE0 + p, 0x80 + m, 0x80 + l]) == Emit(c, begun)
  {
    LeadThree(c, p, m, l, begun);
    var d := DecodeByte(Rest(begun), 0xE0 + p).0;
    DecodeLastTwo(c, d, m, l);
    DecodeSilent(Rest(begun), 0xE0 + p, d, [0x80 + m, 0x80 + l]);
    assert [0xE0 + p] + [0x80 + m, 0x80 + l] == [0xE0 + p, 0x80 + m, 0x80 + l];
  }

  /** After the first of four bytes, the bounds on the second let through exactly what continues a scalar. */
  lemma LeadFour(q: nat, n: nat, p: nat, begun: bool)
    requires n < 64 && p == q * 64 + n && 0x10 <= p < 0x110
    ensures q <= 4
    ensures var (d, o) := DecodeByte(Rest(begun), 0xF0 + q);
            o == [] && DecodeByte(d, 0x80 + n) == (Inside(p, 3, 1, begun), [])
  {
  }

  lemma DecodeFour(c: Scalar, q: nat, n: nat, p: nat, m: nat, l: nat, begun: bool)
    requires q <= 4 && n < 64 && p == q * 64 + n && 0x10 <= p < 0x110
    requires m < 64 && l < 64 && c == (p * 64 + m) * 64 + l
    ensures Decode(Rest(begun), [0xF0 + q, 0x80 + n, 0x80 + m, 0x80 + l]) == Emit(c, begun)
  {
    var d1 := DecodeByte(Rest(begun), 0xF0 + q).0;
    LeadFour(q, n, p, begun);
    DecodeTwoSilent(Rest(begun), 0xF0 + q, d1, 0x80 + n, Inside(p, 3, 1, begun), 0x80 + m, 0x80 + l);
    DecodeLastTwo(c, Inside(p, 3, 1, begun), m, l);
  }

  lemma DecodeTwoSilent(d0: Decoder, b0: Byte, d1: Decoder, b1: Byte, d2: Decoder, b2: Byte, b3: Byte)
    requires DecodeByte(d0, b0) == (d1, []) && DecodeByte(d1, b1) == (d2, [])
    ensures Decode(d0, [b0, b1, b2, b3]) == Decode(d2, [b2, b3])
  {
    DecodeSilent(d1, b1, d2, [b2, b3]);
    DecodeSilent(d0, b0, d1, [b1] + [b2, b3]);
    assert [b0] + ([b1] + [b2, b3]) == [b0, b1, b2, b3];
  }

  lemma FourDigits(c: Scalar)
    requires 0x1_0000 <= c
    ensures c / 4096 == c / 262144 * 64 + c / 4096 % 64 && c / 262144 <= 4 && 0x10 <= c / 4096 < 0x110
    ensures c == (c / 4096 * 64 + c / 64 % 64) * 64 + c % 64
  {
    var c1, c2, c3 := c / 64, c / 4096, c / 262144;
    assert c1 / 64 == c2;
    assert c2 / 64 == c3;
    assert c == 64 * c1 + c % 64;
    assert c1 == 64 * c2 + c1 % 64;
    assert c2 == 64 * c3 + c2 % 64;
  }

  lemma DecodeEncodedThree(c: Scalar, begun: bool)
    requires 0x800 <= c < 0x1_0000
    ensures Decode(Rest(begun), Utf8(c)) == Emit(c, begun)
  {
    DecodeThree(c, c / 4096, c / 64 % 64, c % 64, begun);
  }

  lemma DecodeEncodedFour(c: Scalar, begun: bool)
    requires 0x1_0000 <= c
    ensures Decode(Rest(begun), Utf8(c)) == Emit(c, begun)
  {
    FourDigits(c);
    DecodeFour(c, c / 262144, c / 4096 % 64, c / 4096, c / 64 % 64, c % 64, begun);
  }

  /** An encoded character is decoded to itself, whatever its length. */
  lemma DecodeEncoded(c: Scalar, begun: bool)
    ensures Decode(Rest(begun), Utf8(c)) == Emit(c, begun)
  {
    if c < 0x80 {
      DecodeOne(Rest(begun), c);
    } else if c < 0x800 {
      DecodeTwo(c, begun);
    } else if c < 0x1_0000 {
      DecodeEncodedThree(c, begun);
    } else {
      DecodeEncodedFour(c, begun);
    }
  }

  /** Encoded text is decoded to itself, but for a byte order mark at the very start. */
  lemma {:induction false} DecodeEncodedText(s: seq<Scalar>, begun: bool)
    requires begun || s == [] || s[0] != BYTE_ORDER_MARK
    ensures Decode(Rest(begun), Utf8All(s)) == (Rest(begun || s != []), Utf16All(s))
  {
    if s != [] {
      DecodeEncodedText(s[1..], true);
      DecodeEncoded(s[0], begun);
      DecodeConcat(Rest(begun), Utf8(s[0]), Utf8All(s[1..]));
    }
  }
}
