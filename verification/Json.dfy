/**
 * JSON text: the string literals Go's `json.Marshal` prints (Go 1.22, HTML-safe) and the reader behind
 * JavaScript's `JSON.parse`, following RFC 8259. A number is kept as its text, an object as the list of
 * its members.
 */
module Json {
  import opened Decimal
  import opened Encodings
  import opened Wrappers

  datatype Json =
    | Null
    | Bool(b: bool)
    | Number(text: seq<Unit>)
    | Str(units: seq<Unit>)
    | Arr(items: seq<Json>)
    | Obj(members: seq<(seq<Unit>, Json)>)

  const QUOTE: Ascii := 0x22
  const PLUS: Ascii := 0x2B
  const COMMA: Ascii := 0x2C
  const MINUS: Ascii := 0x2D
  const DOT: Ascii := 0x2E
  const SLASH: Ascii := 0x2F
  const ZERO: Ascii := 0x30
  const COLON: Ascii := 0x3A
  const OPEN_BRACKET: Ascii := 0x5B
  const BACKSLASH: Ascii := 0x5C
  const CLOSE_BRACKET: Ascii := 0x5D
  const OPEN_BRACE: Ascii := 0x7B
  const CLOSE_BRACE: Ascii := 0x7D

  // ---- Printing strings ----

  /** One step through a Go string: a character, or a byte that is not part of any. */
  datatype Piece = Rune(c: Scalar) | Broken

  /** What a reader sees of a piece. */
  function Seen(p: Piece): seq<Unit> {
    match p
    case Rune(c) => Utf16(c)
    case Broken => Utf16(REPLACEMENT)
  }

  function Text(line: seq<Piece>): seq<Unit> {
    FlatMap(Seen, line)
  }

  function HexDigit(n: nat): Ascii
    requires n < 16
  {
    if n < 10 then 0x30 + n else 0x57 + n
  }

  function HexEscape(u: Unit): seq<Ascii> {
    Codes("\\u") + [HexDigit(u / 4096), HexDigit(u / 256 % 16), HexDigit(u / 16 % 16), HexDigit(u % 16)]
  }

  /** The letter after the backslash, for characters with a short escape. */
  function ShortEscape(c: Scalar): Option<Ascii> {
    if c == QUOTE || c == BACKSLASH then Some(c)
    else if c == 8 then Some('b' as int)
    else if c == 12 then Some('f' as int)
    else if c == 10 then Some('n' as int)
    else if c == 13 then Some('r' as int)
    else if c == 9 then Some('t' as int)
    else None
  }

  /** Control characters, the HTML-sensitive ones, and the two JavaScript line terminators. */
  predicate NeedsHex(c: Scalar) {
    c < 0x20 || c == '<' as int || c == '>' as int || c == '&' as int || c == 0x2028 || c == 0x2029
  }

  function Escape(p: Piece): seq<Scalar> {
    match p
    case Broken => HexEscape(REPLACEMENT)
    case Rune(c) =>
      match ShortEscape(c)
      case Some(letter) => [BACKSLASH, letter]
      case None => if NeedsHex(c) then HexEscape(c) else [c]
  }

  function Quote(line: seq<Piece>): seq<Scalar> {
    [QUOTE] + FlatMap(Escape, line) + [QUOTE]
  }

  // ---- Reading strings ----

  function HexValue(u: Unit): Option<nat> {
    if 0x30 <= u <= 0x39 then Some(u - 0x30)
    else if 0x41 <= u <= 0x46 then Some(u - 0x37)
    else if 0x61 <= u <= 0x66 then Some(u - 0x57)
    else None
  }

  function ReadHex(s: seq<Unit>): (r: Option<Unit>)
    requires |s| == 4
  {
    match (HexValue(s[0]), HexValue(s[1]), HexValue(s[2]), HexValue(s[3]))
    case (Some(a), Some(b), Some(c), Some(d)) =>
      if a < 16 && b < 16 && c < 16 && d < 16 then Some(a * 4096 + b * 256 + c * 16 + d) else None
    case _ => None
  }

  function ReadShort(u: Unit): Option<Unit> {
    if u == QUOTE || u == BACKSLASH || u == SLASH then Some(u)
    else if u == 'b' as int then Some(8)
    else if u == 'f' as int then Some(12)
    else if u == 'n' as int then Some(10)
    else if u == 'r' as int then Some(13)
    else if u == 't' as int then Some(9)
    else None
  }

  /** Units read, followed by what the rest of the literal gives. */
  function Then(units: seq<Unit>, r: Option<(seq<Unit>, seq<Unit>)>): Option<(seq<Unit>, seq<Unit>)> {
    match r
    case Some((more, rest)) => Some((units + more, rest))
    case None => None
  }

  /** The string literal whose opening quote has been read, and the text after its closing quote. */
  function Chars(s: seq<Unit>): (r: Option<(seq<Unit>, seq<Unit>)>)
    ensures r.Some? ==> |r.value.1| < |s|
  {
    if s == [] || s[0] < 0x20 then None
    else if s[0] == QUOTE then Some(([], s[1..]))
    else if s[0] != BACKSLASH then Then([s[0]], Chars(s[1..]))
    else if |s| == 1 then None
    else if s[1] == 'u' as int then
      if |s| < 6 then None
      else
        match ReadHex(s[2..6])
        case Some(u) => Then([u], Chars(s[6..]))
        case None => None
    else
      match ReadShort(s[1])
      case Some(u) => Then([u], Chars(s[2..]))
      case None => None
  }

  /** What is left after a string literal is the text after a quote, which closes it. */
  lemma {:induction false} LiteralEndsAtQuote(s: seq<Unit>)
    requires Chars(s).Some?
    ensures var rest := Chars(s).value.1; var n := |s| - |rest|; s[n..] == rest && s[n - 1] == QUOTE
  {
    if s[0] == QUOTE {
    } else {
      var n := if s[0] != BACKSLASH then 1 else if s[1] == 'u' as int then 6 else 2;
      LiteralEndsAtQuote(s[n..]);
    }
  }

  // ---- What is printed is read back ----

  predicate IsPlain(u: Unit) {
    u >= 0x20 && u != QUOTE && u != BACKSLASH
  }

  lemma PlainIsRead(u: Unit, rest: seq<Unit>)
    requires IsPlain(u)
    ensures Chars([u] + rest) == Then([u], Chars(rest))
  {
    assert ([u] + rest)[1..] == rest;
  }

  lemma ShortIsRead(c: Scalar, rest: seq<Unit>)
    requires ShortEscape(c).Some?
    ensures Chars([BACKSLASH, ShortEscape(c).value] + rest) == Then([c], Chars(rest))
  {
    assert ([BACKSLASH, ShortEscape(c).value] + rest)[2..] == rest;
  }

  lemma HexDigitIsRead(n: nat)
    requires n < 16
    ensures HexValue(HexDigit(n)) == Some(n)
  {
  }

  lemma HexDigitsAreRead(u: Unit)
    ensures ReadHex([HexDigit(u / 4096), HexDigit(u / 256 % 16), HexDigit(u / 16 % 16), HexDigit(u % 16)]) == Some(u)
  {
    var a, b, c, d := u / 4096, u / 256 % 16, u / 16 % 16, u % 16;
    HexDigitIsRead(a);
    HexDigitIsRead(b);
    HexDigitIsRead(c);
    HexDigitIsRead(d);
    FourHexDigits(u);
  }

  lemma FourHexDigits(u: Unit)
    ensures u == u / 4096 * 4096 + u / 256 % 16 * 256 + u / 16 % 16 * 16 + u % 16
  {
    var v, w := u / 16, u / 256;
    assert v / 16 == w && w / 16 == u / 4096;
    assert u == 16 * v + u % 16 && v == 16 * w + v % 16 && w == 16 * (w / 16) + w % 16;
  }

  lemma HexIsRead(u: Unit, rest: seq<Unit>)
    ensures Chars(HexEscape(u) + rest) == Then([u], Chars(rest))
  {
    var digits: seq<Unit> := [HexDigit(u / 4096), HexDigit(u / 256 % 16), HexDigit(u / 16 % 16), HexDigit(u % 16)];
    var s: seq<Unit> := HexEscape(u) + rest;
    assert s[0] == BACKSLASH && s[1] == 'u' as int && s[2..6] == digits && s[6..] == rest;
    HexDigitsAreRead(u);
  }

  lemma ThenThen(a: seq<Unit>, b: seq<Unit>, r: Option<(seq<Unit>, seq<Unit>)>)
    ensures Then(a, Then(b, r)) == Then(a + b, r)
  {
    if r.Some? {
      assert a + (b + r.value.0) == a + b + r.value.0;
    }
  }

  /** An escaped piece is read back as what is seen of it. */
  lemma PieceIsRead(p: Piece, rest: seq<Unit>)
    ensures Chars(Utf16All(Escape(p)) + rest) == Then(Seen(p), Chars(rest))
  {
    if p.Broken? || (ShortEscape(p.c).None? && NeedsHex(p.c)) {
      var u := if p.Broken? then REPLACEMENT else p.c;
      AsciiUnits(HexEscape(u));
      HexIsRead(u, rest);
    } else if ShortEscape(p.c).Some? {
      AsciiUnits([BACKSLASH, ShortEscape(p.c).value]);
      ShortIsRead(p.c, rest);
    } else {
      var units := Utf16(p.c);
      FlatMapOne(Utf16, p.c);
      if |units| == 1 {
        PlainIsRead(p.c, rest);
      } else {
        assert units + rest == [units[0]] + ([units[1]] + rest);
        PlainIsRead(units[0], [units[1]] + rest);
        PlainIsRead(units[1], rest);
        ThenThen([units[0]], [units[1]], Chars(rest));
        assert [units[0]] + [units[1]] == units;
      }
    }
  }

  /** A printed literal is read back as the text that was printed, whatever follows it. */
  lemma {:induction false} LineIsRead(line: seq<Piece>, rest: seq<Unit>)
    ensures Chars(Utf16All(FlatMap(Escape, line)) + ([QUOTE] + rest)) == Some((Text(line), rest))
  {
    if line == [] {
      assert ([QUOTE] + rest)[1..] == rest;
      assert [] + ([QUOTE] + rest) == [QUOTE] + rest;
    } else {
      var first, others := Utf16All(Escape(line[0])), Utf16All(FlatMap(Escape, line[1..]));
      var tail := others + ([QUOTE] + rest);
      FlatMapConcat<Scalar, Unit>(Utf16, Escape(line[0]), FlatMap(Escape, line[1..]));
      ConcatAssociative(first, others, [QUOTE] + rest);
      PieceIsRead(line[0], tail);
      LineIsRead(line[1..], rest);
    }
  }

  // ---- Reading values ----

  function SkipSpace(s: seq<Unit>): (r: seq<Unit>)
    ensures |r| <= |s|
  {
    if s != [] && (s[0] == 0x20 || s[0] == 9 || s[0] == 10 || s[0] == 13) then SkipSpace(s[1..]) else s
  }

  predicate IsDigitUnit(u: Unit) {
    0x30 <= u <= 0x39
  }

  /** How many digits the text starts with. */
  function DigitRun(s: seq<Unit>): (n: nat)
    ensures n <= |s|
  {
    if s == [] || !IsDigitUnit(s[0]) then 0 else 1 + DigitRun(s[1..])
  }

  /** The length of a fraction at the start of the text: 0 if there is none, None if it is malformed. */
  function FractionLength(s: seq<Unit>): (r: Option<nat>)
    ensures r.Some? ==> r.value <= |s|
  {
    if s == [] || s[0] != DOT then Some(0)
    else if DigitRun(s[1..]) == 0 then None
    else Some(1 + DigitRun(s[1..]))
  }

  function ExponentLength(s: seq<Unit>): (r: Option<nat>)
    ensures r.Some? ==> r.value <= |s|
  {
    if s == [] || (s[0] != 'e' as int && s[0] != 'E' as int) then Some(0)
    else
      var sign := if |s| > 1 && (s[1] == PLUS || s[1] == MINUS) then 1 else 0;
      if DigitRun(s[1 + sign..]) == 0 then None else Some(1 + sign + DigitRun(s[1 + sign..]))
  }

  /** The length of the integer part at the start of the text: an optional minus, then digits without a leading zero. */
  function WholeLength(s: seq<Unit>): (r: Option<nat>)
    ensures r.Some? ==> 0 < r.value <= |s|
  {
    if Starts(s, MINUS) then
      match DigitsLength(s[1..])
      case Some(n) => Some(1 + n)
      case None => None
    else DigitsLength(s)
  }

  function DigitsLength(s: seq<Unit>): (r: Option<nat>)
    ensures r.Some? ==> 0 < r.value <= |s|
  {
    if DigitRun(s) == 0 then None else if s[0] == ZERO then Some(1) else Some(DigitRun(s))
  }

  /** A number at the start of the text. */
  function ReadNumber(s: seq<Unit>): (r: Option<(Json, seq<Unit>)>)
    ensures r.Some? ==> |r.value.1| < |s|
  {
    match WholeLength(s)
    case None => None
    case Some(w) =>
      match FractionLength(s[w..])
      case None => None
      case Some(f) =>
        match ExponentLength(s[w + f..])
        case None => None
        case Some(e) => Some((Number(s[..w + f + e]), s[w + f + e..]))
  }

  function Literal(s: seq<Unit>, word: seq<Unit>, v: Json): (r: Option<(Json, seq<Unit>)>)
    requires word != []
    ensures r.Some? ==> |r.value.1| < |s|
  {
    if word <= s then Some((v, s[|word|..])) else None
  }

  predicate Starts(s: seq<Unit>, c: Ascii) {
    s != [] && s[0] == c
  }

  function Value(s: seq<Unit>): (r: Option<(Json, seq<Unit>)>)
    ensures r.Some? ==> |r.value.1| < |s|
    decreases |s|, 0
  {
    var t := SkipSpace(s);
    if Starts(t, QUOTE) then
      match Chars(t[1..])
      case Some((units, rest)) => Some((Str(units), rest))
      case None => None
    else if Starts(t, OPEN_BRACKET) then
      if Starts(SkipSpace(t[1..]), CLOSE_BRACKET) then Some((Arr([]), SkipSpace(t[1..])[1..]))
      else
        match Elements(t[1..])
        case Some((items, rest)) => Some((Arr(items), rest))
        case None => None
    else if Starts(t, OPEN_BRACE) then
      if Starts(SkipSpace(t[1..]), CLOSE_BRACE) then Some((Obj([]), SkipSpace(t[1..])[1..]))
      else
        match Members(t[1..])
        case Some((members, rest)) => Some((Obj(members), rest))
        case None => None
    else if Starts(t, 'n' as int) then Literal(t, Codes("null"), Null)
    else if Starts(t, 't' as int) then Literal(t, Codes("true"), Bool(true))
    else if Starts(t, 'f' as int) then Literal(t, Codes("false"), Bool(false))
    else ReadNumber(t)
  }

  /** The elements of an array, up to and with its closing bracket. */
  function Elements(s: seq<Unit>): (r: Option<(seq<Json>, seq<Unit>)>)
    ensures r.Some? ==> |r.value.1| < |s|
    decreases |s|, 1
  {
    match Value(s)
    case None => None
    case Some((v, rest)) =>
      var t := SkipSpace(rest);
      if Starts(t, CLOSE_BRACKET) then Some(([v], t[1..]))
      else if Starts(t, COMMA) then
        match Elements(t[1..])
        case Some((vs, end)) => Some(([v] + vs, end))
        case None => None
      else None
  }

  /** The members of an object, up to and with its closing brace. */
  function Members(s: seq<Unit>): (r: Option<(seq<(seq<Unit>, Json)>, seq<Unit>)>)
    ensures r.Some? ==> |r.value.1| < |s|
    decreases |s|, 1
  {
    var t := SkipSpace(s);
    if !Starts(t, QUOTE) then None
    else
      match Chars(t[1..])
      case None => None
      case Some((name, afterName)) =>
        var u := SkipSpace(afterName);
        if !Starts(u, COLON) then None
        else
          match Value(u[1..])
          case None => None
          case Some((v, rest)) =>
            var w := SkipSpace(rest);
            if Starts(w, CLOSE_BRACE) then Some(([(name, v)], w[1..]))
            else if Starts(w, COMMA) then
              match Members(w[1..])
              case Some((ms, end)) => Some(([(name, v)] + ms, end))
              case None => None
            else None
  }

  /** `JSON.parse`: one value and nothing else. */
  function Parse(s: seq<Unit>): Option<Json> {
    match Value(s)
    case Some((v, rest)) => if SkipSpace(rest) == [] then Some(v) else None
    case None => None
  }

  lemma LiteralIsValue(s: seq<Unit>, units: seq<Unit>)
    requires Starts(s, QUOTE) && Chars(s[1..]) == Some((units, []))
    ensures Parse(s) == Some(Str(units))
  {
    assert SkipSpace(s) == s;
  }

  /** A quoted line is read as the string of its text. */
  lemma QuotedIsRead(line: seq<Piece>)
    ensures Parse(Utf16All(Quote(line))) == Some(Str(Text(line)))
  {
    var body := FlatMap(Escape, line);
    var s := Utf16All(Quote(line));
    FlatMapConcat<Scalar, Unit>(Utf16, [QUOTE] + body, [QUOTE]);
    FlatMapConcat<Scalar, Unit>(Utf16, [QUOTE], body);
    AsciiUnits([QUOTE]);
    assert s == [QUOTE] + (Utf16All(body) + ([QUOTE] + []));
    assert s[1..] == Utf16All(body) + ([QUOTE] + []);
    LineIsRead(line, []);
    LiteralIsValue(s, Text(line));
  }

  // ---- Integers ----

  lemma {:induction false} DigitsAreRead(digits: string, rest: seq<Unit>)
    requires AllDigits(digits) && (rest == [] || !IsDigitUnit(rest[0]))
    ensures IsAscii(digits) && DigitRun(Codes(digits) + rest) == |digits|
  {
    if digits != [] {
      DigitsAreRead(digits[1..], rest);
      var s: seq<Unit> := Codes(digits) + rest;
      assert Codes(digits)[1..] == Codes(digits[1..]);
      assert s[1..] == Codes(digits[1..]) + rest;
    } else {
      assert Codes(digits) + rest == rest;
    }
  }

  lemma ItoaIsAscii(n: int)
    ensures IsAscii(Itoa(n))
  {
    assert IsAscii("-");
  }

  lemma WholeIsRead(text: seq<Unit>, rest: seq<Unit>)
    requires WholeLength(text + rest) == Some(|text|)
    requires FractionLength(rest) == Some(0) && ExponentLength(rest) == Some(0)
    ensures ReadNumber(text + rest) == Some((Number(text), rest))
  {
    assert (text + rest)[|text|..] == rest && (text + rest)[..|text|] == text;
  }

  lemma NatIsRead(n: nat, rest: seq<Unit>)
    requires rest == [] || !IsDigitUnit(rest[0])
    ensures IsAscii(PrintNat(n)) && DigitsLength(Codes(PrintNat(n)) + rest) == Some(|PrintNat(n)|)
  {
    NoLeadingZero(n);
    DigitsAreRead(PrintNat(n), rest);
  }

  // ---- The value of an integer ----

  function DigitsValue(text: seq<Unit>): int {
    if text == [] then 0 else 10 * DigitsValue(text[..|text| - 1]) + (text[|text| - 1] - ZERO)
  }

  /** The value of the text of an integer. */
  function IntegerValue(text: seq<Unit>): int {
    if text != [] && text[0] == MINUS then -DigitsValue(text[1..]) else DigitsValue(text)
  }

  lemma {:induction false} DigitsValueIsRead(digits: string)
    requires AllDigits(digits) && IsAscii(digits)
    ensures DigitsValue(Codes(digits)) == ReadNat(digits)
  {
    if digits != [] {
      var init := digits[..|digits| - 1];
      DigitsValueIsRead(init);
      assert Codes(digits)[..|digits| - 1] == Codes(init);
    }
  }

  /** A printed integer's value is the integer, negative or not. */
  lemma PrintedIntegerValue(n: int)
    ensures IsAscii(Itoa(n)) && IntegerValue(Codes(Itoa(n))) == n
  {
    ItoaIsAscii(n);
    if n < 0 {
      PrintedNatValue(-n);
      SignedValue(PrintNat(-n));
    } else {
      PrintedNatValue(n);
    }
  }

  lemma SignedValue(digits: string)
    requires IsAscii(digits)
    ensures IsAscii("-" + digits) && IntegerValue(Codes("-" + digits)) == -DigitsValue(Codes(digits))
  {
    assert Codes("-" + digits)[1..] == Codes(digits);
  }

  lemma PrintedNatValue(n: nat)
    ensures IsAscii(PrintNat(n))
    ensures DigitsValue(Codes(PrintNat(n))) == n && Codes(PrintNat(n))[0] != MINUS
  {
    ReadPrinted(n);
    DigitsValueIsRead(PrintNat(n));
    assert IsDigit(PrintNat(n)[0]);
  }

  /** A printed integer is read whole, up to text that cannot continue a number. */
  lemma IntegerIsRead(n: int, rest: seq<Unit>)
    requires rest != [] && !IsDigitUnit(rest[0])
    requires rest[0] != DOT && rest[0] != 'e' as int && rest[0] != 'E' as int
    ensures IsAscii(Itoa(n)) && ReadNumber(Codes(Itoa(n)) + rest) == Some((Number(Codes(Itoa(n))), rest))
  {
    ItoaIsAscii(n);
    var text: seq<Unit> := Codes(Itoa(n));
    if n < 0 {
      NatIsRead(-n, rest);
      assert Codes(PrintNat(-n)) == text[1..];
      assert (text + rest)[1..] == text[1..] + rest;
    } else {
      NatIsRead(n, rest);
    }
    WholeIsRead(text, rest);
  }

  /** Plain characters are read as they are. */
  lemma {:induction false} PlainTextIsRead(text: seq<Unit>, rest: seq<Unit>)
    requires forall u :: u in text ==> IsPlain(u)
    ensures Chars(text + rest) == Then(text, Chars(rest))
  {
    if text == [] {
      assert text + rest == rest;
      assert Chars(rest).Some? ==> [] + Chars(rest).value.0 == Chars(rest).value.0;
    } else {
      assert text + rest == [text[0]] + (text[1..] + rest);
      PlainIsRead(text[0], text[1..] + rest);
      PlainTextIsRead(text[1..], rest);
      ThenThen([text[0]], text[1..], Chars(rest));
      assert [text[0]] + text[1..] == text;
    }
  }

  /** A text that starts with a digit or a minus sign can only be a number. */
  lemma NumberIsValue(s: seq<Unit>)
    requires s != [] && (s[0] == MINUS || IsDigitUnit(s[0]))
    ensures Value(s) == ReadNumber(s)
  {
    assert SkipSpace(s) == s;
    assert !Starts(s, QUOTE) && !Starts(s, OPEN_BRACKET) && !Starts(s, OPEN_BRACE);
    assert !Starts(s, 'n' as int) && !Starts(s, 't' as int) && !Starts(s, 'f' as int);
  }

  lemma IntegerValueIsRead(n: int, rest: seq<Unit>)
    requires Starts(rest, CLOSE_BRACE)
    ensures IsAscii(Itoa(n)) && Value(Codes(Itoa(n)) + rest) == Some((Number(Codes(Itoa(n))), rest))
  {
    IntegerIsRead(n, rest);
    NumberIsValue(Codes(Itoa(n)) + rest);
  }

  lemma NameIsRead(name: seq<Unit>, rest: seq<Unit>)
    requires forall u :: u in name ==> IsPlain(u)
    ensures Chars(name + ([QUOTE] + rest)) == Some((name, rest))
  {
    PlainTextIsRead(name, [QUOTE] + rest);
    assert ([QUOTE] + rest)[1..] == rest;
    assert name + [] == name;
  }

  /** `"name":n}` is read as the members of a one-field object. */
  lemma FieldIsRead(name: seq<Unit>, n: int)
    requires forall u :: u in name ==> IsPlain(u)
    ensures IsAscii(Itoa(n))
    ensures Members([QUOTE] + (name + ([QUOTE] + ([COLON] + (Codes(Itoa(n)) + [CLOSE_BRACE])))))
         == Some(([(name, Number(Codes(Itoa(n))))], []))
  {
    ItoaIsAscii(n);
    var number: seq<Unit> := Codes(Itoa(n)) + [CLOSE_BRACE];
    var afterName: seq<Unit> := [COLON] + number;
    var s := [QUOTE] + (name + ([QUOTE] + afterName));
    assert s[1..] == name + ([QUOTE] + afterName);
    NameIsRead(name, afterName);
    assert afterName[1..] == number;
    IntegerValueIsRead(n, [CLOSE_BRACE]);
  }

  lemma ObjectIsRead(text: seq<Unit>, members: seq<(seq<Unit>, Json)>)
    requires Starts(text, QUOTE) && Members(text) == Some((members, []))
    ensures Parse([OPEN_BRACE] + text) == Some(Obj(members))
  {
    var s := [OPEN_BRACE] + text;
    assert s[1..] == text;
    assert SkipSpace(text) == text && SkipSpace(s) == s;
  }
}
