/**
 * The progress stream of an update: the server (dashboard/backend/api/update.go) prints events, the client
 * (dashboard/frontend/src/lib/api.ts) reads them back from chunks of bytes cut at arbitrary places.
 * The stream is a subset of section 9.2.5 of the WHATWG HTML Living Standard.
 */
module EventStream {
  import opened Decimal
  import opened Encodings
  import opened Json
  import opened Splitting
  import opened Wrappers

  const NEWLINE: Ascii := 10

  // ---- The server ----

  /** How the update ran: it could not be started, or it printed lines and exited. */
  datatype Outcome = Failed(message: seq<Piece>) | Finished(lines: seq<seq<Piece>>, exitCode: int)

  function Message(line: seq<Piece>): seq<Scalar> {
    Codes("data: ") + Quote(line) + [NEWLINE, NEWLINE]
  }

  /** `{"exit_code":n}`. */
  function ExitText(exitCode: int): seq<Ascii> {
    ItoaIsAscii(exitCode);
    var number := Codes(Itoa(exitCode)) + [CLOSE_BRACE];
    [OPEN_BRACE] + ([QUOTE] + (Codes("exit_code") + ([QUOTE] + ([COLON] + number))))
  }

  function Done(exitCode: int): seq<Ascii> {
    Codes("event: done") + [NEWLINE] + (Codes("data: ") + ExitText(exitCode)) + [NEWLINE, NEWLINE]
  }

  /** The whole text of the stream. */
  function Sent(o: Outcome): seq<Scalar> {
    match o
    case Failed(message) => Codes("event: error") + [NEWLINE] + Message(message)
    case Finished(lines, exitCode) => FlatMap(Message, lines) + Done(exitCode)
  }

  /** The streaming part of the handler; `exit` is what the exit-code channel delivers, if anything. */
  method UpdatePrepare(start: Result<seq<seq<Piece>>, seq<Piece>>, exit: Option<int>) returns (wire: seq<Byte>)
    ensures wire == Utf8All(Sent(
      match start
      case Err(message) => Failed(message)
      case Ok(lines) => Finished(lines, if exit.Some? then exit.value else 1)))
  {
    wire := [];
    if start.Err? {
      wire := wire + Utf8All(Codes("event: error") + [NEWLINE] + Message(start.error));
      return;
    }
    var lines := start.value;
    var exitCode := 1;
    var i := 0;
    while i < |lines|
      invariant 0 <= i <= |lines|
      invariant wire == Utf8All(FlatMap(Message, lines[..i]))
    {
      var sofar := FlatMap(Message, lines[..i]);
      FlatMapConcat(Message, lines[..i], [lines[i]]);
      FlatMapOne(Message, lines[i]);
      assert lines[..i + 1] == lines[..i] + [lines[i]];
      FlatMapConcat(Utf8, sofar, Message(lines[i]));
      wire := wire + Utf8All(Message(lines[i]));
      i := i + 1;
    }
    assert lines[..i] == lines;
    if exit.Some? {
      exitCode := exit.value;
    }
    FlatMapConcat<Scalar, Byte>(Utf8, FlatMap(Message, lines), Done(exitCode));
    wire := wire + Utf8All(Done(exitCode));
  }

  // ---- The client ----

  /** What the client yields for one `data: ` line: the JSON value, or the raw text if it is not JSON. */
  datatype Item = Parsed(value: Json) | Raw(text: seq<Unit>)

  function Read(payload: seq<Unit>): Item {
    match Parse(payload)
    case Some(v) => Parsed(v)
    case None => Raw(payload)
  }

  function LineItems(line: seq<Unit>): seq<Item> {
    if Codes("data: ") <= line then [Read(line[6..])] else []
  }

  function MessageItems(message: seq<Unit>): seq<Item> {
    FlatMap(LineItems, Split<Unit>(message, [NEWLINE]))
  }

  function Messages(text: seq<Unit>): (r: seq<seq<Unit>>)
    ensures |r| >= 1
  {
    Split<Unit>(text, [NEWLINE, NEWLINE])
  }

  /** The part that is not finished. */
  function Unfinished(messages: seq<seq<Unit>>): seq<Unit>
    requires messages != []
  {
    messages[|messages| - 1]
  }

  /** The items of the finished messages. */
  function FinishedItems(messages: seq<seq<Unit>>): seq<Item>
    requires messages != []
  {
    FlatMap(MessageItems, messages[..|messages| - 1])
  }

  function Items(text: seq<Unit>): seq<Item> {
    FinishedItems(Messages(text))
  }

  function Bytes(chunks: seq<seq<Byte>>): seq<Byte> {
    if chunks == [] then [] else Bytes(chunks[..|chunks| - 1]) + chunks[|chunks| - 1]
  }

  /** What the client keeps between two chunks, when it has received these bytes. */
  ghost predicate Caught(bytes: seq<Byte>, decoder: Decoder, buffer: seq<Unit>, items: seq<Item>) {
    var (d, text) := Decode(FRESH, bytes);
    var messages := Messages(text);
    decoder == d && buffer == Unfinished(messages) && items == FinishedItems(messages)
  }

  lemma CaughtNothing()
    ensures Caught([], FRESH, [], [])
  {
    assert Messages([]) == [[]];
  }

  lemma DropLastOfConcat(a: seq<seq<Unit>>, b: seq<seq<Unit>>)
    requires b != []
    ensures (a + b)[|a + b| - 1] == b[|b| - 1] && (a + b)[..|a + b| - 1] == a + b[..|b| - 1]
  {
  }

  lemma FinishMessages(first: seq<seq<Unit>>, parts: seq<seq<Unit>>, all: seq<seq<Unit>>)
    requires first != [] && parts != [] && all == first[..|first| - 1] + parts
    ensures Unfinished(all) == Unfinished(parts)
    ensures FinishedItems(all) == FinishedItems(first) + FinishedItems(parts)
  {
    var begun := first[..|first| - 1];
    DropLastOfConcat(begun, parts);
    FlatMapConcat(MessageItems, begun, parts[..|parts| - 1]);
  }

  /** More text finishes more messages and leaves the earlier items alone. */
  lemma MoreText(text: seq<Unit>, more: seq<Unit>)
    ensures var parts := Messages(Unfinished(Messages(text)) + more);
            && Unfinished(Messages(text + more)) == Unfinished(parts)
            && Items(text + more) == Items(text) + FinishedItems(parts)
  {
    SplitConcat<Unit>(text, more, [NEWLINE, NEWLINE]);
    FinishMessages(Messages(text), Messages(Unfinished(Messages(text)) + more), Messages(text + more));
  }

  lemma CaughtMore(
      bytes: seq<Byte>, decoder: Decoder, buffer: seq<Unit>, items: seq<Item>, chunk: seq<Byte>)
    requires Caught(bytes, decoder, buffer, items)
    ensures var (d, more) := Decode(decoder, chunk);
            var parts := Messages(buffer + more);
            Caught(bytes + chunk, d, Unfinished(parts), items + FinishedItems(parts))
  {
    DecodeConcat(FRESH, bytes, chunk);
    MoreText(Decode(FRESH, bytes).1, Decode(decoder, chunk).1);
  }

  method YieldMessage(message: seq<Unit>) returns (items: seq<Item>)
    ensures items == MessageItems(message)
  {
    items := [];
    var lines := Split<Unit>(message, [NEWLINE]);
    var i := 0;
    while i < |lines|
      invariant 0 <= i <= |lines|
      invariant items == FlatMap(LineItems, lines[..i])
    {
      FlatMapConcat<seq<Unit>, Item>(LineItems, lines[..i], [lines[i]]);
      FlatMapOne(LineItems, lines[i]);
      assert lines[..i + 1] == lines[..i] + [lines[i]];
      if Codes("data: ") <= lines[i] {
        match Parse(lines[i][6..]) {
          case Some(v) => items := items + [Parsed(v)];
          case None => items := items + [Raw(lines[i][6..])];
        }
      }
      i := i + 1;
    }
    assert lines[..i] == lines;
  }

  method YieldMessages(messages: seq<seq<Unit>>) returns (items: seq<Item>)
    ensures items == FlatMap(MessageItems, messages)
  {
    items := [];
    var i := 0;
    while i < |messages|
      invariant 0 <= i <= |messages|
      invariant items == FlatMap(MessageItems, messages[..i])
    {
      FlatMapConcat(MessageItems, messages[..i], [messages[i]]);
      FlatMapOne(MessageItems, messages[i]);
      assert messages[..i + 1] == messages[..i] + [messages[i]];
      var more := YieldMessage(messages[i]);
      items := items + more;
      i := i + 1;
    }
    assert messages[..i] == messages;
  }

  /** A connection that breaks after any byte has yielded a prefix of what the whole stream yields. */
  lemma BrokenStreamYieldsPrefix(received: seq<Byte>, lost: seq<Byte>)
    ensures Items(Decode(FRESH, received).1) <= Items(Decode(FRESH, received + lost).1)
  {
    DecodeConcat(FRESH, received, lost);
    var (d, text) := Decode(FRESH, received);
    MoreText(text, Decode(d, lost).1);
  }

  // ---- What the server sends is what the client yields ----

  function LineItem(line: seq<Piece>): seq<Item> {
    [Parsed(Str(Text(line)))]
  }

  /** The exit code arrives as an object with one field, not as a string. */
  function ExitItem(exitCode: int): Item {
    ItoaIsAscii(exitCode);
    Parsed(Obj([(Codes("exit_code"), Number(Codes(Itoa(exitCode))))]))
  }

  /** The item is an object whose one field, the exit code, has this value. */
  ghost predicate TellsExitCode(item: Item, exitCode: int) {
    exists text :: item == Parsed(Obj([(Codes("exit_code"), Number(text))])) && IntegerValue(text) == exitCode
  }

  lemma ExitItemTells(exitCode: int)
    ensures TellsExitCode(ExitItem(exitCode), exitCode)
  {
    PrintedIntegerValue(exitCode);
  }

  /** What the user of the client should see. */
  function Shown(o: Outcome): seq<Item> {
    match o
    case Failed(message) => LineItem(message)
    case Finished(lines, exitCode) => FlatMap(LineItem, lines) + [ExitItem(exitCode)]
  }

  ghost predicate OneLine(text: seq<Unit>) {
    forall u :: u in text ==> u != NEWLINE
  }

  lemma PieceIsOneLine(p: Piece)
    ensures OneLine(Utf16All(Escape(p)))
  {
    match p
    case Broken => AsciiUnits(HexEscape(REPLACEMENT));
    case Rune(c) =>
      if ShortEscape(c).Some? {
        AsciiUnits([0x5C, ShortEscape(c).value]);
      } else if NeedsHex(c) {
        AsciiUnits(HexEscape(c));
      } else {
        FlatMapOne(Utf16, c);
      }
  }

  lemma {:induction false} BodyIsOneLine(line: seq<Piece>)
    ensures OneLine(Utf16All(FlatMap(Escape, line)))
  {
    if line != [] {
      PieceIsOneLine(line[0]);
      BodyIsOneLine(line[1..]);
      FlatMapConcat(Utf16, Escape(line[0]), FlatMap(Escape, line[1..]));
    }
  }

  /** A quoted line has no newline in it, so it cannot break the framing. */
  lemma QuoteIsOneLine(line: seq<Piece>)
    ensures OneLine(Utf16All(Quote(line)))
  {
    BodyIsOneLine(line);
    FlatMapConcat<Scalar, Unit>(Utf16, [QUOTE] + FlatMap(Escape, line), [QUOTE]);
    FlatMapConcat<Scalar, Unit>(Utf16, [QUOTE], FlatMap(Escape, line));
    AsciiUnits([QUOTE]);
  }

  /** No line break is followed by another one, or by the end. */
  ghost predicate NoBlankLine(part: seq<Unit>) {
    forall j: nat :: j < |part| && part[j] == NEWLINE ==> j + 1 < |part| && part[j + 1] != NEWLINE
  }

  lemma MessageIsSplitOff(part: seq<Unit>, rest: seq<Unit>)
    requires NoBlankLine(part)
    ensures Messages(part + [NEWLINE, NEWLINE] + rest) == [part] + Messages(rest)
  {
    var sep: seq<Unit> := [NEWLINE, NEWLINE];
    forall j: nat | j < |part|
      ensures !At<Unit>(part + sep, sep, j)
    {
      var here := part + sep;
      assert part[j] == here[j] && (j + 1 < |part| ==> part[j + 1] == here[j + 1]);
      assert j + 2 <= |here| ==> here[j..j + 2] == [here[j], here[j + 1]];
    }
    SplitPart<Unit>(part, sep, rest);
  }

  /** A message at the front of the text is yielded before the items of the rest. */
  lemma MessageIsYielded(part: seq<Unit>, rest: seq<Unit>)
    requires NoBlankLine(part)
    ensures Items(part + [NEWLINE, NEWLINE] + rest) == MessageItems(part) + Items(rest)
  {
    MessageIsSplitOff(part, rest);
    var messages := Messages(rest);
    assert ([part] + messages)[..|messages|] == [part] + messages[..|messages| - 1];
    FlatMapConcat(MessageItems, [part], messages[..|messages| - 1]);
    FlatMapOne(MessageItems, part);
  }

  lemma DataIsRead(payload: seq<Unit>)
    requires OneLine(payload)
    ensures var data := Codes("data: ") + payload;
            OneLine(data) && data[0] != NEWLINE && LineItems(data) == [Read(payload)]
  {
    var data: seq<Unit> := Codes("data: ") + payload;
    assert data[6..] == payload;
  }

  /** A message of one data line. */
  lemma DataIsYielded(payload: seq<Unit>, rest: seq<Unit>)
    requires OneLine(payload)
    ensures Items(Codes("data: ") + payload + [NEWLINE, NEWLINE] + rest) == [Read(payload)] + Items(rest)
  {
    var data: seq<Unit> := Codes("data: ") + payload;
    DataIsRead(payload);
    SplitNothing<Unit>(data, NEWLINE);
    FlatMapOne<seq<Unit>, Item>(LineItems, data);
    MessageIsYielded(data, rest);
  }

  /** Any data line is yielded: as the value it denotes, or as it is when it is not JSON. */
  lemma AnyDataIsYielded(payload: seq<Unit>, rest: seq<Unit>)
    requires OneLine(payload)
    ensures Items(Codes("data: ") + payload + [NEWLINE, NEWLINE] + rest)
         == [if Parse(payload).Some? then Parsed(Parse(payload).value) else Raw(payload)] + Items(rest)
  {
    DataIsYielded(payload, rest);
  }

  /** A message of one line that is not a data line is skipped. */
  lemma OtherLineIsSkipped(line: seq<Unit>, rest: seq<Unit>)
    requires OneLine(line) && !(Codes("data: ") <= line)
    ensures Items(line + [NEWLINE, NEWLINE] + rest) == Items(rest)
  {
    SplitNothing<Unit>(line, NEWLINE);
    FlatMapOne<seq<Unit>, Item>(LineItems, line);
    MessageIsYielded(line, rest);
    assert [] + Items(rest) == Items(rest);
  }

  lemma TwoLinesAreNotBlank(event: seq<Unit>, data: seq<Unit>)
    requires OneLine(event) && OneLine(data) && data != []
    ensures NoBlankLine(event + [NEWLINE] + data)
  {
    var part := event + [NEWLINE] + data;
    assert part[|event| + 1] == data[0] && data[0] in data;
    forall j: nat | j < |part| && j != |event|
      ensures part[j] != NEWLINE
    {
      if j < |event| {
        assert part[j] == event[j] && event[j] in event;
      } else {
        assert part[j] == data[j - |event| - 1] && data[j - |event| - 1] in data;
      }
    }
  }

  lemma EventLineIsSkipped(event: seq<Unit>, data: seq<Unit>)
    requires OneLine(event) && OneLine(data) && LineItems(event) == []
    ensures MessageItems(event + [NEWLINE] + data) == LineItems(data)
  {
    SplitAtOne<Unit>(event, NEWLINE, data);
    SplitNothing<Unit>(data, NEWLINE);
    FlatMapConcat<seq<Unit>, Item>(LineItems, [event], [data]);
    FlatMapOne<seq<Unit>, Item>(LineItems, event);
    FlatMapOne<seq<Unit>, Item>(LineItems, data);
    assert [] + LineItems(data) == LineItems(data);
  }

  /** The last message of the stream: an event line, which the client skips, and a data line. */
  lemma EventIsYielded(event: seq<Unit>, payload: seq<Unit>)
    requires OneLine(event) && OneLine(payload) && LineItems(event) == []
    ensures Items(event + [NEWLINE] + (Codes("data: ") + payload) + [NEWLINE, NEWLINE]) == [Read(payload)]
  {
    var data: seq<Unit> := Codes("data: ") + payload;
    var part := event + [NEWLINE] + data;
    DataIsRead(payload);
    TwoLinesAreNotBlank(event, data);
    EventLineIsSkipped(event, data);
    MessageIsYielded(part, []);
    assert part + [NEWLINE, NEWLINE] + [] == part + [NEWLINE, NEWLINE];
    assert Items([]) == [];
  }

  lemma MessageUnits(line: seq<Piece>)
    ensures Utf16All(Message(line)) == Codes("data: ") + Utf16All(Quote(line)) + [NEWLINE, NEWLINE]
  {
    FlatMapConcat<Scalar, Unit>(Utf16, Codes("data: ") + Quote(line), [NEWLINE, NEWLINE]);
    FlatMapConcat<Scalar, Unit>(Utf16, Codes("data: "), Quote(line));
    AsciiUnits(Codes("data: "));
    AsciiUnits([NEWLINE, NEWLINE]);
  }

  lemma LineIsYielded(line: seq<Piece>, rest: seq<Unit>)
    ensures Items(Utf16All(Message(line)) + rest) == LineItem(line) + Items(rest)
  {
    MessageUnits(line);
    QuoteIsOneLine(line);
    QuotedIsRead(line);
    DataIsYielded(Utf16All(Quote(line)), rest);
  }

  lemma {:induction false} LinesAreYielded(lines: seq<seq<Piece>>, rest: seq<Unit>)
    ensures Items(Utf16All(FlatMap(Message, lines)) + rest) == FlatMap(LineItem, lines) + Items(rest)
  {
    if lines == [] {
      assert Utf16All(FlatMap(Message, lines)) + rest == rest;
      assert FlatMap(LineItem, lines) + Items(rest) == Items(rest);
    } else {
      var others := Utf16All(FlatMap(Message, lines[1..]));
      LinesAreYielded(lines[1..], rest);
      LineIsYielded(lines[0], others + rest);
      FlatMapConcat<Scalar, Unit>(Utf16, Message(lines[0]), FlatMap(Message, lines[1..]));
      ConcatAssociative(Utf16All(Message(lines[0])), others, rest);
      ConcatAssociative(LineItem(lines[0]), FlatMap(LineItem, lines[1..]), Items(rest));
    }
  }

  lemma OneLineConcat(a: seq<Unit>, b: seq<Unit>)
    requires OneLine(a) && OneLine(b)
    ensures OneLine(a + b)
  {
  }

  lemma ExitIsOneLine(exitCode: int)
    ensures OneLine(ExitText(exitCode))
  {
    ItoaIsAscii(exitCode);
    var number := Codes(Itoa(exitCode)) + [CLOSE_BRACE];
    var key := Codes("exit_code");
    OneLineConcat(Codes(Itoa(exitCode)), [CLOSE_BRACE]);
    OneLineConcat([COLON], number);
    OneLineConcat([QUOTE], [COLON] + number);
    OneLineConcat(key, [QUOTE] + ([COLON] + number));
    OneLineConcat([QUOTE], key + ([QUOTE] + ([COLON] + number)));
    OneLineConcat([OPEN_BRACE], [QUOTE] + (key + ([QUOTE] + ([COLON] + number))));
  }

  lemma ExitIsRead(exitCode: int)
    ensures Parse(ExitText(exitCode)) == Some(ExitItem(exitCode).value)
  {
    ItoaIsAscii(exitCode);
    var name: seq<Unit> := Codes("exit_code");
    var number: seq<Unit> := Codes(Itoa(exitCode)) + [CLOSE_BRACE];
    var members := [QUOTE] + (name + ([QUOTE] + ([COLON] + number)));
    FieldIsRead(name, exitCode);
    ObjectIsRead(members, [(name, Number(Codes(Itoa(exitCode))))]);
  }

  lemma DoneIsYielded(exitCode: int)
    ensures Items(Utf16All(Done(exitCode))) == [ExitItem(exitCode)]
  {
    AsciiUnits(Done(exitCode));
    ExitIsOneLine(exitCode);
    ExitIsRead(exitCode);
    EventIsYielded(Codes("event: done"), ExitText(exitCode));
  }

  lemma FailureUnits(message: seq<Piece>)
    ensures Utf16All(Sent(Failed(message)))
         == Codes("event: error") + [NEWLINE] + (Codes("data: ") + Utf16All(Quote(message))) + [NEWLINE, NEWLINE]
  {
    var event := Codes("event: error") + [NEWLINE];
    FlatMapConcat<Scalar, Unit>(Utf16, event, Message(message));
    AsciiUnits(event);
    MessageUnits(message);
    var data: seq<Unit> := Codes("data: ") + Utf16All(Quote(message));
    assert event + (data + [NEWLINE, NEWLINE]) == event + data + [NEWLINE, NEWLINE];
  }

  lemma FailureIsYielded(message: seq<Piece>)
    ensures Items(Utf16All(Sent(Failed(message)))) == LineItem(message)
  {
    FailureUnits(message);
    QuoteIsOneLine(message);
    QuotedIsRead(message);
    EventIsYielded(Codes("event: error"), Utf16All(Quote(message)));
  }

  /** The client yields exactly the emitted lines in order, then the exit code; or the failure message. */
  lemma ClientYieldsWhatServerSent(o: Outcome)
    ensures Items(Decode(FRESH, Utf8All(Sent(o))).1) == Shown(o)
    ensures o.Finished? ==> |Shown(o)| > 0 && TellsExitCode(Shown(o)[|Shown(o)| - 1], o.exitCode)
  {
    match o
    case Failed(message) =>
      DecodeEncodedText(Sent(o), false);
      FailureIsYielded(message);
    case Finished(lines, exitCode) =>
      assert lines != [] ==> Sent(o)[0] == Message(lines[0])[0];
      DecodeEncodedText(Sent(o), false);
      FlatMapConcat<Scalar, Unit>(Utf16, FlatMap(Message, lines), Done(exitCode));
      LinesAreYielded(lines, Utf16All(Done(exitCode)));
      DoneIsYielded(exitCode);
      ExitItemTells(exitCode);
  }

  /**
   * The read loop: the items depend only on the bytes received, not on how they were cut into
   * chunks; when they are what a server sent, the items are what it wanted to show.
   */
  method ReadStream(chunks: seq<seq<Byte>>) returns (items: seq<Item>)
    ensures items == Items(Decode(FRESH, Bytes(chunks)).1)
    ensures forall o: Outcome :: Bytes(chunks) == Utf8All(Sent(o)) ==> items == Shown(o)
  {
    items := [];
    var decoder := FRESH;
    var buffer: seq<Unit> := [];
    CaughtNothing();
    var i := 0;
    while i < |chunks|
      invariant 0 <= i <= |chunks|
      invariant Caught(Bytes(chunks[..i]), decoder, buffer, items)
    {
      CaughtMore(Bytes(chunks[..i]), decoder, buffer, items, chunks[i]);
      assert chunks[..i + 1][..i] == chunks[..i];
      var (d, more) := Decode(decoder, chunks[i]);
      decoder := d;
      buffer := buffer + more;
      var messages := Messages(buffer);
      buffer := messages[|messages| - 1];
      var yielded := YieldMessages(messages[..|messages| - 1]);
      items := items + yielded;
      i := i + 1;
    }
    assert chunks[..i] == chunks;
    forall o: Outcome | Bytes(chunks) == Utf8All(Sent(o))
      ensures items == Shown(o)
    {
      ClientYieldsWhatServerSent(o);
    }
  }
}
