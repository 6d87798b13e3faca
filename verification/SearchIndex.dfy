/**
 * The in-memory search index (commandcenter/searchd/index/index.go): an inverted index with lazy
 * deletion, a telemetry ring, and ranking by an in-place insertion sort.
 *
 * `Store` is the plain view: the records that exist. `Matches` and `Score` describe a plain scan of
 * it, without postings or ring. `Index.Search` is proved to return what that scan would.
 */
module SearchIndex {
  import opened Reals
  import opened Wrappers
  import opened SearchText
  import opened Splitting

  const MAX_TELEMETRY: nat := 10_000
  const DEFAULT_LIMIT := 20
  const NANOS_PER_DAY := 86_400_000_000_000.0

  /** A record identifier; the tag is the type bit of the 64-bit form. */
  datatype Id = FileId(n: nat) | TelemetryId(n: nat) | CommandId(n: nat)

  datatype FileRecord = FileRecord(
    id: nat, path: string, name: string, size: int, modTime: int, isDir: bool, snip: string)
  datatype TelemetryRecord = TelemetryRecord(
    id: nat, source: string, timestamp: int, level: string, message: string, fields: map<string, string>)
  datatype CommandRecord = CommandRecord(name: string, description: string, keywords: seq<string>, action: string)

  datatype Kind = File | Command | Event
  datatype SearchResult = SearchResult(kind: Kind, score: real, title: string, subtitle: string, action: string,
                                       preview: string, timestamp: Option<int>, riskLevel: string)

  type Postings = map<string, seq<Id>>

  // ---- The 64-bit identifiers ----

  const TELEMETRY_BIT: bv64 := 0x8000_0000_0000_0000
  const COMMAND_BIT: bv64 := 0x4000_0000_0000_0000
  const NUMBER_BITS: bv64 := 0x3FFF_FFFF_FFFF_FFFF

  /** The packed identifier: bit 63 marks telemetry, bit 62 marks a command. */
  function Pack(id: Id, n: bv64): bv64 {
    match id
    case FileId(_) => n
    case TelemetryId(_) => n | TELEMETRY_BIT
    case CommandId(_) => n | COMMAND_BIT
  }

  /** The bit tests made by `Search`, in its order, recover the tag of every number below 2^62. */
  lemma PackedTagIsRecovered(id: Id, n: bv64)
    requires n <= NUMBER_BITS
    ensures Pack(id, n) & COMMAND_BIT != 0 <==> id.CommandId?
    ensures Pack(id, n) & COMMAND_BIT == 0 ==> (Pack(id, n) & TELEMETRY_BIT != 0 <==> id.TelemetryId?)
  {
    TypeBitsAreClear(n);
  }

  /** Clearing the command bit, as `scoreCommand` does, gives a command's number back. */
  lemma CommandNumberIsRecovered(id: Id, n: bv64)
    requires n <= NUMBER_BITS && id.CommandId?
    ensures Pack(id, n) & !COMMAND_BIT == n
  {
    TypeBitsAreClear(n);
    ClearCommandBit(n);
  }

  lemma ClearCommandBit(n: bv64)
    requires n & COMMAND_BIT == 0
    ensures (n | COMMAND_BIT) & !COMMAND_BIT == n
  {
  }

  lemma TypeBitsAreClear(n: bv64)
    requires n <= NUMBER_BITS
    ensures n & COMMAND_BIT == 0 && n & TELEMETRY_BIT == 0
  {
  }

  // ---- Scoring ----

  /** 1/(1 + days/30), never below 0.1; times are in nanoseconds. */
  function RecencyWeight(t: int, now: int): (w: real)
    ensures 0.1 <= w <= 1.0
    ensures now <= t ==> w == 1.0
  {
    var days := if now < t then 0.0 else (now - t) as real / NANOS_PER_DAY;
    var w := 1.0 / (1.0 + days / 30.0);
    if w < 0.1 then 0.1 else w
  }

  function NameScore(u: Unicode, name: string, q: string): real {
    var lowered := Lower(u, name);
    if lowered == q then 100.0
    else if q <= lowered then 50.0
    else if Contains(lowered, q) then 20.0
    else 0.0
  }

  /** A file's score before its age counts. */
  function FileScore(u: Unicode, rec: FileRecord, q: string, base: real): real {
    base + NameScore(u, rec.name, q) + if Contains(Lower(u, rec.path), q) then 10.0 else 0.0
  }

  function FileResult(u: Unicode, rec: FileRecord, q: string, base: real, now: int): SearchResult {
    SearchResult(File, Product(FileScore(u, rec, q, base), RecencyWeight(rec.modTime, now)), rec.name, rec.path,
                 (if rec.isDir then "browse:" else "open:") + rec.path, rec.snip, None, "")
  }

  function CommandResult(u: Unicode, rec: CommandRecord, q: string, base: real): SearchResult {
    var score := base + NameScore(u, rec.name, q) + (if Contains(Lower(u, rec.description), q) then 10.0 else 0.0);
    SearchResult(Command, score, rec.name, rec.description, rec.action, "", None, "")
  }

  /** An event's score before its age and level count. */
  function EventScore(u: Unicode, rec: TelemetryRecord, q: string, base: real): real {
    base + if Contains(Lower(u, rec.message), q) then 20.0 else 0.0
  }

  function LevelScore(level: string): real {
    if level == "critical" then 30.0 else if level == "warn" then 10.0 else 0.0
  }

  function TelemetryResult(u: Unicode, rec: TelemetryRecord, q: string, base: real, now: int): SearchResult {
    var score := Product(EventScore(u, rec, q, base), RecencyWeight(rec.timestamp, now)) + LevelScore(rec.level);
    var risk := if rec.level == "critical" || rec.level == "warn" then rec.level else "";
    SearchResult(Event, score, rec.message, rec.source + " · " + rec.level, "event:" + rec.source, "",
                 Some(rec.timestamp), risk)
  }

  /** A newer time never weighs less. */
  lemma NewerWeighsMore(t1: int, t2: int, now: int)
    requires t1 <= t2
    ensures RecencyWeight(t1, now) <= RecencyWeight(t2, now)
  {
    if now > t2 {
      var d1, d2 := (now - t1) as real / NANOS_PER_DAY, (now - t2) as real / NANOS_PER_DAY;
      QuotientsShrink(1.0 + d2 / 30.0, 1.0 + d1 / 30.0);
    }
  }

  lemma QuotientsShrink(a: real, b: real)
    requires 0.0 < a <= b
    ensures 1.0 / b <= 1.0 / a
  {
    assert (1.0 / a) * a == 1.0 && (1.0 / b) * b == 1.0;
  }

  /** An exact name beats a prefix, a prefix beats any other occurrence, and that beats none. */
  lemma CloserNamesScoreHigher(u: Unicode, far: string, close: string, q: string)
    requires IsCloser(u, close, far, q)
    ensures 0.0 <= NameScore(u, far, q) < NameScore(u, close, q)
  {
    PrefixIsContained(Lower(u, far), q);
    PrefixIsContained(Lower(u, close), q);
  }

  /** The name is closer to the query: exact, else a prefix, else another occurrence, else none. */
  predicate IsCloser(u: Unicode, close: string, far: string, q: string) {
    || (Lower(u, close) == q && Lower(u, far) != q)
    || (q <= Lower(u, close) && !(q <= Lower(u, far)))
    || (Contains(Lower(u, close), q) && !Contains(Lower(u, far), q))
  }

  /**
   * A file whose name is closer to the query scores higher, unless the other has more shared tokens, is newer,
   * or alone has the query in its path.
   */
  lemma CloserFilesScoreHigher(
      u: Unicode, far: FileRecord, close: FileRecord, q: string, farBase: real, closeBase: real, now: int)
    requires IsCloser(u, close.name, far.name, q)
    requires 0.0 <= farBase <= closeBase && far.modTime <= close.modTime
    requires Contains(Lower(u, far.path), q) ==> Contains(Lower(u, close.path), q)
    ensures FileResult(u, far, q, farBase, now).score < FileResult(u, close, q, closeBase, now).score
  {
    CloserFilesBeatBeforeAge(u, far, close, q, farBase, closeBase);
    NewerWeighsMore(far.modTime, close.modTime, now);
    ProductsGrow(FileScore(u, far, q, farBase), FileScore(u, close, q, closeBase),
                 RecencyWeight(far.modTime, now), RecencyWeight(close.modTime, now));
  }

  lemma CloserFilesBeatBeforeAge(
      u: Unicode, far: FileRecord, close: FileRecord, q: string, farBase: real, closeBase: real)
    requires IsCloser(u, close.name, far.name, q) && 0.0 <= farBase <= closeBase
    requires Contains(Lower(u, far.path), q) ==> Contains(Lower(u, close.path), q)
    ensures 0.0 <= FileScore(u, far, q, farBase) < FileScore(u, close, q, closeBase)
  {
    CloserNamesScoreHigher(u, far.name, close.name, q);
  }

  lemma ProductsGrow(a: real, b: real, v: real, w: real)
    requires 0.0 <= a < b && 0.0 < v <= w
    ensures Product(a, v) < Product(b, w)
  {
    assert a * v <= a * w;
    assert a * w < b * w;
  }

  /** Of two files of one name and age the one with the query in its path scores higher at no more tokens. */
  lemma PathsCount(u: Unicode, other: FileRecord, found: FileRecord, q: string, base: real, now: int)
    requires other.name == found.name && other.modTime == found.modTime
    requires Contains(Lower(u, found.path), q) && !Contains(Lower(u, other.path), q)
    ensures FileResult(u, other, q, base, now).score < FileResult(u, found, q, base, now).score
  {
    ScaleLess(FileScore(u, other, q, base), FileScore(u, found, q, base), RecencyWeight(found.modTime, now));
  }

  /** Of two commands of one name the one with the query in its description scores higher at no more tokens. */
  lemma DescriptionsCount(u: Unicode, other: CommandRecord, found: CommandRecord, q: string, base: real)
    requires other.name == found.name
    requires Contains(Lower(u, found.description), q) && !Contains(Lower(u, other.description), q)
    ensures CommandResult(u, other, q, base).score < CommandResult(u, found, q, base).score
  {
  }

  /** A newer file scores higher than an older one that is like it in everything else, up to nine months. */
  lemma NewerFilesScoreHigher(u: Unicode, older: FileRecord, newer: FileRecord, q: string, base: real, now: int)
    requires older == newer.(modTime := older.modTime) && older.modTime < newer.modTime <= now
    requires now as real - newer.modTime as real < 270.0 * NANOS_PER_DAY && FileScore(u, newer, q, base) > 0.0
    ensures FileResult(u, older, q, base, now).score < FileResult(u, newer, q, base, now).score
  {
    var v, w := RecencyWeight(older.modTime, now), RecencyWeight(newer.modTime, now);
    NewerWeighsStrictlyMore(older.modTime, newer.modTime, now);
    ScaleLess(v, w, FileScore(u, newer, q, base));
  }

  lemma NewerWeighsStrictlyMore(t1: int, t2: int, now: int)
    requires t1 < t2 <= now && now as real - t2 as real < 270.0 * NANOS_PER_DAY
    ensures RecencyWeight(t1, now) < RecencyWeight(t2, now)
  {
    var d1, d2 := (now - t1) as real / NANOS_PER_DAY, (now - t2) as real / NANOS_PER_DAY;
    WeightByAge(t2, now);
    QuotientsShrinkStrictly(1.0 + d2 / 30.0, 1.0 + d1 / 30.0);
  }

  lemma QuotientsShrinkStrictly(a: real, b: real)
    requires 0.0 < a < b
    ensures 1.0 / b < 1.0 / a
  {
    assert (1.0 / a) * a == 1.0 && (1.0 / b) * b == 1.0;
  }

  /** A command whose name is closer scores higher, unless the other has more shared tokens or alone is described so. */
  lemma CloserCommandsScoreHigher(
      u: Unicode, far: CommandRecord, close: CommandRecord, q: string, farBase: real, closeBase: real)
    requires IsCloser(u, close.name, far.name, q) && farBase <= closeBase
    requires Contains(Lower(u, far.description), q) ==> Contains(Lower(u, close.description), q)
    ensures CommandResult(u, far, q, farBase).score < CommandResult(u, close, q, closeBase).score
  {
    CloserNamesScoreHigher(u, far.name, close.name, q);
  }

  /** Critical above warn above anything else. */
  function Severity(level: string): nat {
    if level == "critical" then 2 else if level == "warn" then 1 else 0
  }

  /** The more severe event scores higher, unless the other has more shared tokens, is newer, or alone says so. */
  lemma SevereEventsScoreHigher(
      u: Unicode, mild: TelemetryRecord, severe: TelemetryRecord, q: string, mildBase: real, severeBase: real, now: int)
    requires Severity(mild.level) < Severity(severe.level)
    requires 0.0 <= mildBase <= severeBase && mild.timestamp <= severe.timestamp
    requires Contains(Lower(u, mild.message), q) ==> Contains(Lower(u, severe.message), q)
    ensures TelemetryResult(u, mild, q, mildBase, now).score < TelemetryResult(u, severe, q, severeBase, now).score
    ensures TelemetryResult(u, severe, q, severeBase, now).riskLevel == severe.level
  {
    NewerWeighsMore(mild.timestamp, severe.timestamp, now);
    ProductsDoNotShrink(EventScore(u, mild, q, mildBase), EventScore(u, severe, q, severeBase),
                        RecencyWeight(mild.timestamp, now), RecencyWeight(severe.timestamp, now));
    LevelsInOrder(mild.level, severe.level);
  }

  lemma LevelsInOrder(mild: string, severe: string)
    requires Severity(mild) < Severity(severe)
    ensures LevelScore(mild) < LevelScore(severe)
    ensures severe == "critical" || severe == "warn"
  {
  }

  /** Of two events of one level and time, the one whose message has the query scores higher at no more tokens. */
  lemma SayingEventsScoreHigher(
      u: Unicode, other: TelemetryRecord, saying: TelemetryRecord, q: string, base: real, now: int)
    requires other.level == saying.level && other.timestamp == saying.timestamp
    requires Contains(Lower(u, saying.message), q) && !Contains(Lower(u, other.message), q)
    ensures TelemetryResult(u, other, q, base, now).score < TelemetryResult(u, saying, q, base, now).score
  {
    var w := RecencyWeight(other.timestamp, now);
    ScaleLess(base, base + 20.0, w);
  }

  lemma ProductsDoNotShrink(a: real, b: real, v: real, w: real)
    requires 0.0 <= a <= b && 0.0 < v <= w
    ensures Product(a, v) <= Product(b, w)
  {
    assert a * v <= a * w;
    assert a * w <= b * w;
  }

  /** A month halves the weight, and it is at its least from nine months on. */
  lemma WeightByAge(t: int, now: int)
    ensures now as real - t as real == 30.0 * NANOS_PER_DAY ==> RecencyWeight(t, now) == 0.5
    ensures RecencyWeight(t, now) == 0.1 <==> now as real - t as real >= 270.0 * NANOS_PER_DAY
  {
    if now >= t {
      var days := (now - t) as real / NANOS_PER_DAY;
      assert days * NANOS_PER_DAY == now as real - t as real;
      WeightOfDays(days);
    }
  }

  lemma WeightOfDays(days: real)
    requires days >= 0.0
    ensures var w := 1.0 / (1.0 + days / 30.0); w <= 0.1 <==> days >= 270.0
  {
    var d := 1.0 + days / 30.0;
    assert (1.0 / d) * d == 1.0;
  }

  lemma PrefixIsContained(s: string, q: string)
    ensures s == q ==> q <= s
    ensures q <= s ==> Contains(s, q)
  {
    assert s[0..] == s;
  }

  // ---- The plain view and the plain scan ----

  /** What exists: files by id, every telemetry record ever added, and the commands. */
  datatype Store = Store(files: map<nat, FileRecord>, telemetry: seq<TelemetryRecord>, commands: seq<CommandRecord>)

  function FileText(rec: FileRecord): string {
    rec.name + " " + rec.path
  }

  function TelemetryText(rec: TelemetryRecord): string {
    rec.message + " " + rec.level + " " + rec.source
  }

  function CommandText(rec: CommandRecord): string {
    rec.name + " " + rec.description + " " + JoinSpaced(rec.keywords)
  }

  function JoinSpaced(words: seq<string>): string {
    if words == [] then "" else if |words| == 1 then words[0] else words[0] + " " + JoinSpaced(words[1..])
  }

  /** The ring keeps the newest MAX_TELEMETRY events; older ones are gone. */
  function OldestEvent(n: nat): nat {
    if n > MAX_TELEMETRY then n - MAX_TELEMETRY else 0
  }

  ghost predicate Live(st: Store, id: Id) {
    match id
    case FileId(n) => n in st.files
    case TelemetryId(n) => OldestEvent(|st.telemetry|) <= n < |st.telemetry|
    case CommandId(n) => n < |st.commands|
  }

  /** Word w is one of the record's tokens. */
  ghost predicate RecordToken(u: Unicode, st: Store, id: Id, w: string)
    requires Live(st, id)
  {
    match id
    case FileId(n) => IsToken(u, FileText(st.files[n]), w)
    case TelemetryId(n) => TelemetryToken(u, st.telemetry[n], w)
    case CommandId(n) => IsToken(u, CommandText(st.commands[n]), w)
  }

  ghost predicate TelemetryToken(u: Unicode, rec: TelemetryRecord, w: string) {
    IsToken(u, TelemetryText(rec), w) || exists k :: k in rec.fields && IsToken(u, rec.fields[k], w)
  }

  lemma {:induction false} TokensOfWords(u: Unicode, words: seq<string>, w: string)
    requires SpaceSeparates(u)
    ensures IsToken(u, JoinSpaced(words), w) <==> exists k :: k in words && IsToken(u, k, w)
  {
    if words == [] {
      NoTokenOfNothing(u, w);
    } else if |words| > 1 {
      TokensOfWords(u, words[1..], w);
      TokensOfParts(u, words[0], JoinSpaced(words[1..]), w);
      assert words == [words[0]] + words[1..];
    }
  }

  /** The word is a token of the command's name, its description or one of its keywords. */
  ghost predicate CommandFieldToken(u: Unicode, rec: CommandRecord, w: string) {
    || IsToken(u, rec.name, w) || IsToken(u, rec.description, w)
    || exists k :: k in rec.keywords && IsToken(u, k, w)
  }

  lemma CommandTokens(u: Unicode, rec: CommandRecord, w: string)
    requires SpaceSeparates(u)
    ensures IsToken(u, CommandText(rec), w) <==> CommandFieldToken(u, rec, w)
  {
    TokensOfParts(u, rec.name + " " + rec.description, JoinSpaced(rec.keywords), w);
    TokensOfParts(u, rec.name, rec.description, w);
    TokensOfWords(u, rec.keywords, w);
  }

  /** The word is a token of one of the texts that the record is to be found by. */
  ghost predicate FieldToken(u: Unicode, st: Store, id: Id, w: string)
    requires Live(st, id)
  {
    match id
    case FileId(n) => var rec := st.files[n]; IsToken(u, rec.name, w) || IsToken(u, rec.path, w)
    case TelemetryId(n) =>
      var rec := st.telemetry[n];
      || IsToken(u, rec.message, w) || IsToken(u, rec.level, w) || IsToken(u, rec.source, w)
      || exists k :: k in rec.fields && IsToken(u, rec.fields[k], w)
    case CommandId(n) => CommandFieldToken(u, st.commands[n], w)
  }

  /**
   * A record is posted under exactly the tokens of its own texts: a file's name and path, an event's message,
   * level, source and fields, a command's name, description and keywords.
   */
  lemma RecordTokensAreFieldTokens(u: Unicode, st: Store, id: Id, w: string)
    requires SpaceSeparates(u) && Live(st, id)
    ensures RecordToken(u, st, id, w) <==> FieldToken(u, st, id, w)
  {
    match id {
      case FileId(n) => TokensOfParts(u, st.files[n].name, st.files[n].path, w);
      case TelemetryId(n) =>
        var rec := st.telemetry[n];
        TokensOfParts(u, rec.message + " " + rec.level, rec.source, w);
        TokensOfParts(u, rec.message, rec.level, w);
      case CommandId(n) => CommandTokens(u, st.commands[n], w);
    }
  }

  /** The query's tokens that the record has too. */
  ghost function SharedTokens(u: Unicode, st: Store, id: Id, query: string): set<string>
    requires Live(st, id)
  {
    set w | w in Fields(u, Lower(u, query)) && IsToken(u, query, w) && RecordToken(u, st, id, w)
  }

  function Needle(u: Unicode, query: string): string {
    Lower(u, Trim(query, u.isSpace))
  }

  predicate FileContains(u: Unicode, rec: FileRecord, q: string) {
    Contains(Lower(u, rec.name), q) || Contains(Lower(u, rec.path), q)
  }

  predicate CommandContains(u: Unicode, rec: CommandRecord, q: string) {
    Contains(Lower(u, rec.name), q) || Contains(Lower(u, rec.description), q)
  }

  /** The plain scan's selection: a shared token, or (files and commands) the query as a substring. */
  ghost predicate Matches(u: Unicode, st: Store, id: Id, query: string) {
    && Live(st, id)
    && (|| SharedTokens(u, st, id, query) != {}
        || (id.FileId? && FileContains(u, st.files[id.n], Needle(u, query)))
        || (id.CommandId? && CommandContains(u, st.commands[id.n], Needle(u, query))))
  }

  ghost function SharedScore(u: Unicode, st: Store, id: Id, query: string): real
    requires Live(st, id)
  {
    5.0 * |SharedTokens(u, st, id, query)| as real
  }

  /** The plain scan's result for one record: five points a shared token, plus name and text bonuses. */
  ghost function Score(u: Unicode, st: Store, id: Id, query: string, now: int): SearchResult
    requires Live(st, id)
  {
    match id
    case FileId(n) => FileResult(u, st.files[n], Needle(u, query), SharedScore(u, st, id, query), now)
    case TelemetryId(n) => TelemetryResult(u, st.telemetry[n], Needle(u, query), SharedScore(u, st, id, query), now)
    case CommandId(n) => CommandResult(u, st.commands[n], Needle(u, query), SharedScore(u, st, id, query))
  }

  /** A query that shares a token with one of a live record's own texts finds the record, with five points or more. */
  lemma SharedTokenIsFound(u: Unicode, st: Store, id: Id, query: string, w: string)
    requires SpaceSeparates(u) && Live(st, id) && IsToken(u, query, w) && FieldToken(u, st, id, w)
    ensures Matches(u, st, id, query) && SharedScore(u, st, id, query) >= 5.0
    ensures id.CommandId? ==> Score(u, st, id, query, 0).score >= 5.0
  {
    RecordTokensAreFieldTokens(u, st, id, w);
    FieldsAreRuns(u, Lower(u, query), w);
    assert w in SharedTokens(u, st, id, query);
    assert SharedTokens(u, st, id, query) >= {w};
    SomethingCounts(SharedTokens(u, st, id, query), w);
  }

  /**
   * A query that occurs, whatever the case and the spaces around it, in a file's name or path or in a command's
   * name or description finds the record, also without a shared token.
   */
  lemma SubstringIsFound(u: Unicode, st: Store, id: Id, query: string, before: string, part: string, after: string)
    requires Live(st, id) && Lower(u, part) == Needle(u, query)
    requires var text := before + part + after;
             || (id.FileId? && (text == st.files[id.n].name || text == st.files[id.n].path))
             || (id.CommandId? && (text == st.commands[id.n].name || text == st.commands[id.n].description))
    ensures Matches(u, st, id, query)
  {
    PartIsContained(u, before, part, after, Needle(u, query));
  }

  lemma SomethingCounts(s: set<string>, w: string)
    requires w in s
    ensures |s| >= 1
  {
  }

  // ---- Posting lists ----

  predicate Posted(inv: Postings, w: string, id: Id) {
    w in inv && id in inv[w]
  }

  ghost predicate DistinctLists(inv: Postings) {
    forall w :: w in inv ==> Distinct(inv[w])
  }

  /** The words of toks under which id is posted. */
  ghost function PostedUnder(inv: Postings, toks: seq<string>, id: Id): set<string> {
    set w | w in toks && Posted(inv, w, id)
  }

  function AppendUnique(s: seq<Id>, v: Id): seq<Id> {
    if v in s then s else s + [v]
  }

  /** Posts id under every word of toks and changes nothing else. */
  method Post(inv: Postings, toks: seq<string>, id: Id) returns (r: Postings)
    requires DistinctLists(inv)
    ensures DistinctLists(r)
    ensures forall w, x :: Posted(r, w, x) <==> Posted(inv, w, x) || (x == id && w in toks)
  {
    r := inv;
    for i := 0 to |toks|
      invariant DistinctLists(r)
      invariant forall w, x :: Posted(r, w, x) <==> Posted(inv, w, x) || (x == id && w in toks[..i])
    {
      var before := r;
      var list := if toks[i] in r then r[toks[i]] else [];
      r := r[toks[i] := AppendUnique(list, id)];
      forall w, x ensures Posted(r, w, x) <==> Posted(before, w, x) || (x == id && w == toks[i]) {
      }
    }
    assert toks[..|toks|] == toks;
  }

  /** Posts an event under the tokens of its text and of its field values. */
  method PostTelemetry(u: Unicode, inv: Postings, rec: TelemetryRecord) returns (r: Postings)
    requires DistinctLists(inv)
    ensures DistinctLists(r)
    ensures forall w, x ::
      Posted(r, w, x) <==> Posted(inv, w, x) || (x == TelemetryId(rec.id) && TelemetryToken(u, rec, w))
  {
    var toks := Tokenise(u, TelemetryText(rec));
    r := Post(inv, toks, TelemetryId(rec.id));
    var rest := rec.fields.Keys;
    while rest != {}
      invariant rest <= rec.fields.Keys && DistinctLists(r)
      invariant forall w, x ::
        Posted(r, w, x) <==> (Posted(inv, w, x) || (x == TelemetryId(rec.id) && TokenSoFar(u, rec, rest, w)))
    {
      var k :| k in rest;
      ghost var before := rest;
      rest := rest - {k};
      toks := Tokenise(u, rec.fields[k]);
      r := Post(r, toks, TelemetryId(rec.id));
      forall w ensures TokenSoFar(u, rec, rest, w) <==> TokenSoFar(u, rec, before, w) || IsToken(u, rec.fields[k], w) {
        assert forall j :: j in rec.fields.Keys - rest <==> j in rec.fields.Keys - before || j == k;
      }
    }
  }

  /** A token of the text or of a field not in rest. */
  ghost predicate TokenSoFar(u: Unicode, rec: TelemetryRecord, rest: set<string>, w: string) {
    IsToken(u, TelemetryText(rec), w) || exists k :: k in rec.fields.Keys - rest && IsToken(u, rec.fields[k], w)
  }

  /** One posting list's share of the candidate scores: five points to each listed id. */
  method Credit(seen: map<Id, real>, list: seq<Id>) returns (r: map<Id, real>)
    requires Distinct(list)
    ensures r.Keys == seen.Keys + (set x | x in list)
    ensures forall x :: x in r ==> r[x] == (if x in seen then seen[x] else 0.0) + (if x in list then 5.0 else 0.0)
  {
    r := seen;
    for i := 0 to |list|
      invariant r.Keys == seen.Keys + (set x | x in list[..i])
      invariant forall x :: x in r ==>
        r[x] == (if x in seen then seen[x] else 0.0) + (if x in list[..i] then 5.0 else 0.0)
    {
      assert list[i] !in list[..i];
      r := r[list[i] := (if list[i] in r then r[list[i]] else 0.0) + 5.0];
    }
    assert list[..|list|] == list;
  }

  /** Posts every command of the list under its tokens; its number is its position. */
  method PostCommands(u: Unicode, inv: Postings, cmds: seq<CommandRecord>) returns (r: Postings)
    requires DistinctLists(inv)
    ensures DistinctLists(r)
    ensures forall w, x :: Posted(r, w, x) <==> Posted(inv, w, x) || CommandToken(u, cmds, |cmds|, x, w)
    ensures SpaceSeparates(u) ==>
      forall i: nat, w :: i < |cmds| && CommandFieldToken(u, cmds[i], w) ==> Posted(r, w, CommandId(i))
  {
    r := inv;
    for i := 0 to |cmds|
      invariant DistinctLists(r)
      invariant forall w, x :: Posted(r, w, x) <==> Posted(inv, w, x) || CommandToken(u, cmds, i, x, w)
    {
      var toks := Tokenise(u, CommandText(cmds[i]));
      r := Post(r, toks, CommandId(i));
    }
    if SpaceSeparates(u) {
      forall i: nat, w | i < |cmds| && CommandFieldToken(u, cmds[i], w)
        ensures Posted(r, w, CommandId(i))
      {
        CommandTokens(u, cmds[i], w);
        assert CommandToken(u, cmds, |cmds|, CommandId(i), w);
      }
    }
  }

  ghost predicate CommandToken(u: Unicode, cmds: seq<CommandRecord>, n: nat, id: Id, w: string)
    requires n <= |cmds|
  {
    id.CommandId? && id.n < n && IsToken(u, CommandText(cmds[id.n]), w)
  }

  /** The file table a snapshot stands for. */
  function SnapshotFiles(recs: seq<FileRecord>): map<nat, FileRecord> {
    if recs == [] then map[] else SnapshotFiles(recs[..|recs| - 1])[recs[|recs| - 1].id := recs[|recs| - 1]]
  }

  ghost predicate DistinctIds(recs: seq<FileRecord>) {
    forall i, j :: 0 <= i < j < |recs| ==> recs[i].id != recs[j].id
  }

  /** The table has an entry for every identifier of the list and no other. */
  lemma {:induction false} SnapshotFilesHolds(recs: seq<FileRecord>)
    ensures forall n :: n in SnapshotFiles(recs) ==> SnapshotFiles(recs)[n] in recs && SnapshotFiles(recs)[n].id == n
    ensures forall r :: r in recs ==> r.id in SnapshotFiles(recs)
  {
    if recs != [] {
      var init := recs[..|recs| - 1];
      SnapshotFilesHolds(init);
      assert recs == init + [recs[|recs| - 1]];
    }
  }

  /** Without repeated identifiers the table holds every record. */
  lemma DistinctRecordsAreKept(recs: seq<FileRecord>, r: FileRecord)
    requires DistinctIds(recs) && r in recs
    ensures r.id in SnapshotFiles(recs) && SnapshotFiles(recs)[r.id] == r
  {
    SnapshotFilesHolds(recs);
    var kept := SnapshotFiles(recs)[r.id];
    var i :| 0 <= i < |recs| && recs[i] == r;
    var j :| 0 <= j < |recs| && recs[j] == kept;
  }

  /** Word w is a token of one of the first n records that bear the identifier. */
  ghost predicate SnapshotToken(u: Unicode, recs: seq<FileRecord>, n: nat, id: Id, w: string)
    requires n <= |recs|
  {
    id.FileId? && exists j :: 0 <= j < n && recs[j].id == id.n && IsToken(u, FileText(recs[j]), w)
  }

  lemma SnapshotTokenNext(u: Unicode, recs: seq<FileRecord>, n: nat)
    requires n < |recs|
    ensures forall id, w :: SnapshotToken(u, recs, n + 1, id, w) <==>
      SnapshotToken(u, recs, n, id, w) || (id == FileId(recs[n].id) && IsToken(u, FileText(recs[n]), w))
  {
    forall id, w
      ensures SnapshotToken(u, recs, n + 1, id, w) <==>
        SnapshotToken(u, recs, n, id, w) || (id == FileId(recs[n].id) && IsToken(u, FileText(recs[n]), w))
    {
      if SnapshotToken(u, recs, n + 1, id, w) {
        var j :| 0 <= j < n + 1 && recs[j].id == id.n && IsToken(u, FileText(recs[j]), w);
        assert j < n ==> SnapshotToken(u, recs, n, id, w);
      }
    }
  }

  /**
   * Nothing is posted, and nothing will be, under a snapshot identifier that is not a token of the record that
   * ends up there: no other record of the snapshot or of the past bears it, or none has other tokens.
   */
  ghost predicate SnapshotFits(u: Unicode, inv: Postings, recs: seq<FileRecord>) {
    forall w, id: Id ::
      id.FileId? && id.n in SnapshotFiles(recs) && (Posted(inv, w, id) || SnapshotToken(u, recs, |recs|, id, w)) ==>
        IsToken(u, FileText(SnapshotFiles(recs)[id.n]), w)
  }

  /** Nothing is posted under a command's number that is not a token of the new command there. */
  ghost predicate CommandsFit(u: Unicode, inv: Postings, cmds: seq<CommandRecord>) {
    forall w, id: Id :: id.CommandId? && id.n < |cmds| && Posted(inv, w, id) ==> IsToken(u, CommandText(cmds[id.n]), w)
  }

  /** recs lists the table's records, each once. */
  ghost predicate Lists(recs: seq<FileRecord>, files: map<nat, FileRecord>) {
    DistinctIds(recs) && forall r :: r in recs <==> r.id in files && files[r.id] == r
  }

  /** Saving and loading a snapshot gives the same file table, in whatever order it was written. */
  lemma SnapshotRoundTrip(recs: seq<FileRecord>, files: map<nat, FileRecord>)
    requires forall n :: n in files ==> files[n].id == n
    requires Lists(recs, files)
    ensures SnapshotFiles(recs) == files
  {
    SnapshotFilesHolds(recs);
    forall r | r in recs ensures SnapshotFiles(recs)[r.id] == r {
      DistinctRecordsAreKept(recs, r);
    }
    forall n | n in files ensures n in SnapshotFiles(recs) && SnapshotFiles(recs)[n] == files[n] {
      assert files[n] in recs;
    }
  }

  // ---- Candidates ----

  lemma PostedUnderStep(inv: Postings, toks: seq<string>, i: nat, id: Id)
    requires i < |toks| && Distinct(toks)
    ensures PostedUnder(inv, toks[..i + 1], id) ==
            PostedUnder(inv, toks[..i], id) + (if Posted(inv, toks[i], id) then {toks[i]} else {})
    ensures toks[i] !in PostedUnder(inv, toks[..i], id)
  {
    assert toks[..i + 1] == toks[..i] + [toks[i]];
  }

  /** The candidate scores: five points a query token, for every id posted under some of them. */
  method Candidates(inv: Postings, toks: seq<string>) returns (seen: map<Id, real>)
    requires DistinctLists(inv) && Distinct(toks)
    ensures forall id :: id in seen <==> PostedUnder(inv, toks, id) != {}
    ensures forall id :: id in seen ==> seen[id] == 5.0 * |PostedUnder(inv, toks, id)| as real
  {
    seen := map[];
    for i := 0 to |toks|
      invariant forall id :: id in seen <==> PostedUnder(inv, toks[..i], id) != {}
      invariant forall id :: id in seen ==> seen[id] == 5.0 * |PostedUnder(inv, toks[..i], id)| as real
    {
      var before := seen;
      var list := if toks[i] in inv then inv[toks[i]] else [];
      seen := Credit(seen, list);
      forall id
        ensures id in seen <==> PostedUnder(inv, toks[..i + 1], id) != {}
        ensures id in seen ==> seen[id] == 5.0 * |PostedUnder(inv, toks[..i + 1], id)| as real
      {
        PostedUnderStep(inv, toks, i, id);
        assert id in list <==> Posted(inv, toks[i], id);
        assert id !in before ==> |PostedUnder(inv, toks[..i], id)| == 0;
      }
    }
    assert toks[..|toks|] == toks;
  }

  /** s holds the plain scan's results for the ids, none repeated. */
  ghost predicate Scored(u: Unicode, st: Store, query: string, now: int, s: seq<SearchResult>, ids: seq<Id>) {
    && |s| == |ids| && Distinct(ids)
    && forall i :: 0 <= i < |s| ==> Live(st, ids[i]) && s[i] == Score(u, st, ids[i], query, now)
  }

  /** s holds the plain scan's results for exactly the wanted records, each once. */
  ghost predicate Covers(u: Unicode, st: Store, query: string, now: int, s: seq<SearchResult>, wanted: iset<Id>) {
    exists ids :: Scored(u, st, query, now, s, ids) && forall id :: id in ids <==> id in wanted
  }

  /** Everything the plain scan selects. */
  ghost function Selected(u: Unicode, st: Store, query: string): iset<Id> {
    iset id | Matches(u, st, id, query)
  }

  // ---- Ranking ----

  ghost predicate Descending(s: seq<SearchResult>) {
    forall i, j :: 0 <= i < j < |s| ==> s[i].score >= s[j].score
  }

  /** s is the list of results of the ids, in the same order. */
  ghost predicate ResultsOf(s: seq<SearchResult>, ids: seq<Id>, f: map<Id, SearchResult>) {
    |s| == |ids| && forall i :: 0 <= i < |s| ==> ids[i] in f && s[i] == f[ids[i]]
  }

  /** The same ids, each as often as before, when none is repeated. */
  ghost predicate Reordered(a: seq<Id>, b: seq<Id>) {
    |a| == |b| && Distinct(b) && forall x :: x in a <==> x in b
  }

  lemma SwapReorders(a: seq<Id>, b: seq<Id>, s: seq<SearchResult>, f: map<Id, SearchResult>, i: nat, j: nat)
    requires Reordered(a, b) && ResultsOf(s, b, f) && i < j < |b|
    ensures Reordered(a, Swapped(b, i, j)) && ResultsOf(Swapped(s, i, j), Swapped(b, i, j), f)
  {
    var c := Swapped(b, i, j);
    forall x ensures x in b <==> x in c {
      if x in b {
        var k :| 0 <= k < |b| && b[k] == x;
        assert c[if k == i then j else if k == j then i else k] == x;
      }
    }
  }

  /**
   * An insertion in progress: the first n results are in order apart from the one at j, which
   * scores no less than those behind it.
   */
  ghost predicate Inserting(s: seq<SearchResult>, n: nat, j: nat) {
    && j < n <= |s|
    && (forall p, q :: 0 <= p < q < n && p != j && q != j ==> s[p].score >= s[q].score)
    && forall q :: j < q < n ==> s[j].score >= s[q].score
  }

  lemma InsertStep(s: seq<SearchResult>, n: nat, j: nat)
    requires Inserting(s, n, j) && j > 0 && s[j].score > s[j - 1].score
    ensures Inserting(Swapped(s, j - 1, j), n, j - 1)
  {
  }

  lemma InsertDone(s: seq<SearchResult>, n: nat, j: nat)
    requires Inserting(s, n, j) && (j == 0 || s[j].score <= s[j - 1].score)
    ensures Descending(s[..n])
  {
    forall p, q | 0 <= p < q < n ensures s[p].score >= s[q].score {
      if q == j {
        assert p == j - 1 || s[p].score >= s[j - 1].score;
      }
    }
  }

  lemma ReorderedTwice(a: seq<Id>, b: seq<Id>, c: seq<Id>)
    requires Reordered(a, b) && Reordered(b, c)
    ensures Reordered(a, c)
  {
  }

  lemma StartInserting(s: seq<SearchResult>, i: nat)
    requires i < |s| && Descending(s[..i])
    ensures Inserting(s, i + 1, i)
  {
    forall p, q | 0 <= p < q < i ensures s[p].score >= s[q].score {
      assert s[..i][p] == s[p] && s[..i][q] == s[q];
    }
  }

  /** Where the inner loop stands: the ids still follow their results. */
  ghost predicate InsertState(
      ids: seq<Id>, order: seq<Id>, s: seq<SearchResult>, f: map<Id, SearchResult>, n: nat, j: nat) {
    Inserting(s, n, j) && Reordered(ids, order) && ResultsOf(s, order, f)
  }

  lemma InsertTurn(ids: seq<Id>, order: seq<Id>, s: seq<SearchResult>, f: map<Id, SearchResult>, n: nat, j: nat)
    requires InsertState(ids, order, s, f, n, j) && j > 0 && s[j].score > s[j - 1].score
    ensures InsertState(ids, Swapped(order, j - 1, j), Swapped(s, j - 1, j), f, n, j - 1)
  {
    SwapReorders(ids, order, s, f, j - 1, j);
    InsertStep(s, n, j);
  }

  method SwapAdjacent(a: array<SearchResult>, j: nat)
    requires 0 < j < a.Length
    modifies a
    ensures a[..] == Swapped(old(a[..]), j - 1, j)
  {
    a[j], a[j - 1] := a[j - 1], a[j];
  }

  /** The inner loop: the result at i moves down past all that score less. */
  method Insert(a: array<SearchResult>, i: nat, ghost ids: seq<Id>, ghost f: map<Id, SearchResult>)
    returns (ghost order: seq<Id>)
    requires i < a.Length && Descending(a[..i])
    requires ResultsOf(a[..], ids, f) && Distinct(ids)
    modifies a
    ensures Reordered(ids, order) && ResultsOf(a[..], order, f)
    ensures Descending(a[..i + 1])
  {
    order := ids;
    ghost var s := a[..];
    assert s[..i] == a[..i];
    StartInserting(s, i);
    var j := i;
    while j > 0 && a[j].score > a[j - 1].score
      invariant j <= i && a[..] == s && InsertState(ids, order, s, f, i + 1, j)
    {
      InsertTurn(ids, order, s, f, i + 1, j);
      order := Swapped(order, j - 1, j);
      SwapAdjacent(a, j);
      s := Swapped(s, j - 1, j);
      j := j - 1;
    }
    InsertDone(s, i + 1, j);
    assert a[..i + 1] == s[..i + 1];
  }

  /** Insertion sort by swaps, largest score first, in place; the ids follow their results. */
  method SortByScore(a: array<SearchResult>, ghost ids: seq<Id>, ghost f: map<Id, SearchResult>)
    returns (ghost order: seq<Id>)
    requires ResultsOf(a[..], ids, f) && Distinct(ids)
    modifies a
    ensures Reordered(ids, order) && ResultsOf(a[..], order, f)
    ensures Descending(a[..])
  {
    order := ids;
    var i := 1;
    while i < a.Length
      invariant 1 <= i
      invariant Reordered(ids, order) && ResultsOf(a[..], order, f)
      invariant Descending(a[..Least(i, a.Length)])
    {
      ghost var before := order;
      order := Insert(a, i, order, f);
      ReorderedTwice(ids, before, order);
      i := i + 1;
    }
    assert a[..a.Length] == a[..];
  }

  /** Every record the plain scan selects, each once, by descending score. */
  ghost predicate Ranked(u: Unicode, st: Store, query: string, now: int, order: seq<Id>) {
    && Distinct(order)
    && (forall id :: id in order <==> Matches(u, st, id, query))
    && (forall i :: 0 <= i < |order| ==> Live(st, order[i]))
    && forall i, j :: 0 <= i < j < |order| ==>
      Score(u, st, order[i], query, now).score >= Score(u, st, order[j], query, now).score
  }

  /** The plain scan's results for the records of the ranking, in its order. */
  ghost predicate ShowsAll(u: Unicode, st: Store, query: string, now: int, r: seq<SearchResult>, order: seq<Id>) {
    && Ranked(u, st, query, now, order) && |r| == |order|
    && forall i :: 0 <= i < |r| ==> r[i] == Score(u, st, order[i], query, now)
  }

  /** The plain scan's result for each of the ids. */
  ghost function ResultTable(u: Unicode, st: Store, query: string, now: int, ids: seq<Id>): map<Id, SearchResult>
    requires forall id :: id in ids ==> Live(st, id)
  {
    map id | id in (set x | x in ids) :: Score(u, st, id, query, now)
  }

  lemma TableHolds(u: Unicode, st: Store, query: string, now: int, s: seq<SearchResult>, ids: seq<Id>)
    requires Scored(u, st, query, now, s, ids)
    ensures forall id :: id in ids ==> Live(st, id)
    ensures ResultsOf(s, ids, ResultTable(u, st, query, now, ids))
  {
  }

  lemma SortedShowsAll(
      u: Unicode, st: Store, query: string, now: int, ids: seq<Id>, r: seq<SearchResult>, order: seq<Id>)
    requires forall id :: id in ids <==> id in Selected(u, st, query)
    requires Reordered(ids, order) && ResultsOf(r, order, ResultTable(u, st, query, now, ids)) && Descending(r)
    ensures ShowsAll(u, st, query, now, r, order)
  {
    forall i | 0 <= i < |order| ensures Live(st, order[i]) && r[i] == Score(u, st, order[i], query, now) {
      assert order[i] in ids;
    }
  }

  /** Copies the collected results into a slice of their own and sorts it. */
  method Rank(ghost u: Unicode, ghost st: Store, ghost query: string, ghost now: int, s: seq<SearchResult>)
    returns (r: seq<SearchResult>)
    requires Covers(u, st, query, now, s, Selected(u, st, query))
    ensures exists order :: ShowsAll(u, st, query, now, r, order)
  {
    ghost var ids :| Scored(u, st, query, now, s, ids) && forall id :: id in ids <==> id in Selected(u, st, query);
    ghost var f := ResultTable(u, st, query, now, ids);
    var a := new SearchResult[|s|](i requires 0 <= i < |s| => s[i]);
    assert a[..] == s;
    TableHolds(u, st, query, now, s, ids);
    ghost var order := SortByScore(a, ids, f);
    r := a[..];
    SortedShowsAll(u, st, query, now, ids, r, order);
  }

  // ---- The ring ----

  /** The newest event number that was written to slot i, after n events. */
  function SlotOwner(n: nat, i: nat): int {
    n - 1 - (n - 1 - i) % MAX_TELEMETRY
  }

  lemma RingPush(n: nat, i: nat)
    requires i < MAX_TELEMETRY
    ensures SlotOwner(n + 1, i) == if i == n % MAX_TELEMETRY then n else SlotOwner(n, i)
  {
  }

  lemma RingHolds(n: nat, k: nat)
    requires OldestEvent(n) <= k < n
    ensures SlotOwner(n, k % MAX_TELEMETRY) == k
    ensures k % MAX_TELEMETRY < (if n < MAX_TELEMETRY then n else MAX_TELEMETRY)
  {
  }

  lemma RingOwnersAreLive(n: nat, i: nat)
    requires i < MAX_TELEMETRY && i < n
    ensures OldestEvent(n) <= SlotOwner(n, i) < n
  {
  }

  // ---- The index ----

  class Index {
    const u: Unicode
    const telemetry: array<Option<TelemetryRecord>>
    var files: map<nat, FileRecord>
    var commands: seq<CommandRecord>
    var inv: Postings
    var nextFileId: nat
    var nextTelemetryId: nat
    var head: nat
    var count: nat
    /** Every telemetry record ever added; the ring holds the newest of them. */
    ghost var log: seq<TelemetryRecord>
    /** The size of the largest command registry so far; none was loaded while it is zero. */
    ghost var loaded: nat

    ghost function View(): Store
      reads this
    {
      Store(files, log, commands)
    }

    ghost predicate RingValid()
      reads this, telemetry
    {
      && telemetry.Length == MAX_TELEMETRY
      && |log| == nextTelemetryId
      && head == nextTelemetryId % MAX_TELEMETRY
      && count == (if nextTelemetryId < MAX_TELEMETRY then nextTelemetryId else MAX_TELEMETRY)
      && (forall k :: 0 <= k < |log| ==> log[k].id == k)
      && forall i :: 0 <= i < count ==>
        0 <= SlotOwner(nextTelemetryId, i) < |log| && telemetry[i] == Some(log[SlotOwner(nextTelemetryId, i)])
    }

    /** Identifiers handed out so far. */
    ghost predicate Issued(id: Id)
      reads this
    {
      match id
      case FileId(n) => n < nextFileId
      case TelemetryId(n) => n < nextTelemetryId
      case CommandId(n) => n < loaded
    }

    /** The parts of the index fit together. */
    ghost predicate Consistent()
      reads this, telemetry
    {
      && RingValid()
      && DistinctLists(inv) && |commands| <= loaded
      && (forall n :: n in files ==> n < nextFileId && files[n].id == n)
      && forall w, id :: Posted(inv, w, id) ==> Issued(id)
    }

    /**
     * Live records are posted under exactly their tokens. Dead ones may linger in the postings, but
     * no identifier is handed out twice, so a lingering posting never names a live record wrongly.
     */
    ghost predicate Valid()
      reads this, telemetry
    {
      Consistent() && forall w, id :: Live(View(), id) ==> (Posted(inv, w, id) <==> RecordToken(u, View(), id, w))
    }

    constructor (u: Unicode)
      ensures Valid() && fresh(telemetry) && this.u == u
      ensures View() == Store(map[], [], []) && nextFileId == 0 && loaded == 0
    {
      this.u := u;
      telemetry := new Option<TelemetryRecord>[MAX_TELEMETRY](_ => None);
      files, commands, inv, log := map[], [], map[], [];
      nextFileId, nextTelemetryId, head, count, loaded := 0, 0, 0, 0, 0;
    }

    /** Stores a file record and posts its tokens. */
    method InsertFile(rec: FileRecord)
      requires Consistent() && rec.id < nextFileId
      modifies `files, `inv
      ensures Consistent() && View() == old(View()).(files := old(files)[rec.id := rec])
      ensures forall w, x ::
        Posted(inv, w, x) <==> old(Posted(inv, w, x)) || (x == FileId(rec.id) && IsToken(u, FileText(rec), w))
    {
      files := files[rec.id := rec];
      var toks := Tokenise(u, FileText(rec));
      inv := Post(inv, toks, FileId(rec.id));
    }

    /** Adds a file under a fresh identifier; an older record of the same path stays. */
    method AddFile(path: string, size: int, modTime: int, isDir: bool, snip: string) returns (id: nat)
      requires Valid()
      modifies this
      ensures Valid()
      ensures id == old(nextFileId) && id !in old(files)
      ensures var rec := FileRecord(id, path, Base(path), size, modTime, isDir, snip);
              View() == old(View()).(files := old(files)[id := rec])
    {
      id := nextFileId;
      nextFileId := nextFileId + 1;
      InsertFile(FileRecord(id, path, Base(path), size, modTime, isDir, snip));
      assert forall x :: x != FileId(id) && Live(View(), x) ==> old(Live(View(), x));
    }

    /** Deletes one record of the path, if any; its postings are left behind. */
    method RemoveFile(path: string)
      requires Valid()
      modifies this
      ensures Valid()
      ensures (forall n :: n in old(files) ==> old(files)[n].path != path) ==> View() == old(View())
      ensures (exists n :: n in old(files) && old(files)[n].path == path) ==>
        exists n :: n in old(files) && old(files)[n].path == path && View() == old(View()).(files := old(files) - {n})
    {
      var rest := files.Keys;
      while rest != {}
        invariant rest <= files.Keys && unchanged(this)
        invariant forall n :: n in files.Keys - rest ==> files[n].path != path
      {
        var n :| n in rest;
        rest := rest - {n};
        if files[n].path == path {
          files := files - {n};
          return;
        }
      }
    }

    /** Writes the next slot of the ring. */
    method PushRing(rec: TelemetryRecord)
      requires RingValid() && rec.id == nextTelemetryId
      modifies `nextTelemetryId, `head, `count, `log, telemetry
      ensures RingValid() && log == old(log) + [rec]
    {
      var n := nextTelemetryId;
      forall i: nat | i < MAX_TELEMETRY
        ensures SlotOwner(n + 1, i) == if i == n % MAX_TELEMETRY then n else SlotOwner(n, i)
      {
        RingPush(n, i);
      }
      nextTelemetryId := n + 1;
      telemetry[head] := Some(rec);
      head := (head + 1) % MAX_TELEMETRY;
      if count < MAX_TELEMETRY {
        count := count + 1;
      }
      log := log + [rec];
    }

    /** Appends an event, overwriting the oldest slot of a full ring. */
    method AddTelemetry(source: string, level: string, message: string, ts: int, fields: map<string, string>)
      requires Valid()
      modifies this, telemetry
      ensures Valid()
      ensures var rec := TelemetryRecord(old(nextTelemetryId), source, ts, level, message, fields);
              View() == old(View()).(telemetry := old(log) + [rec])
    {
      var rec := TelemetryRecord(nextTelemetryId, source, ts, level, message, fields);
      PushRing(rec);
      inv := PostTelemetry(u, inv, rec);
      assert forall x :: x != TelemetryId(rec.id) && Live(View(), x) ==> old(Live(View(), x));
    }

    /**
     * Replaces the command registry. The postings of an earlier one stay, so that the index stays valid
     * exactly when they fit; nothing lingers when none was loaded, and the daemon loads only once.
     */
    method LoadCommands(cmds: seq<CommandRecord>)
      requires Valid()
      modifies this
      ensures Consistent() && View() == old(View()).(commands := cmds)
      ensures Valid() <==> CommandsFit(u, old(inv), cmds)
      ensures old(loaded) == 0 ==> Valid()
    {
      commands := cmds;
      loaded := if loaded < |cmds| then |cmds| else loaded;
      inv := PostCommands(u, inv, cmds);
      CommandsStayValid(old(inv), old(View()));
    }

    /** After the postings of a new registry: everything else was valid before. */
    lemma CommandsStayValid(before: Postings, was: Store)
      requires Consistent() && View() == was.(commands := commands)
      requires forall w, x :: Posted(inv, w, x) <==> Posted(before, w, x) || CommandToken(u, commands, |commands|, x, w)
      requires forall w, id :: Live(was, id) ==> (Posted(before, w, id) <==> RecordToken(u, was, id, w))
      ensures Valid() <==> CommandsFit(u, before, commands)
    {
      if CommandsFit(u, before, commands) {
        forall w, id | Live(View(), id)
          ensures Posted(inv, w, id) <==> RecordToken(u, View(), id, w)
        {
          assert !id.CommandId? ==> Live(was, id);
        }
      }
      if Valid() {
        forall w, id: Id | id.CommandId? && id.n < |commands| && Posted(before, w, id)
          ensures IsToken(u, CommandText(commands[id.n]), w)
        {
          assert Live(View(), id) && Posted(inv, w, id);
        }
      }
    }

    method SaveSnapshot() returns (recs: seq<FileRecord>)
      requires Valid()
      ensures Lists(recs, files)
    {
      recs := [];
      var rest := files.Keys;
      while rest != {}
        invariant rest <= files.Keys && DistinctIds(recs)
        invariant forall r :: r in recs <==> r.id in files.Keys - rest && files[r.id] == r
      {
        var n :| n in rest;
        rest := rest - {n};
        assert forall i :: 0 <= i < |recs| ==> recs[i] in recs && recs[i].id != n;
        recs := recs + [files[n]];
      }
    }

    /**
     * Restores a snapshot, over whatever files there are. The index stays valid exactly when the snapshot
     * fits; it does when there are no files yet and no identifier is repeated, as when the daemon loads what
     * it saved.
     */
    method LoadSnapshot(recs: seq<FileRecord>)
      requires Valid()
      modifies this
      ensures Consistent() && View() == old(View()).(files := old(files) + SnapshotFiles(recs))
      ensures Valid() <==> SnapshotFits(u, old(inv), recs)
      ensures old(nextFileId) == 0 && DistinctIds(recs) ==> Valid()
    {
      for i := 0 to |recs|
        invariant Consistent() && View() == old(View()).(files := old(files) + SnapshotFiles(recs[..i]))
        invariant forall w, x :: Posted(inv, w, x) <==> Posted(old(inv), w, x) || SnapshotToken(u, recs, i, x, w)
      {
        assert recs[..i + 1][..i] == recs[..i];
        SnapshotTokenNext(u, recs, i);
        LoadRecord(recs[i]);
      }
      assert recs[..|recs|] == recs;
      SnapshotStaysValid(old(inv), old(View()), recs);
      if old(nextFileId) == 0 && DistinctIds(recs) {
        FreshSnapshotFits(old(inv), recs);
      }
    }

    /** The loop's body: later identifiers stay fresh, and the record is stored and posted. */
    method LoadRecord(rec: FileRecord)
      requires Consistent()
      modifies `nextFileId, `files, `inv
      ensures Consistent() && View() == old(View()).(files := old(files)[rec.id := rec])
      ensures forall w, x ::
        Posted(inv, w, x) <==> old(Posted(inv, w, x)) || (x == FileId(rec.id) && IsToken(u, FileText(rec), w))
    {
      if rec.id >= nextFileId {
        nextFileId := rec.id + 1;
      }
      InsertFile(rec);
    }

    lemma SnapshotStaysValid(before: Postings, was: Store, recs: seq<FileRecord>)
      requires Consistent() && View() == was.(files := was.files + SnapshotFiles(recs))
      requires forall w, x :: Posted(inv, w, x) <==> Posted(before, w, x) || SnapshotToken(u, recs, |recs|, x, w)
      requires forall w, id :: Live(was, id) ==> (Posted(before, w, id) <==> RecordToken(u, was, id, w))
      ensures Valid() <==> SnapshotFits(u, before, recs)
    {
      SnapshotFilesHolds(recs);
      if SnapshotFits(u, before, recs) {
        forall w, id | Live(View(), id)
          ensures Posted(inv, w, id) <==> RecordToken(u, View(), id, w)
        {
          SnapshotRecordIsPosted(before, was, recs, w, id);
        }
      }
      if Valid() {
        forall w, id: Id | id.FileId? && id.n in SnapshotFiles(recs)
          && (Posted(before, w, id) || SnapshotToken(u, recs, |recs|, id, w))
          ensures IsToken(u, FileText(SnapshotFiles(recs)[id.n]), w)
        {
          assert Live(View(), id) && Posted(inv, w, id);
        }
      }
    }

    lemma SnapshotRecordIsPosted(before: Postings, was: Store, recs: seq<FileRecord>, w: string, id: Id)
      requires View() == was.(files := was.files + SnapshotFiles(recs)) && Live(View(), id)
      requires Posted(inv, w, id) <==> Posted(before, w, id) || SnapshotToken(u, recs, |recs|, id, w)
      requires Live(was, id) ==> (Posted(before, w, id) <==> RecordToken(u, was, id, w))
      requires SnapshotFits(u, before, recs)
      ensures Posted(inv, w, id) <==> RecordToken(u, View(), id, w)
    {
      SnapshotFilesHolds(recs);
      if id.FileId? && id.n in SnapshotFiles(recs) {
        var j :| 0 <= j < |recs| && recs[j] == SnapshotFiles(recs)[id.n];
        assert IsToken(u, FileText(recs[j]), w) ==> SnapshotToken(u, recs, |recs|, id, w);
      } else {
        assert forall j :: 0 <= j < |recs| ==> recs[j].id in SnapshotFiles(recs);
      }
    }

    lemma FreshSnapshotFits(before: Postings, recs: seq<FileRecord>)
      requires DistinctIds(recs) && forall w, id: Id :: id.FileId? ==> !Posted(before, w, id)
      ensures SnapshotFits(u, before, recs)
    {
      SnapshotFilesHolds(recs);
      forall w, id: Id | id.FileId? && id.n in SnapshotFiles(recs) && SnapshotToken(u, recs, |recs|, id, w)
        ensures IsToken(u, FileText(SnapshotFiles(recs)[id.n]), w)
      {
        var j :| 0 <= j < |recs| && recs[j].id == id.n && IsToken(u, FileText(recs[j]), w);
        DistinctRecordsAreKept(recs, recs[j]);
      }
    }

    /** The scan of the ring for one event; an evicted event is not found. */
    method FindTelemetry(k: nat) returns (r: Option<TelemetryRecord>)
      requires RingValid()
      ensures r == if Live(View(), TelemetryId(k)) then Some(log[k]) else None
    {
      if Live(View(), TelemetryId(k)) {
        RingHolds(nextTelemetryId, k);
        assert telemetry[k % MAX_TELEMETRY] == Some(log[k]);
      }
      for i := 0 to count
        invariant forall j :: 0 <= j < i ==> telemetry[j] != None && telemetry[j].value.id != k
      {
        RingOwnersAreLive(nextTelemetryId, i);
        if telemetry[i] != None && telemetry[i].value.id == k {
          return telemetry[i];
        }
      }
      return None;
    }

    /** A live record's postings are its shared tokens. */
    lemma PostingsAreShared(toks: seq<string>, query: string, id: Id)
      requires Valid() && Live(View(), id)
      requires forall w :: w in toks <==> IsToken(u, query, w)
      ensures PostedUnder(inv, toks, id) == SharedTokens(u, View(), id, query)
    {
      forall w ensures w in PostedUnder(inv, toks, id) <==> w in SharedTokens(u, View(), id, query) {
        FieldsAreRuns(u, Lower(u, query), w);
      }
    }

    method ScoreCommand(n: nat, q: string, base: real) returns (r: Option<SearchResult>)
      ensures r == if n < |commands| then Some(CommandResult(u, commands[n], q, base)) else None
    {
      if n >= |commands| {
        return None;
      }
      r := Some(CommandResult(u, commands[n], q, base));
    }

    method ScoreTelemetry(n: nat, q: string, base: real, now: int) returns (r: Option<SearchResult>)
      requires RingValid()
      ensures r == if Live(View(), TelemetryId(n)) then Some(TelemetryResult(u, log[n], q, base, now)) else None
    {
      var rec := FindTelemetry(n);
      if rec.None? {
        return None;
      }
      r := Some(TelemetryResult(u, rec.value, q, base, now));
    }

    method ScoreFile(n: nat, q: string, base: real, now: int) returns (r: Option<SearchResult>)
      ensures r == if n in files then Some(FileResult(u, files[n], q, base, now)) else None
    {
      if n !in files {
        return None;
      }
      r := Some(FileResult(u, files[n], q, base, now));
    }

    /** The result for one candidate, or none when its record is gone. */
    method ScoreOne(id: Id, base: real, query: string, now: int) returns (r: Option<SearchResult>)
      requires RingValid()
      requires Live(View(), id) ==> base == SharedScore(u, View(), id, query)
      ensures r == if Live(View(), id) then Some(Score(u, View(), id, query, now)) else None
    {
      match id {
        case CommandId(n) => r := ScoreCommand(n, Needle(u, query), base);
        case TelemetryId(n) => r := ScoreTelemetry(n, Needle(u, query), base, now);
        case FileId(n) => r := ScoreFile(n, Needle(u, query), base, now);
      }
    }

    /** Scores the candidates that are still live and drops the others. */
    method ScoreCandidates(seen: map<Id, real>, query: string, now: int) returns (s: seq<SearchResult>)
      requires RingValid()
      requires forall id :: id in seen && Live(View(), id) ==> seen[id] == SharedScore(u, View(), id, query)
      ensures Covers(u, View(), query, now, s, iset id | id in seen && Live(View(), id))
    {
      s := [];
      ghost var ids := [];
      var rest := seen.Keys;
      while rest != {}
        invariant rest <= seen.Keys
        invariant Scored(u, View(), query, now, s, ids)
        invariant forall id :: id in ids <==> id in seen.Keys - rest && Live(View(), id)
      {
        var id :| id in rest;
        rest := rest - {id};
        var r := ScoreOne(id, seen[id], query, now);
        if r.Some? {
          s, ids := s + [r.value], ids + [id];
        }
      }
    }

    /** Adds the files that contain the query as a substring and were not candidates. */
    method ScanFiles(seen: map<Id, real>, query: string, now: int, s0: seq<SearchResult>) returns (s: seq<SearchResult>)
      requires Covers(u, View(), query, now, s0, iset id | id in seen && Live(View(), id))
      requires forall id :: Live(View(), id) && id !in seen ==> SharedTokens(u, View(), id, query) == {}
      ensures Covers(u, View(), query, now, s,
        iset id | Live(View(), id) && (id in seen || (id.FileId? && FileContains(u, files[id.n], Needle(u, query)))))
    {
      s := s0;
      ghost var ids :|
        Scored(u, View(), query, now, s, ids) && forall id :: id in ids <==> id in seen && Live(View(), id);
      var q := Needle(u, query);
      var rest := files.Keys;
      while rest != {}
        invariant rest <= files.Keys
        invariant Scored(u, View(), query, now, s, ids)
        invariant forall id ::
          id in ids <==>
          Live(View(), id) && (id in seen || (id.FileId? && id.n !in rest && FileContains(u, files[id.n], q)))
      {
        var n :| n in rest;
        rest := rest - {n};
        if FileId(n) !in seen && FileContains(u, files[n], q) {
          assert Live(View(), FileId(n));
          s, ids := s + [FileResult(u, files[n], q, 0.0, now)], ids + [FileId(n)];
        }
      }
    }

    /** Adds the commands that contain the query as a substring and were not candidates. */
    method ScanCommands(seen: map<Id, real>, query: string, now: int, s0: seq<SearchResult>, ghost wanted: iset<Id>)
      returns (s: seq<SearchResult>)
      requires Covers(u, View(), query, now, s0, wanted)
      requires forall id: Id :: id.CommandId? ==> (id in wanted <==> id in seen && Live(View(), id))
      requires forall id :: Live(View(), id) && id !in seen ==> SharedTokens(u, View(), id, query) == {}
      ensures Covers(u, View(), query, now, s,
        iset id | id in wanted ||
          (Live(View(), id) && id !in seen && id.CommandId? && CommandContains(u, commands[id.n], Needle(u, query))))
    {
      s := s0;
      ghost var ids :| Scored(u, View(), query, now, s, ids) && forall id :: id in ids <==> id in wanted;
      var q := Needle(u, query);
      for i := 0 to |commands|
        invariant Scored(u, View(), query, now, s, ids)
        invariant forall id ::
          id in ids <==>
          id in wanted || (id.CommandId? && id.n < i && id !in seen && CommandContains(u, commands[id.n], q))
      {
        if CommandId(i) !in seen && CommandContains(u, commands[i], q) {
          assert Live(View(), CommandId(i));
          s, ids := s + [CommandResult(u, commands[i], q, 0.0)], ids + [CommandId(i)];
        }
      }
    }

    /** Everything the plain scan selects, with its results, before ranking. */
    method Collect(query: string, now: int) returns (s: seq<SearchResult>)
      requires Valid()
      ensures Covers(u, View(), query, now, s, Selected(u, View(), query))
    {
      var toks := Tokenise(u, query);
      var seen := Candidates(inv, toks);
      forall id | Live(View(), id)
        ensures PostedUnder(inv, toks, id) == SharedTokens(u, View(), id, query)
      {
        PostingsAreShared(toks, query, id);
      }
      s := ScoreCandidates(seen, query, now);
      s := ScanFiles(seen, query, now, s);
      ghost var wanted := iset id | Live(View(), id) &&
        (id in seen || (id.FileId? && FileContains(u, files[id.n], Needle(u, query))));
      s := ScanCommands(seen, query, now, s, wanted);
      assert Selected(u, View(), query) ==
        iset id | id in wanted ||
          (Live(View(), id) && id !in seen && id.CommandId? && CommandContains(u, commands[id.n], Needle(u, query)));
    }

    /**
     * The ranked search. `order` names every record the plain scan selects, each once, by descending
     * score; the results are the plain scan's results for its first entries.
     */
    method Search(query: string, limit: int, now: int) returns (results: seq<SearchResult>, ghost order: seq<Id>)
      requires Valid()
      ensures Trim(query, u.isSpace) == "" ==> results == []
      ensures Trim(query, u.isSpace) != "" ==>
        Ranked(u, View(), query, now, order) && |results| == Least(|order|, if limit <= 0 then DEFAULT_LIMIT else limit)
      ensures Trim(query, u.isSpace) != "" ==>
        forall i :: 0 <= i < |results| ==> results[i] == Score(u, View(), order[i], query, now)
    {
      var most := if limit <= 0 then DEFAULT_LIMIT else limit;
      if Trim(query, u.isSpace) == "" {
        return [], [];
      }
      var s := Collect(query, now);
      results := Rank(u, View(), query, now, s);
      order :| ShowsAll(u, View(), query, now, results, order);
      results := if |results| > most then results[..most] else results;
    }
  }
}
