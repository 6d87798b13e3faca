/**
 * Kernel cpulists such as "0-3,5" (core/performance/helpers.go): the parser and the printer, at
 * character level, with decimal reading and printing. Integers are unbounded.
 */
module CpuList {
  import opened Decimal
  import opened Splitting
  import opened Wrappers

  // ---- Go's string helpers ----

  predicate IsSpace(c: char) {
    || c == ' ' || c == '\t' || c == '\n' || c == '\r' || c == '\U{000B}' || c == '\U{000C}'
    || c == '\U{0085}' || c == '\U{00A0}' || c == '\U{1680}' || '\U{2000}' <= c <= '\U{200A}'
    || c == '\U{2028}' || c == '\U{2029}' || c == '\U{202F}' || c == '\U{205F}' || c == '\U{3000}'
  }

  /** `strings.Join` with a one-character separator. */
  function Join(parts: seq<string>, sep: char): string {
    if parts == [] then "" else if |parts| == 1 then parts[0] else parts[0] + [sep] + Join(parts[1..], sep)
  }

  /** `strings.IndexByte`. */
  function IndexOf(s: string, c: char): (i: int)
    ensures -1 <= i < |s|
    ensures i >= 0 ==> s[i] == c && c !in s[..i]
    ensures i < 0 <==> c !in s
  {
    if s == [] then -1
    else if s[0] == c then 0
    else
      var i := IndexOf(s[1..], c);
      if i < 0 then -1 else i + 1
  }

  lemma {:induction false} SplitJoin(parts: seq<string>, sep: char)
    requires parts != [] && forall p :: p in parts ==> sep !in p
    ensures Split(Join(parts, sep), [sep]) == parts
  {
    assert parts[0] in parts;
    if |parts| == 1 {
      SplitNothing(parts[0], sep);
      assert parts == [parts[0]];
    } else {
      SplitAtOne(parts[0], sep, Join(parts[1..], sep));
      SplitJoin(parts[1..], sep);
      assert parts == [parts[0]] + parts[1..];
    }
  }

  // ---- Numbers ----

  /** `strconv.Atoi`: an optional sign, then digits. */
  function Atoi(s: string): Option<int> {
    var digits := if s != [] && (s[0] == '+' || s[0] == '-') then s[1..] else s;
    if digits == [] || !AllDigits(digits) then None
    else
      var v: int := ReadNat(digits);
      Some(if s[0] == '-' then -v else v)
  }

  lemma AtoiPrinted(n: nat)
    ensures Atoi(PrintNat(n)) == Some(n)
  {
    ReadPrinted(n);
  }

  // ---- The parser ----

  /** lo, lo+1, ..., hi; nothing if hi < lo. */
  function Interval(lo: int, hi: int): (xs: seq<int>)
    ensures |xs| == if lo <= hi then hi - lo + 1 else 0
    ensures forall i :: 0 <= i < |xs| ==> xs[i] == lo + i
    decreases hi - lo
  {
    if lo > hi then [] else Interval(lo, hi - 1) + [hi]
  }

  /** The numbers of one trimmed, comma-free part. */
  function ParsePart(part: string): Result<seq<int>, string> {
    if part == "" then Ok([])
    else
      var dash := IndexOf(part, '-');
      if dash >= 0 then
        match (Atoi(part[..dash]), Atoi(part[dash + 1..]))
        case (Some(lo), Some(hi)) => Ok(Interval(lo, hi))
        case _ => Err("bad cpulist range: " + part)
      else
        match Atoi(part)
        case Some(n) => Ok([n])
        case None => Err("bad cpulist entry: " + part)
  }

  /** The numbers of all parts in order; the first bad part's error otherwise. */
  function ParseParts(parts: seq<string>): Result<seq<int>, string> {
    if parts == [] then Ok([])
    else
      match ParseParts(parts[..|parts| - 1])
      case Err(e) => Err(e)
      case Ok(xs) =>
        match ParsePart(Trim(parts[|parts| - 1], IsSpace))
        case Err(e) => Err(e)
        case Ok(ys) => Ok(xs + ys)
  }

  function Parse(s: string): Result<seq<int>, string> {
    ParseParts(Split(Trim(s, IsSpace), ","))
  }

  lemma {:induction false} EarlyErrorStays(parts: seq<string>, i: nat)
    requires i <= |parts| && ParseParts(parts[..i]).Err?
    ensures ParseParts(parts) == ParseParts(parts[..i])
    decreases |parts|
  {
    if i < |parts| {
      assert parts[..|parts| - 1][..i] == parts[..i];
      EarlyErrorStays(parts[..|parts| - 1], i);
    } else {
      assert parts[..i] == parts;
    }
  }

  /** The inner loop over one range. */
  method AppendInterval(cpus: seq<int>, lo: int, hi: int) returns (r: seq<int>)
    ensures r == cpus + Interval(lo, hi)
  {
    r := cpus;
    var i := lo;
    while i <= hi
      invariant lo <= i && (i <= hi + 1 || i == lo)
      invariant r == cpus + Interval(lo, i - 1)
    {
      r := r + [i];
      i := i + 1;
    }
    assert Interval(lo, i - 1) == Interval(lo, hi);
  }

  /** The loop's body: the numbers of one trimmed part. */
  method AppendPart(cpus: seq<int>, part: string) returns (r: Result<seq<int>, string>)
    ensures r == match ParsePart(part) case Ok(ys) => Ok(cpus + ys) case Err(e) => Err(e)
  {
    if part == "" {
      assert cpus + [] == cpus;
      return Ok(cpus);
    }
    var dash := IndexOf(part, '-');
    if dash >= 0 {
      var lo, hi := Atoi(part[..dash]), Atoi(part[dash + 1..]);
      if lo == None || hi == None {
        return Err("bad cpulist range: " + part);
      }
      var more := AppendInterval(cpus, lo.value, hi.value);
      return Ok(more);
    }
    var n := Atoi(part);
    if n == None {
      return Err("bad cpulist entry: " + part);
    }
    return Ok(cpus + [n.value]);
  }

  lemma ParsePartsNext(parts: seq<string>, k: nat)
    requires k < |parts|
    ensures ParseParts(parts[..k + 1]) ==
            match ParseParts(parts[..k])
            case Err(e) => Err(e)
            case Ok(xs) => match ParsePart(Trim(parts[k], IsSpace)) case Err(e) => Err(e) case Ok(ys) => Ok(xs + ys)
  {
    assert parts[..k + 1][..k] == parts[..k] && parts[..k + 1][k] == parts[k];
  }

  /** The parsing loop: it stops at the first bad part. */
  method ParseCPUList(s: string) returns (r: Result<seq<int>, string>)
    ensures r == Parse(s)
  {
    var parts := Split(Trim(s, IsSpace), ",");
    var cpus := [];
    for k := 0 to |parts|
      invariant ParseParts(parts[..k]) == Ok(cpus)
    {
      ParsePartsNext(parts, k);
      var next := AppendPart(cpus, Trim(parts[k], IsSpace));
      if next.Err? {
        EarlyErrorStays(parts, k + 1);
        return next;
      }
      cpus := next.value;
    }
    assert parts[..|parts|] == parts;
    return Ok(cpus);
  }

  // ---- The printer ----

  /** Each number is one more than the one before it. */
  ghost predicate Consecutive(xs: seq<int>) {
    forall i :: 0 <= i < |xs| ==> xs[i] == xs[0] + i
  }

  /** Length of the longest consecutive prefix. */
  function RunLength(xs: seq<int>): (n: nat)
    requires xs != []
    ensures 1 <= n <= |xs|
    ensures forall i :: 0 <= i < n ==> xs[i] == xs[0] + i
    ensures n < |xs| ==> xs[n] != xs[n - 1] + 1
  {
    if |xs| == 1 || xs[1] != xs[0] + 1 then 1 else 1 + RunLength(xs[1..])
  }

  datatype Run = Run(first: int, last: int)

  /** The maximal consecutive runs, in order. */
  function Runs(xs: seq<int>): seq<Run> {
    if xs == [] then [] else [Run(xs[0], xs[RunLength(xs) - 1])] + Runs(xs[RunLength(xs)..])
  }

  function PrintRun(r: Run): string {
    if r.first == r.last then Itoa(r.first) else Itoa(r.first) + "-" + Itoa(r.last)
  }

  function PrintRuns(runs: seq<Run>): (parts: seq<string>)
    ensures |parts| == |runs|
  {
    if runs == [] then [] else PrintRuns(runs[..|runs| - 1]) + [PrintRun(runs[|runs| - 1])]
  }

  lemma {:induction false} PrintRunsAt(runs: seq<Run>, i: nat)
    requires i < |runs|
    ensures PrintRuns(runs)[i] == PrintRun(runs[i])
  {
    if i < |runs| - 1 {
      PrintRunsAt(runs[..|runs| - 1], i);
    }
  }

  function Format(xs: seq<int>): string {
    Join(PrintRuns(Runs(xs)), ',')
  }

  lemma RunLengthIs(xs: seq<int>, n: nat)
    requires 1 <= n <= |xs| && Consecutive(xs[..n]) && (n < |xs| ==> xs[n] != xs[n - 1] + 1)
    ensures RunLength(xs) == n
  {
    if |xs| > 1 && n > 1 {
      assert xs[..n][1] == xs[..n][0] + 1;
      assert xs[1..][..n - 1] == xs[..n][1..];
      RunLengthIs(xs[1..], n - 1);
    }
  }

  /** A run that ends where the numbers stop being consecutive is the first of the rest. */
  lemma RunCloses(xs: seq<int>, j: nat, i: nat)
    requires j < i <= |xs| && Consecutive(xs[j..i]) && (i < |xs| ==> xs[i] != xs[i - 1] + 1)
    ensures Runs(xs[j..]) == [Run(xs[j], xs[i - 1])] + Runs(xs[i..])
  {
    assert xs[j..][..i - j] == xs[j..i];
    RunLengthIs(xs[j..], i - j);
    assert xs[j..][i - j..] == xs[i..];
  }

  /** What the printing loop knows: the printed runs, then one in progress from j to i. */
  ghost predicate Printing(xs: seq<int>, parts: seq<string>, done: seq<Run>, j: int, i: int) {
    && 0 <= j < i <= |xs| && Consecutive(xs[j..i])
    && Runs(xs) == done + Runs(xs[j..]) && parts == PrintRuns(done)
  }

  lemma PrintRunsAppend(runs: seq<Run>, r: Run)
    ensures PrintRuns(runs + [r]) == PrintRuns(runs) + [PrintRun(r)]
  {
    assert (runs + [r])[..|runs|] == runs;
  }

  lemma PrintingCloses(xs: seq<int>, parts: seq<string>, done: seq<Run>, j: int, i: int)
    requires Printing(xs, parts, done, j, i) && (i < |xs| ==> xs[i] != xs[i - 1] + 1)
    ensures Runs(xs) == (done + [Run(xs[j], xs[i - 1])]) + Runs(xs[i..])
  {
    RunCloses(xs, j, i);
    Regroup(Runs(xs), done, Runs(xs[j..]), Run(xs[j], xs[i - 1]), Runs(xs[i..]));
  }

  lemma Regroup(all: seq<Run>, done: seq<Run>, rest: seq<Run>, r: Run, later: seq<Run>)
    requires all == done + rest && rest == [r] + later
    ensures all == (done + [r]) + later
  {
  }

  lemma PrintingRestarts(xs: seq<int>, parts: seq<string>, done: seq<Run>, j: int, i: int)
    requires Printing(xs, parts, done, j, i) && i < |xs| && xs[i] != xs[i - 1] + 1
    ensures var r := Run(xs[j], xs[i - 1]); Printing(xs, parts + [PrintRun(r)], done + [r], i, i + 1)
  {
    var r := Run(xs[j], xs[i - 1]);
    PrintRunsAppend(done, r);
    PrintingCloses(xs, parts, done, j, i);
    PrintingStarts(xs, PrintRuns(done) + [PrintRun(r)], done + [r], i);
  }

  lemma PrintingStarts(xs: seq<int>, parts: seq<string>, done: seq<Run>, i: nat)
    requires i < |xs| && Runs(xs) == done + Runs(xs[i..]) && parts == PrintRuns(done)
    ensures Printing(xs, parts, done, i, i + 1)
  {
    assert |xs[i..i + 1]| == 1;
  }

  lemma FirstPrintingStarts(xs: seq<int>)
    requires xs != []
    ensures Printing(xs, [], [], 0, 1)
  {
    assert xs[0..] == xs && [] + Runs(xs) == Runs(xs);
    PrintingStarts(xs, [], [], 0);
  }

  lemma PrintingEnds(xs: seq<int>, parts: seq<string>, done: seq<Run>, j: int)
    requires Printing(xs, parts, done, j, |xs|)
    ensures Format(xs) == Join(parts + [PrintRun(Run(xs[j], xs[|xs| - 1]))], ',')
  {
    var r := Run(xs[j], xs[|xs| - 1]);
    PrintingCloses(xs, parts, done, j, |xs|);
    PrintRunsAppend(done, r);
    assert Runs(xs) == done + [r] + Runs([]) == done + [r];
  }

  lemma PrintingContinues(xs: seq<int>, parts: seq<string>, done: seq<Run>, j: int, i: int)
    requires Printing(xs, parts, done, j, i) && i < |xs| && xs[i] == xs[i - 1] + 1
    ensures Printing(xs, parts, done, j, i + 1)
  {
    assert xs[j..i + 1] == xs[j..i] + [xs[i]];
  }

  /** The printing loop: j is where the current run starts. */
  method FormatCPUList(xs: seq<int>) returns (s: string)
    ensures s == Format(xs)
  {
    if |xs| == 0 {
      return "";
    }
    var parts := [];
    var start, prev := xs[0], xs[0];
    ghost var j, done := 0, [];
    FirstPrintingStarts(xs);
    for i := 1 to |xs|
      invariant Printing(xs, parts, done, j, i) && start == xs[j] && prev == xs[i - 1]
    {
      if xs[i] == prev + 1 {
        PrintingContinues(xs, parts, done, j, i);
        prev := xs[i];
      } else {
        PrintingRestarts(xs, parts, done, j, i);
        parts := parts + [PrintRun(Run(start, prev))];
        done := done + [Run(start, prev)];
        start, prev, j := xs[i], xs[i], i;
      }
    }
    PrintingEnds(xs, parts, done, j);
    s := Join(parts + [PrintRun(Run(start, prev))], ',');
  }

  // ---- Round trip ----

  /** The numbers of all runs in order. */
  function Expand(runs: seq<Run>): seq<int> {
    if runs == [] then [] else Expand(runs[..|runs| - 1]) + Interval(runs[|runs| - 1].first, runs[|runs| - 1].last)
  }

  lemma {:induction false} ExpandCons(r: Run, runs: seq<Run>)
    ensures Expand([r] + runs) == Interval(r.first, r.last) + Expand(runs)
  {
    if runs == [] {
      assert ([r] + runs)[..0] == [];
    } else {
      var init, last := runs[..|runs| - 1], runs[|runs| - 1];
      ExpandCons(r, init);
      assert ([r] + runs)[..|runs|] == [r] + init;
      var a, b, c := Interval(r.first, r.last), Expand(init), Interval(last.first, last.last);
      assert a + b + c == a + (b + c);
    }
  }

  lemma {:induction false} RunsExpand(xs: seq<int>)
    ensures Expand(Runs(xs)) == xs
  {
    if xs != [] {
      var n := RunLength(xs);
      RunsExpand(xs[n..]);
      PrefixIsInterval(xs);
      FirstRunExpands(xs, n, Run(xs[0], xs[n - 1]), Runs(xs[n..]));
    }
  }

  lemma FirstRunExpands(xs: seq<int>, n: nat, r: Run, later: seq<Run>)
    requires n <= |xs| && Expand(later) == xs[n..] && xs[..n] == Interval(r.first, r.last)
    ensures Expand([r] + later) == xs
  {
    ExpandCons(r, later);
    assert xs == xs[..n] + xs[n..];
  }

  lemma PrefixIsInterval(xs: seq<int>)
    requires xs != []
    ensures xs[..RunLength(xs)] == Interval(xs[0], xs[RunLength(xs) - 1])
  {
    var n := RunLength(xs);
    var run := Interval(xs[0], xs[n - 1]);
    assert |run| == n && forall i :: 0 <= i < n ==> xs[..n][i] == run[i];
  }

  lemma {:induction false} RunsAreOrdered(xs: seq<int>)
    requires NonNegative(xs)
    ensures forall i :: 0 <= i < |Runs(xs)| ==> 0 <= Runs(xs)[i].first <= Runs(xs)[i].last
  {
    if xs != [] {
      RunsAreOrdered(xs[RunLength(xs)..]);
    }
  }

  lemma {:induction false} DashIsFound(a: string, b: string)
    requires '-' !in a
    ensures IndexOf(a + "-" + b, '-') == |a|
  {
    var part := a + "-" + b;
    if a != [] {
      DashIsFound(a[1..], b);
      assert part[1..] == a[1..] + "-" + b;
      assert a[0] in a;
    }
  }

  lemma DigitsAreNot(s: string, c: char)
    requires AllDigits(s) && !IsDigit(c)
    ensures c !in s
  {
  }

  lemma PrintedPairParses(lo: nat, hi: nat)
    ensures ParsePart(PrintNat(lo) + "-" + PrintNat(hi)) == Ok(Interval(lo, hi))
  {
    AtoiPrinted(lo);
    AtoiPrinted(hi);
    DigitsAreNot(PrintNat(lo), '-');
    DashedPairParses(PrintNat(lo), PrintNat(hi), lo, hi);
  }

  lemma DashedPairParses(a: string, b: string, lo: int, hi: int)
    requires '-' !in a && Atoi(a) == Some(lo) && Atoi(b) == Some(hi)
    ensures ParsePart(a + "-" + b) == Ok(Interval(lo, hi))
  {
    var part := a + "-" + b;
    DashIsFound(a, b);
    assert part[..|a|] == a && part[|a| + 1..] == b;
  }

  lemma PrintedPartParses(r: Run)
    requires 0 <= r.first <= r.last
    ensures ParsePart(PrintRun(r)) == Ok(Interval(r.first, r.last))
  {
    if r.first == r.last {
      AtoiPrinted(r.first);
      DigitsAreNot(PrintNat(r.first), '-');
      assert Interval(r.first, r.last) == [r.first];
    } else {
      PrintedPairParses(r.first, r.last);
    }
  }

  /** A part that is not empty, has no comma, and neither starts nor ends with a space. */
  ghost predicate CleanPart(p: string) {
    p != "" && ',' !in p && !IsSpace(p[0]) && !IsSpace(p[|p| - 1])
  }

  lemma PrintedPartIsClean(r: Run)
    requires 0 <= r.first <= r.last
    ensures CleanPart(PrintRun(r))
  {
    DigitsAreNot(PrintNat(r.first), ',');
    DigitsAreNot(PrintNat(r.last), ',');
  }

  lemma {:induction false} PrintedRunsParse(runs: seq<Run>)
    requires forall i :: 0 <= i < |runs| ==> 0 <= runs[i].first <= runs[i].last
    ensures ParseParts(PrintRuns(runs)) == Ok(Expand(runs))
  {
    if runs != [] {
      var r := runs[|runs| - 1];
      PrintedRunsParse(runs[..|runs| - 1]);
      PrintedPartParses(r);
      PrintedPartIsClean(r);
      assert Trim(PrintRun(r), IsSpace) == PrintRun(r);
      assert PrintRuns(runs)[..|runs| - 1] == PrintRuns(runs[..|runs| - 1]);
    }
  }

  lemma {:induction false} JoinEnds(parts: seq<string>, sep: char)
    requires parts != [] && forall i :: 0 <= i < |parts| ==> CleanPart(parts[i])
    ensures var s := Join(parts, sep); s != "" && !IsSpace(s[0]) && !IsSpace(s[|s| - 1])
  {
    assert CleanPart(parts[0]);
    if |parts| > 1 {
      JoinEnds(parts[1..], sep);
    }
  }

  ghost predicate NonNegative(xs: seq<int>) {
    forall i :: 0 <= i < |xs| ==> xs[i] >= 0
  }

  /** What is printed splits into the printed runs. */
  lemma FormatSplits(xs: seq<int>)
    requires NonNegative(xs) && xs != []
    ensures Split(Trim(Format(xs), IsSpace), ",") == PrintRuns(Runs(xs))
  {
    var runs := Runs(xs);
    var parts := PrintRuns(runs);
    RunsAreOrdered(xs);
    forall i | 0 <= i < |parts| ensures CleanPart(parts[i]) {
      PrintRunsAt(runs, i);
      PrintedPartIsClean(runs[i]);
    }
    JoinEnds(parts, ',');
    assert Trim(Format(xs), IsSpace) == Format(xs);
    SplitJoin(parts, ',');
  }

  lemma ParseFormatOfNothing()
    ensures Format([]) == "" && Parse("") == Ok([])
  {
    SplitNothing("", ',');
    var none: seq<int> := [];
    assert [""][..0] == [] && none + none == none;
    assert ParsePart(Trim("", IsSpace)) == Ok(none);
  }

  /** Parsing what was printed gives the list back. */
  lemma ParseFormat(xs: seq<int>)
    requires NonNegative(xs)
    ensures Parse(Format(xs)) == Ok(xs)
  {
    if xs == [] {
      ParseFormatOfNothing();
    } else {
      FormatSplits(xs);
      RunsAreOrdered(xs);
      PrintedRunsParse(Runs(xs));
      RunsExpand(xs);
    }
  }

  lemma UnsignedIsNonNegative(s: string)
    requires '-' !in s && Atoi(s).Some?
    ensures Atoi(s).value >= 0
  {
    assert s[0] in s;
  }

  lemma PartIsNonNegative(part: string)
    requires ParsePart(part).Ok?
    ensures NonNegative(ParsePart(part).value)
  {
    var dash := IndexOf(part, '-');
    if part != "" && dash >= 0 {
      UnsignedIsNonNegative(part[..dash]);
    } else if part != "" {
      UnsignedIsNonNegative(part);
    }
  }

  lemma {:induction false} PartsAreNonNegative(parts: seq<string>)
    requires ParseParts(parts).Ok?
    ensures NonNegative(ParseParts(parts).value)
  {
    if parts != [] {
      PartsAreNonNegative(parts[..|parts| - 1]);
      PartIsNonNegative(Trim(parts[|parts| - 1], IsSpace));
    }
  }

  /** Whatever parses is printed in a form that parses to the same list. */
  lemma FormatParsed(s: string)
    requires Parse(s).Ok?
    ensures Parse(Format(Parse(s).value)) == Parse(s)
  {
    PartsAreNonNegative(Split(Trim(s, IsSpace), ","));
    ParseFormat(Parse(s).value);
  }

  // ---- Fewest ranges ----

  /** The places where the list does not continue consecutively. */
  function Breaks(xs: seq<int>): nat {
    if |xs| <= 1 then 0
    else Breaks(xs[..|xs| - 1]) + (if xs[|xs| - 1] == xs[|xs| - 2] + 1 then 0 else 1)
  }

  /** Whether a break lies between two lists. */
  function Seam(xs: seq<int>, ys: seq<int>): nat {
    if xs == [] || ys == [] || ys[0] == xs[|xs| - 1] + 1 then 0 else 1
  }

  lemma {:induction false} BreaksConcat(xs: seq<int>, ys: seq<int>)
    ensures Breaks(xs + ys) == Breaks(xs) + Seam(xs, ys) + Breaks(ys)
  {
    if ys == [] {
      assert xs + ys == xs;
    } else if |ys| == 1 {
      assert (xs + ys)[..|xs|] == xs;
    } else {
      var init := ys[..|ys| - 1];
      BreaksConcat(xs, init);
      assert (xs + ys)[..|xs + ys| - 1] == xs + init;
    }
  }

  lemma {:induction false} NoBreaks(xs: seq<int>)
    requires Consecutive(xs)
    ensures Breaks(xs) == 0
  {
    if |xs| > 1 {
      NoBreaks(xs[..|xs| - 1]);
    }
  }

  lemma BreakAfterRun(a: seq<int>, b: seq<int>)
    requires a != [] && Consecutive(a) && (b != [] ==> b[0] != a[|a| - 1] + 1)
    ensures Breaks(a + b) == Breaks(b) + (if b == [] then 0 else 1)
  {
    NoBreaks(a);
    BreaksConcat(a, b);
  }

  lemma FirstRunIsConsecutive(xs: seq<int>)
    requires xs != []
    ensures Consecutive(xs[..RunLength(xs)])
  {
    assert forall i :: 0 <= i < RunLength(xs) ==> xs[i] == xs[0] + i;
  }

  lemma BreakAfterFirstRun(xs: seq<int>, n: nat)
    requires 0 < n <= |xs| && Consecutive(xs[..n]) && (n < |xs| ==> xs[n] != xs[n - 1] + 1)
    ensures Breaks(xs) == Breaks(xs[n..]) + (if n < |xs| then 1 else 0)
  {
    assert xs == xs[..n] + xs[n..];
    BreakAfterRun(xs[..n], xs[n..]);
  }

  /** There is one run more than there are breaks. */
  lemma {:induction false} RunsAreBreaks(xs: seq<int>)
    ensures |Runs(xs)| == if xs == [] then 0 else Breaks(xs) + 1
  {
    if xs != [] {
      RunsAreBreaks(xs[RunLength(xs)..]);
      FirstRunIsConsecutive(xs);
      BreakAfterFirstRun(xs, RunLength(xs));
    }
  }

  /** Appending one consecutive piece adds at most one run. */
  lemma PieceAddsOneRun(xs: seq<int>, ys: seq<int>)
    requires Consecutive(ys)
    ensures |Runs(xs + ys)| <= |Runs(xs)| + 1
  {
    NoBreaks(ys);
    BreaksConcat(xs, ys);
    RunsAreBreaks(xs);
    RunsAreBreaks(xs + ys);
  }

  lemma {:induction false} PartsNeedBreaks(parts: seq<string>)
    requires ParseParts(parts).Ok?
    ensures |Runs(ParseParts(parts).value)| <= |parts|
  {
    if parts == [] {
      assert Runs([]) == [];
    } else {
      var before, part := ParseParts(parts[..|parts| - 1]), ParsePart(Trim(parts[|parts| - 1], IsSpace));
      PartsNeedBreaks(parts[..|parts| - 1]);
      PartIsConsecutive(Trim(parts[|parts| - 1], IsSpace));
      PieceAddsOneRun(before.value, part.value);
    }
  }

  lemma PartIsConsecutive(part: string)
    requires ParsePart(part).Ok?
    ensures Consecutive(ParsePart(part).value)
  {
  }

  /** No text that parses to the list has fewer parts than the printed one. */
  lemma FormatUsesFewestParts(xs: seq<int>, s: string)
    requires xs != [] && Parse(s) == Ok(xs)
    ensures |Split(Trim(Format(xs), IsSpace), ",")| <= |Split(Trim(s, IsSpace), ",")|
  {
    PartsAreNonNegative(Split(Trim(s, IsSpace), ","));
    FormatSplits(xs);
    PartsNeedBreaks(Split(Trim(s, IsSpace), ","));
  }

  // ---- What the parser accepts ----

  lemma {:induction false} AlikeParse(ps: seq<string>, qs: seq<string>)
    requires Alike(ps, qs, IsSpace)
    ensures ParseParts(ps) == ParseParts(qs)
  {
    if ps != [] {
      AlikeParse(ps[..|ps| - 1], qs[..|qs| - 1]);
    }
  }

  /** Space around the whole list makes no difference. */
  lemma OuterSpaceIsIgnored(s: string)
    ensures Parse(s) == ParseParts(Split(s, ","))
  {
    TrimmedSplitsAlike(s, ',', IsSpace);
    AlikeParse(Split(Trim(s, IsSpace), ","), Split(s, ","));
  }

  /** One entry of a list: nothing, a number, or a range. */
  datatype Entry = Nothing | One(n: nat) | Range(lo: nat, hi: nat)

  /** An entry with space around it. */
  datatype Padded = Padded(before: string, entry: Entry, after: string)

  predicate Blank(s: string) {
    forall i :: 0 <= i < |s| ==> IsSpace(s[i])
  }

  function Written(e: Entry): string {
    match e
    case Nothing => ""
    case One(n) => PrintNat(n)
    case Range(lo, hi) => PrintNat(lo) + "-" + PrintNat(hi)
  }

  /** A range that ends before it starts means nothing. */
  function Meant(e: Entry): seq<int> {
    match e
    case Nothing => []
    case One(n) => [n]
    case Range(lo, hi) => Interval(lo, hi)
  }

  function WrittenAll(ps: seq<Padded>): seq<string> {
    seq(|ps|, i requires 0 <= i < |ps| => ps[i].before + Written(ps[i].entry) + ps[i].after)
  }

  function MeantAll(ps: seq<Padded>): seq<int> {
    if ps == [] then [] else MeantAll(ps[..|ps| - 1]) + Meant(ps[|ps| - 1].entry)
  }

  lemma EntryIsRead(p: Padded)
    requires Blank(p.before) && Blank(p.after)
    ensures ParsePart(Trim(p.before + Written(p.entry) + p.after, IsSpace)) == Ok(Meant(p.entry))
  {
    TrimAround(p.before, Written(p.entry), p.after, IsSpace);
    match p.entry {
      case Nothing =>
      case One(n) =>
        AtoiPrinted(n);
        DigitsAreNot(PrintNat(n), '-');
      case Range(lo, hi) =>
        PrintedPairParses(lo, hi);
    }
  }

  lemma {:induction false} EntriesParse(ps: seq<Padded>)
    requires forall i :: 0 <= i < |ps| ==> Blank(ps[i].before) && Blank(ps[i].after)
    ensures ParseParts(WrittenAll(ps)) == Ok(MeantAll(ps))
  {
    if ps != [] {
      EntriesParse(ps[..|ps| - 1]);
      EntryIsRead(ps[|ps| - 1]);
      assert WrittenAll(ps)[..|ps| - 1] == WrittenAll(ps[..|ps| - 1]);
    }
  }

  lemma NoCommaWritten(p: Padded)
    requires Blank(p.before) && Blank(p.after)
    ensures ',' !in p.before + Written(p.entry) + p.after
  {
    match p.entry {
      case Nothing =>
      case One(n) => DigitsAreNot(PrintNat(n), ',');
      case Range(lo, hi) =>
        DigitsAreNot(PrintNat(lo), ',');
        DigitsAreNot(PrintNat(hi), ',');
    }
  }

  /** Any list of numbers, ranges and empty entries, with any space around them, is read as it is meant. */
  lemma EntriesAreRead(ps: seq<Padded>)
    requires ps != [] && forall i :: 0 <= i < |ps| ==> Blank(ps[i].before) && Blank(ps[i].after)
    ensures Parse(Join(WrittenAll(ps), ',')) == Ok(MeantAll(ps))
  {
    forall p | p in WrittenAll(ps) ensures ',' !in p {
      var i :| 0 <= i < |ps| && WrittenAll(ps)[i] == p;
      NoCommaWritten(ps[i]);
    }
    SplitJoin(WrittenAll(ps), ',');
    OuterSpaceIsIgnored(Join(WrittenAll(ps), ','));
    EntriesParse(ps);
  }

  /** One bad part fails the whole list, with the first bad part's error. */
  lemma {:induction false} FirstBadPartFails(parts: seq<string>, k: nat)
    requires k < |parts| && ParsePart(Trim(parts[k], IsSpace)).Err?
    requires forall i :: 0 <= i < k ==> ParsePart(Trim(parts[i], IsSpace)).Ok?
    ensures ParseParts(parts) == ParsePart(Trim(parts[k], IsSpace))
  {
    GoodPartsParse(parts[..k]);
    ParsePartsNext(parts, k);
    EarlyErrorStays(parts, k + 1);
  }

  lemma {:induction false} GoodPartsParse(parts: seq<string>)
    requires forall i :: 0 <= i < |parts| ==> ParsePart(Trim(parts[i], IsSpace)).Ok?
    ensures ParseParts(parts).Ok?
  {
    if parts != [] {
      GoodPartsParse(parts[..|parts| - 1]);
    }
  }

  /** A part that holds anything but digits and signs is bad. */
  lemma OddCharacterIsBad(part: string, c: char)
    requires c in part && !IsDigit(c) && c != '+' && c != '-'
    ensures ParsePart(part).Err?
  {
    var dash := IndexOf(part, '-');
    if dash >= 0 {
      assert part == part[..dash] + "-" + part[dash + 1..];
      if c in part[..dash] {
        OddCharacterIsNoNumber(part[..dash], c);
      } else {
        OddCharacterIsNoNumber(part[dash + 1..], c);
      }
    } else {
      OddCharacterIsNoNumber(part, c);
    }
  }

  lemma OddCharacterIsNoNumber(s: string, c: char)
    requires c in s && !IsDigit(c) && c != '+' && c != '-'
    ensures Atoi(s) == None
  {
    var i :| 0 <= i < |s| && s[i] == c;
    if s[0] == '+' || s[0] == '-' {
      assert s[1..][i - 1] == c;
    }
  }
}
