/**
 * Text handling of the search index: lower-casing, token splitting, substring tests
 * (commandcenter/searchd/index/index.go).
 *
 * The Unicode tables are a parameter, so every result holds whatever the tables say.
 */
module SearchText {
  import opened Wrappers

  /** The character tables: lower-casing, letters and digits, white space, and UTF-8 length in bytes. */
  datatype Unicode = Unicode(lower: char -> char, isWord: char -> bool, isSpace: char -> bool, width: char -> nat)

  function Lower(u: Unicode, s: string): string {
    seq(|s|, i requires 0 <= i < |s| => u.lower(s[i]))
  }

  /** `strings.Contains`. */
  predicate Contains(s: string, part: string) {
    exists i :: 0 <= i <= |s| && part <= s[i..]
  }

  /** A text contains a part exactly when it is something, the part, and something. */
  lemma ContainsMeaning(s: string, part: string)
    ensures Contains(s, part) <==> exists a: string, b: string :: s == a + part + b
  {
    if Contains(s, part) {
      var i :| 0 <= i <= |s| && part <= s[i..];
      assert s == s[..i] + part + s[i..][|part|..];
    }
    if a: string, b: string :| s == a + part + b {
      assert s[|a|..] == part + b;
    }
  }

  lemma LowerOfThree(u: Unicode, a: string, m: string, b: string)
    ensures Lower(u, a + m + b) == Lower(u, a) + Lower(u, m) + Lower(u, b)
  {
  }

  /** A part of a text is found in it, whatever the case. */
  lemma PartIsContained(u: Unicode, a: string, m: string, b: string, q: string)
    requires Lower(u, m) == q
    ensures Contains(Lower(u, a + m + b), q)
  {
    LowerOfThree(u, a, m, b);
    ContainsMeaning(Lower(u, a + m + b), q);
  }

  /** `filepath.Base` on a Unix path. */
  function Base(path: string): string {
    if path == [] then "."
    else if Stripped(path) == [] then "/"
    else AfterSlash(Stripped(path))
  }

  function Stripped(path: string): string {
    if path != [] && path[|path| - 1] == '/' then Stripped(path[..|path| - 1]) else path
  }

  function AfterSlash(path: string): string {
    if path == [] || path[|path| - 1] == '/' then []
    else AfterSlash(path[..|path| - 1]) + [path[|path| - 1]]
  }

  lemma {:induction false} AfterSlashIsName(dir: string, name: string)
    requires '/' !in name && (dir == "" || dir[|dir| - 1] == '/')
    ensures AfterSlash(dir + name) == name
  {
    var path := dir + name;
    if name == "" {
      assert path == dir;
    } else {
      assert path[..|path| - 1] == dir + name[..|name| - 1] && path[|path| - 1] == name[|name| - 1];
      AfterSlashIsName(dir, name[..|name| - 1]);
    }
  }

  lemma {:induction false} SlashesAreStripped(path: string, slashes: string)
    requires forall i :: 0 <= i < |slashes| ==> slashes[i] == '/'
    requires path == "" || path[|path| - 1] != '/'
    ensures Stripped(path + slashes) == path
  {
    if slashes == "" {
      assert path + slashes == path;
    } else {
      var all := path + slashes;
      assert all[|all| - 1] == slashes[|slashes| - 1];
      assert all[..|all| - 1] == path + slashes[..|slashes| - 1];
      SlashesAreStripped(path, slashes[..|slashes| - 1]);
    }
  }

  /** The base of a path is its last element, whatever slashes follow it. */
  lemma BaseIsLastElement(dir: string, name: string, slashes: string)
    requires name != "" && '/' !in name && (dir == "" || dir[|dir| - 1] == '/')
    requires forall i :: 0 <= i < |slashes| ==> slashes[i] == '/'
    ensures Base(dir + name + slashes) == name
  {
    SlashesAreStripped(dir + name, slashes);
    AfterSlashIsName(dir, name);
  }

  /** Length in bytes of the UTF-8 form, which is what Go's `len` reports. */
  function Bytes(u: Unicode, s: string): nat {
    if s == [] then 0 else u.width(s[0]) + Bytes(u, s[1..])
  }

  function WordPrefix(u: Unicode, s: string): (n: nat)
    ensures n <= |s|
    ensures forall i :: 0 <= i < n ==> u.isWord(s[i])
    ensures n < |s| ==> !u.isWord(s[n])
  {
    if s == [] || !u.isWord(s[0]) then 0 else 1 + WordPrefix(u, s[1..])
  }

  /** `strings.FieldsFunc` with the separator test of `tokenise`. */
  function Fields(u: Unicode, s: string): seq<string>
    decreases |s|
  {
    if s == [] then []
    else if !u.isWord(s[0]) then Fields(u, s[1..])
    else [s[..WordPrefix(u, s)]] + Fields(u, s[WordPrefix(u, s)..])
  }

  /** s[i..j] is a maximal non-empty run of word characters. */
  ghost predicate IsRun(u: Unicode, s: string, i: int, j: int) {
    && 0 <= i < j <= |s|
    && (forall k :: i <= k < j ==> u.isWord(s[k]))
    && (i > 0 ==> !u.isWord(s[i - 1]))
    && (j < |s| ==> !u.isWord(s[j]))
  }

  /** The string is a maximal run of word characters of the text. */
  ghost predicate HasRun(u: Unicode, s: string, w: string) {
    exists i, j :: IsRun(u, s, i, j) && s[i..j] == w
  }

  /** A word is a token of a text: a maximal run of its lower-cased form, at least two bytes long. */
  ghost predicate IsToken(u: Unicode, text: string, w: string) {
    Bytes(u, w) >= 2 && HasRun(u, Lower(u, text), w)
  }

  /** Dropping a prefix that ends at a run boundary shifts the runs behind it. */
  lemma RunShift(u: Unicode, s: string, n: nat, i: int, j: int)
    requires 0 < n <= |s| && n <= i < j
    requires n < |s| && u.isWord(s[n]) ==> !u.isWord(s[n - 1])
    ensures IsRun(u, s, i, j) <==> IsRun(u, s[n..], i - n, j - n)
    ensures IsRun(u, s, i, j) ==> s[i..j] == s[n..][i - n..j - n]
  {
    var t := s[n..];
    assert forall k :: 0 <= k < |t| ==> t[k] == s[n + k];
    if IsRun(u, t, i - n, j - n) {
      forall k | i <= k < j ensures u.isWord(s[k]) {
        assert u.isWord(t[k - n]);
      }
    }
  }

  /** A run behind a run boundary is a run of the whole. */
  lemma RunBehind(u: Unicode, s: string, n: nat, w: string)
    requires 0 < n <= |s| && HasRun(u, s[n..], w)
    requires n < |s| && u.isWord(s[n]) ==> !u.isWord(s[n - 1])
    ensures HasRun(u, s, w)
  {
    var i, j :| IsRun(u, s[n..], i, j) && s[n..][i..j] == w;
    RunShift(u, s, n, i + n, j + n);
  }

  /** Every field is a maximal run. */
  lemma {:induction false} FieldIsRun(u: Unicode, s: string, w: string)
    requires w in Fields(u, s)
    ensures HasRun(u, s, w)
    decreases |s|
  {
    if !u.isWord(s[0]) {
      FieldIsRun(u, s[1..], w);
      RunBehind(u, s, 1, w);
    } else if w == s[..WordPrefix(u, s)] {
      assert IsRun(u, s, 0, WordPrefix(u, s));
    } else {
      FieldIsRun(u, s[WordPrefix(u, s)..], w);
      RunBehind(u, s, WordPrefix(u, s), w);
    }
  }

  /** Every maximal run is a field. */
  lemma {:induction false} RunIsField(u: Unicode, s: string, i: int, j: int)
    requires IsRun(u, s, i, j)
    ensures s[i..j] in Fields(u, s)
    decreases |s|
  {
    var n := if u.isWord(s[0]) then WordPrefix(u, s) else 1;
    if i >= n {
      RunShift(u, s, n, i, j);
      RunIsField(u, s[n..], i - n, j - n);
    } else {
      assert u.isWord(s[i]);
      assert i == 0;
      assert j == n;
    }
  }

  /** The fields of a string are exactly its maximal runs. */
  lemma FieldsAreRuns(u: Unicode, s: string, w: string)
    ensures w in Fields(u, s) <==> HasRun(u, s, w)
  {
    if w in Fields(u, s) {
      FieldIsRun(u, s, w);
    }
    if i, j :| IsRun(u, s, i, j) && s[i..j] == w {
      RunIsField(u, s, i, j);
    }
  }

  // ---- Tokens of a text put together from parts ----

  /** A space, lower-cased, is not part of a word. */
  predicate SpaceSeparates(u: Unicode) {
    !u.isWord(u.lower(' '))
  }

  /** No run goes across a character that is not part of a word. */
  lemma RunOfEitherPart(u: Unicode, a: string, c: char, b: string, w: string)
    requires !u.isWord(c) && HasRun(u, a + [c] + b, w)
    ensures HasRun(u, a, w) || HasRun(u, b, w)
  {
    var s, n := a + [c] + b, |a| + 1;
    var i, j :| IsRun(u, s, i, j) && s[i..j] == w;
    assert s[|a|] == c;
    if j <= |a| {
      assert forall k :: 0 <= k < |a| ==> s[k] == a[k];
      assert IsRun(u, a, i, j) && a[i..j] == w;
    } else {
      assert i > |a|;
      RunShift(u, s, n, i, j);
      assert s[n..] == b;
      assert IsRun(u, b, i - n, j - n) && b[i - n..j - n] == w;
    }
  }

  lemma RunOfFirstPart(u: Unicode, a: string, c: char, b: string, w: string)
    requires !u.isWord(c) && HasRun(u, a, w)
    ensures HasRun(u, a + [c] + b, w)
  {
    var s := a + [c] + b;
    var i, j :| IsRun(u, a, i, j) && a[i..j] == w;
    assert forall k :: 0 <= k < |a| ==> s[k] == a[k];
    assert IsRun(u, s, i, j) && s[i..j] == w;
  }

  lemma RunOfSecondPart(u: Unicode, a: string, c: char, b: string, w: string)
    requires !u.isWord(c) && HasRun(u, b, w)
    ensures HasRun(u, a + [c] + b, w)
  {
    var s, n := a + [c] + b, |a| + 1;
    var i, j :| IsRun(u, b, i, j) && b[i..j] == w;
    assert s[n..] == b && s[|a|] == c;
    RunShift(u, s, n, i + n, j + n);
    assert IsRun(u, s, i + n, j + n) && s[i + n..j + n] == w;
  }

  lemma LowerOfParts(u: Unicode, a: string, b: string)
    ensures Lower(u, a + " " + b) == Lower(u, a) + [u.lower(' ')] + Lower(u, b)
  {
  }

  /** The tokens of two texts joined by a space are the tokens of either. */
  lemma TokensOfParts(u: Unicode, a: string, b: string, w: string)
    requires SpaceSeparates(u)
    ensures IsToken(u, a + " " + b, w) <==> IsToken(u, a, w) || IsToken(u, b, w)
  {
    var x, y := Lower(u, a), Lower(u, b);
    LowerOfParts(u, a, b);
    if HasRun(u, x + [u.lower(' ')] + y, w) {
      RunOfEitherPart(u, x, u.lower(' '), y, w);
    }
    if HasRun(u, x, w) {
      RunOfFirstPart(u, x, u.lower(' '), y, w);
    }
    if HasRun(u, y, w) {
      RunOfSecondPart(u, x, u.lower(' '), y, w);
    }
  }

  lemma NoTokenOfNothing(u: Unicode, w: string)
    ensures !IsToken(u, "", w)
  {
  }

  /** The loop of `tokenise`: short fields dropped, the rest kept once, in order of first occurrence. */
  method Tokenise(u: Unicode, text: string) returns (out: seq<string>)
    ensures Distinct(out)
    ensures forall w :: w in out <==> IsToken(u, text, w)
  {
    var fields := Fields(u, Lower(u, text));
    out := [];
    for i := 0 to |fields|
      invariant Distinct(out)
      invariant forall w :: w in out <==> w in fields[..i] && Bytes(u, w) >= 2
    {
      if Bytes(u, fields[i]) >= 2 && fields[i] !in out {
        out := out + [fields[i]];
      }
    }
    assert fields[..|fields|] == fields;
    forall w ensures w in out <==> IsToken(u, text, w) {
      FieldsAreRuns(u, Lower(u, text), w);
    }
  }
}
