/** Trimming, and splitting at a separator as Go's `strings.Split` and JavaScript's `split` do it. */
module Splitting {
  /** The text without such elements at its ends. */
  function Trim<T>(s: seq<T>, drop: T -> bool): seq<T> {
    if s == [] then []
    else if drop(s[0]) then Trim(s[1..], drop)
    else if drop(s[|s| - 1]) then Trim(s[..|s| - 1], drop)
    else s
  }

  /** One more element that is dropped, at the end. */
  lemma {:induction false} TrimLast<T>(s: seq<T>, c: T, drop: T -> bool)
    requires drop(c)
    ensures Trim(s + [c], drop) == Trim(s, drop)
  {
    var t := s + [c];
    if s == [] {
      assert t[1..] == [];
    } else if drop(s[0]) {
      TrimLast(s[1..], c, drop);
      assert t[1..] == s[1..] + [c];
    } else {
      assert t[..|t| - 1] == s;
    }
  }

  /** Elements around a text that starts and ends with others are dropped. */
  lemma {:induction false} TrimAround<T>(before: seq<T>, s: seq<T>, after: seq<T>, drop: T -> bool)
    requires forall i :: 0 <= i < |before| ==> drop(before[i])
    requires forall i :: 0 <= i < |after| ==> drop(after[i])
    requires s != [] ==> !drop(s[0]) && !drop(s[|s| - 1])
    ensures Trim(before + s + after, drop) == s
    decreases |before| + |after|
  {
    var t := before + s + after;
    if after != [] {
      var init, last := after[..|after| - 1], after[|after| - 1];
      TrimAround(before, s, init, drop);
      assert t == before + s + init + [last];
      TrimLast(before + s + init, last, drop);
    } else if before != [] {
      TrimAround(before[1..], s, after, drop);
      assert t[1..] == before[1..] + s + after;
    } else {
      assert t == s;
    }
  }

  predicate At<T(==)>(s: seq<T>, sep: seq<T>, i: nat) {
    i + |sep| <= |s| && s[i..i + |sep|] == sep
  }

  lemma AtTail<T>(s: seq<T>, sep: seq<T>, i: nat)
    requires s != []
    ensures At(s, sep, i + 1) <==> At(s[1..], sep, i)
  {
    if i + 1 + |sep| <= |s| {
      assert s[1..][i..i + |sep|] == s[i + 1..i + 1 + |sep|];
    }
  }

  /** The first occurrence of the separator, or the length of the text. */
  function Find<T(==)>(s: seq<T>, sep: seq<T>): (i: nat)
    requires sep != []
    ensures i <= |s|
    ensures i < |s| ==> At(s, sep, i)
  {
    if |s| < |sep| then |s|
    else if s[..|sep|] == sep then 0
    else
      AtTail(s, sep, Find(s[1..], sep));
      1 + Find(s[1..], sep)
  }

  lemma {:induction false} FindIsFirst<T>(s: seq<T>, sep: seq<T>, j: nat)
    requires sep != [] && At(s, sep, j)
    ensures Find(s, sep) <= j
  {
    if j > 0 && s[..|sep|] != sep {
      AtTail(s, sep, j - 1);
      FindIsFirst(s[1..], sep, j - 1);
    }
  }

  function Split<T(==)>(s: seq<T>, sep: seq<T>): (parts: seq<seq<T>>)
    requires sep != []
    ensures |parts| >= 1
    decreases |s|
  {
    var i := Find(s, sep);
    if i == |s| then [s] else [s[..i]] + Split(s[i + |sep|..], sep)
  }

  /** An occurrence that no earlier one overlaps is the one that is found. */
  lemma FindIs<T>(s: seq<T>, sep: seq<T>, i: nat)
    requires sep != [] && At(s, sep, i)
    requires forall j: nat :: j < i ==> !At(s, sep, j)
    ensures Find(s, sep) == i
  {
    FindIsFirst(s, sep, i);
  }

  lemma AtPrefix<T>(s: seq<T>, more: seq<T>, sep: seq<T>, i: nat)
    requires i + |sep| <= |s|
    ensures At(s + more, sep, i) <==> At(s, sep, i)
  {
    assert (s + more)[i..i + |sep|] == s[i..i + |sep|];
  }

  /** Text up to a separator is the first part. */
  lemma SplitPart<T>(part: seq<T>, sep: seq<T>, rest: seq<T>)
    requires sep != []
    requires forall j: nat :: j < |part| ==> !At(part + sep, sep, j)
    ensures Split(part + sep + rest, sep) == [part] + Split(rest, sep)
  {
    var s := part + sep + rest;
    forall j: nat | j <= |part|
      ensures At(s, sep, j) <==> At(part + sep, sep, j)
    {
      AtPrefix(part + sep, rest, sep, j);
    }
    FindIs(s, sep, |part|);
    assert s[..|part|] == part && s[|part| + |sep|..] == rest;
  }

  lemma FindConcat<T>(x: seq<T>, y: seq<T>, sep: seq<T>)
    requires sep != [] && Find(x, sep) < |x|
    ensures Find(x + y, sep) == Find(x, sep)
  {
    var i := Find(x, sep);
    forall j: nat | j <= i
      ensures At(x + y, sep, j) <==> j == i
    {
      AtPrefix(x, y, sep, j);
      if At(x, sep, j) {
        FindIsFirst(x, sep, j);
      }
    }
    FindIs(x + y, sep, i);
  }

  lemma SlicesOfConcat<T>(x: seq<T>, y: seq<T>, i: nat, k: nat)
    requires i <= k <= |x|
    ensures (x + y)[..i] == x[..i] && (x + y)[k..] == x[k..] + y
  {
  }

  lemma SplitOnce<T>(s: seq<T>, sep: seq<T>, i: nat, first: seq<T>, tail: seq<T>)
    requires sep != [] && Find(s, sep) == i < |s| && first == s[..i] && tail == s[i + |sep|..]
    ensures Split(s, sep) == [first] + Split(tail, sep)
  {
  }

  lemma SplitConcatFound<T>(x: seq<T>, y: seq<T>, sep: seq<T>, i: nat)
    requires sep != [] && Find(x, sep) == i < |x|
    ensures Split(x + y, sep) == [x[..i]] + Split(x[i + |sep|..] + y, sep)
  {
    FindConcat(x, y, sep);
    SlicesOfConcat(x, y, i, i + |sep|);
    SplitOnce(x + y, sep, i, x[..i], x[i + |sep|..] + y);
  }

  lemma SplitConcatStep<T>(first: T, more: seq<T>, tail: seq<T>)
    requires more != []
    ensures var parts := [first] + more;
            [first] + (more[..|more| - 1] + tail) == parts[..|parts| - 1] + tail
            && parts[|parts| - 1] == more[|more| - 1]
  {
  }

  /**
   * Splitting text that arrives in two pieces: the finished parts of the first piece stay as they are,
   * and only its last part is split again with the second piece.
   */
  lemma {:induction false} SplitConcat<T>(x: seq<T>, y: seq<T>, sep: seq<T>)
    requires sep != []
    ensures var parts := Split(x, sep);
            Split(x + y, sep) == parts[..|parts| - 1] + Split(parts[|parts| - 1] + y, sep)
    decreases |x|
  {
    if Find(x, sep) < |x| {
      var rest := x[Find(x, sep) + |sep|..];
      SplitConcat(rest, y, sep);
      SplitConcatRest(x, y, sep, rest);
    } else {
      SplitConcatNothing(x, y, sep);
    }
  }

  lemma SplitConcatNothing<T>(x: seq<T>, y: seq<T>, sep: seq<T>)
    requires sep != [] && Find(x, sep) == |x|
    ensures var parts := Split(x, sep);
            Split(x + y, sep) == parts[..|parts| - 1] + Split(parts[|parts| - 1] + y, sep)
  {
    var all := Split(x + y, sep);
    assert Split(x, sep) == [x] && [x][..0] == [];
    assert [] + all == all;
  }

  lemma SplitConcatRest<T>(x: seq<T>, y: seq<T>, sep: seq<T>, rest: seq<T>)
    requires sep != [] && Find(x, sep) < |x| && rest == x[Find(x, sep) + |sep|..]
    requires var more := Split(rest, sep);
             Split(rest + y, sep) == more[..|more| - 1] + Split(more[|more| - 1] + y, sep)
    ensures var parts := Split(x, sep);
            Split(x + y, sep) == parts[..|parts| - 1] + Split(parts[|parts| - 1] + y, sep)
  {
    var i, more := Find(x, sep), Split(rest, sep);
    SplitOnce(x, sep, i, x[..i], rest);
    SplitConcatFound(x, y, sep, i);
    SplitConcatStep(x[..i], more, Split(more[|more| - 1] + y, sep));
  }

  // ---- One-element separators ----

  lemma AtOne<T>(s: seq<T>, c: T, i: nat)
    ensures At(s, [c], i) <==> i < |s| && s[i] == c
  {
    if i < |s| {
      assert s[i..i + 1] == [s[i]];
    }
  }

  lemma SplitNothing<T>(s: seq<T>, c: T)
    requires c !in s
    ensures Split(s, [c]) == [s]
  {
    forall j: nat
      ensures !At(s, [c], j)
    {
      AtOne(s, c, j);
    }
  }

  /** No part holds the separator. */
  lemma {:induction false} PartsHoldNoSeparator<T>(s: seq<T>, c: T, k: nat)
    requires k < |Split(s, [c])|
    ensures c !in Split(s, [c])[k]
    decreases |s|
  {
    var i := Find(s, [c]);
    forall j: nat | j < i ensures s[j] != c {
      if s[j] == c {
        AtOne(s, c, j);
        FindIsFirst(s, [c], j);
      }
    }
    if i < |s| && k > 0 {
      PartsHoldNoSeparator(s[i + 1..], c, k - 1);
    }
  }

  lemma SplitAtOne<T>(part: seq<T>, c: T, rest: seq<T>)
    requires c !in part
    ensures Split(part + [c] + rest, [c]) == [part] + Split(rest, [c])
  {
    forall j: nat | j < |part|
      ensures !At(part + [c], [c], j)
    {
      AtOne(part + [c], c, j);
      assert (part + [c])[j] == part[j];
    }
    SplitPart(part, [c], rest);
  }

  // ---- Trimming before splitting ----

  /** The parts are the same once trimmed. */
  ghost predicate Alike<T>(ps: seq<seq<T>>, qs: seq<seq<T>>, drop: T -> bool) {
    |ps| == |qs| && forall i :: 0 <= i < |ps| ==> Trim(ps[i], drop) == Trim(qs[i], drop)
  }

  lemma FindBehind<T>(s: seq<T>, c: T)
    requires s != [] && s[0] != c
    ensures Find(s, [c]) == 1 + Find(s[1..], [c])
  {
    assert s[..1] == [s[0]];
  }

  lemma FirstAlike<T>(p: seq<T>, q: seq<T>, rest: seq<seq<T>>, drop: T -> bool)
    requires Trim(p, drop) == Trim(q, drop)
    ensures Alike([p] + rest, [q] + rest, drop)
  {
  }

  lemma LeadingSplitsAlike<T>(s: seq<T>, c: T, drop: T -> bool)
    requires s != [] && drop(s[0]) && !drop(c)
    ensures Alike(Split(s[1..], [c]), Split(s, [c]), drop)
  {
    var rest, i := s[1..], Find(s[1..], [c]);
    FindBehind(s, c);
    if i < |rest| {
      SplitBehind(s, c, i);
      assert s[..i + 1][1..] == rest[..i];
      FirstAlike(rest[..i], s[..i + 1], Split(rest[i + 1..], [c]), drop);
    } else {
      FirstAlike(rest, s, [], drop);
    }
  }

  lemma SplitBehind<T>(s: seq<T>, c: T, i: nat)
    requires s != [] && Find(s[1..], [c]) == i < |s| - 1 && Find(s, [c]) == i + 1
    ensures Split(s[1..], [c]) == [s[1..][..i]] + Split(s[1..][i + 1..], [c])
    ensures Split(s, [c]) == [s[..i + 1]] + Split(s[1..][i + 1..], [c])
  {
    assert s[i + 2..] == s[1..][i + 1..];
    SplitOnce(s[1..], [c], i, s[1..][..i], s[1..][i + 1..]);
    SplitOnce(s, [c], i + 1, s[..i + 1], s[1..][i + 1..]);
  }

  lemma LastAlike<T>(parts: seq<seq<T>>, d: T, drop: T -> bool)
    requires parts != [] && drop(d)
    ensures Alike(parts, parts[..|parts| - 1] + [parts[|parts| - 1] + [d]], drop)
  {
    TrimLast(parts[|parts| - 1], d, drop);
  }

  lemma TrailingSplitsAlike<T>(s: seq<T>, d: T, c: T, drop: T -> bool)
    requires drop(d) && !drop(c)
    ensures Alike(Split(s, [c]), Split(s + [d], [c]), drop)
  {
    var parts := Split(s, [c]);
    var last := parts[|parts| - 1];
    SplitConcat(s, [d], [c]);
    PartsHoldNoSeparator(s, c, |parts| - 1);
    assert c !in last + [d];
    SplitNothing(last + [d], c);
    LastAlike(parts, d, drop);
  }

  lemma AlikeTwice<T>(a: seq<seq<T>>, b: seq<seq<T>>, c: seq<seq<T>>, drop: T -> bool)
    requires Alike(a, b, drop) && Alike(b, c, drop)
    ensures Alike(a, c, drop)
  {
  }

  /** Trimming the whole before splitting makes no difference once the parts are trimmed. */
  lemma {:induction false} TrimmedSplitsAlike<T>(s: seq<T>, c: T, drop: T -> bool)
    requires !drop(c)
    ensures Alike(Split(Trim(s, drop), [c]), Split(s, [c]), drop)
    decreases |s|
  {
    if s != [] && drop(s[0]) {
      TrimmedSplitsAlike(s[1..], c, drop);
      LeadingSplitsAlike(s, c, drop);
      AlikeTwice(Split(Trim(s, drop), [c]), Split(s[1..], [c]), Split(s, [c]), drop);
    } else if s != [] && drop(s[|s| - 1]) {
      var init := s[..|s| - 1];
      TrimmedSplitsAlike(init, c, drop);
      TrailingSplitsAlike(init, s[|s| - 1], c, drop);
      assert init + [s[|s| - 1]] == s;
      AlikeTwice(Split(Trim(s, drop), [c]), Split(init, [c]), Split(s, [c]), drop);
    }
  }
}
