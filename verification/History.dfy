/** Counting over time-stamped histories. */
module History {
  ghost predicate Sorted(s: seq<int>) {
    forall i, j :: 0 <= i < j < |s| ==> s[i] <= s[j]
  }

  /** How many stamps lie strictly after the cut-off. */
  function CountAfter(s: seq<int>, cutoff: int): (n: nat)
    ensures n <= |s|
  {
    if s == [] then 0 else CountAfter(s[..|s| - 1], cutoff) + (if s[|s| - 1] > cutoff then 1 else 0)
  }

  /** In a sorted history the stamps after the cut-off are the last ones. */
  lemma {:induction false} CountIsSuffix(s: seq<int>, cutoff: int)
    requires Sorted(s)
    ensures forall i :: 0 <= i < |s| ==> (s[i] > cutoff <==> i >= |s| - CountAfter(s, cutoff))
  {
    if s != [] {
      CountIsSuffix(s[..|s| - 1], cutoff);
    }
  }

  /** The last k stamps of a sorted history hold as many after the cut-off as the whole, up to k. */
  lemma {:induction false} CountOfTail(s: seq<int>, k: nat, cutoff: int)
    requires Sorted(s) && k <= |s|
    ensures CountAfter(s[|s| - k..], cutoff) == if CountAfter(s, cutoff) < k then CountAfter(s, cutoff) else k
  {
    var t := s[|s| - k..];
    CountIsSuffix(s, cutoff);
    CountIsSuffix(t, cutoff);
    var n, m := CountAfter(s, cutoff), CountAfter(t, cutoff);
    assert forall i :: 0 <= i < |t| ==> t[i] == s[|s| - k + i];
    if m < k {
      assert t[k - m - 1] <= cutoff;
      assert m > 0 ==> t[k - m] > cutoff;
      assert s[|s| - m - 1] <= cutoff;
    } else {
      assert k > 0 ==> t[0] > cutoff;
    }
  }

  lemma {:induction false} CountOfConcat(a: seq<int>, b: seq<int>, cutoff: int)
    ensures CountAfter(a + b, cutoff) == CountAfter(a, cutoff) + CountAfter(b, cutoff)
  {
    if b == [] {
      assert a + b == a;
    } else {
      CountOfConcat(a, b[..|b| - 1], cutoff);
      assert (a + b)[..|a + b| - 1] == a + b[..|b| - 1];
    }
  }

  /** Counting by a loop over the stamps. */
  method CountRecent(times: seq<int>, now: int, window: int) returns (n: nat)
    ensures n == CountAfter(times, now - window)
  {
    n := 0;
    for i := 0 to |times|
      invariant n == CountAfter(times[..i], now - window)
    {
      assert times[..i + 1][..i] == times[..i];
      if times[i] > now - window {
        n := n + 1;
      }
    }
    assert times[..|times|] == times;
  }
}
