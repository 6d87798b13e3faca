/**
 * The priority queue of the policy enforcer: `actionHeap` of core/runtime/policy_enforcer.go under
 * the sifts of Go's `container/heap`, on an array.
 */
module ActionHeap {
  import opened Wrappers

  /** A queued action; the serial number stands for its address, times are in nanoseconds. */
  datatype PolicyAction = PolicyAction(serial: nat, priority: int, submittedAt: int)

  /** Higher priority first; on a tie, the earlier submission. */
  predicate Less(a: PolicyAction, b: PolicyAction) {
    if a.priority != b.priority then a.priority > b.priority else a.submittedAt < b.submittedAt
  }

  /** Nothing in the bag must run before x. */
  ghost predicate Best(x: PolicyAction, bag: multiset<PolicyAction>) {
    x in bag && forall y :: y in bag ==> !Less(y, x)
  }

  function Parent(j: int): int
    requires j > 0
  {
    (j - 1) / 2
  }

  /** No action must run before its parent. */
  ghost predicate HeapOrdered(s: seq<PolicyAction>) {
    forall k {:trigger Parent(k)} :: 0 < k < |s| ==> !Less(s[k], s[Parent(k)])
  }

  /** Heap order everywhere but above j, and j's children respect j's parent. */
  ghost predicate SiftingUp(s: seq<PolicyAction>, j: nat) {
    && j < |s|
    && (forall k {:trigger Parent(k)} :: 0 < k < |s| && k != j ==> !Less(s[k], s[Parent(k)]))
    && forall k :: 0 < k < |s| && Parent(k) == j && j > 0 ==> !Less(s[k], s[Parent(j)])
  }

  lemma UpStep(s: seq<PolicyAction>, j: nat)
    requires SiftingUp(s, j) && j > 0 && Less(s[j], s[Parent(j)])
    ensures SiftingUp(Swapped(s, Parent(j), j), Parent(j))
  {
    var i := Parent(j);
    var t := Swapped(s, i, j);
    forall k | 0 < k < |t| && k != i ensures !Less(t[k], t[Parent(k)]) {
      if Parent(k) == i && k != j {
        assert !Less(s[k], s[i]);
      }
    }
    forall k | 0 < k < |t| && Parent(k) == i && i > 0 ensures !Less(t[k], t[Parent(i)]) {
      assert !Less(s[i], s[Parent(i)]);
      if k != j {
        assert !Less(s[k], s[i]);
      }
    }
  }

  /** Heap order everywhere but below i, and i's children respect i's parent. */
  ghost predicate SiftingDown(s: seq<PolicyAction>, i: nat) {
    && (forall k {:trigger Parent(k)} :: 0 < k < |s| && Parent(k) != i ==> !Less(s[k], s[Parent(k)]))
    && forall k :: 0 < k < |s| && Parent(k) == i && i > 0 ==> !Less(s[k], s[Parent(i)])
  }

  lemma DownStep(s: seq<PolicyAction>, i: nat, c: nat)
    requires SiftingDown(s, i) && 0 < c < |s| && Parent(c) == i
    requires forall k :: 0 < k < |s| && Parent(k) == i ==> !Less(s[k], s[c])
    requires Less(s[c], s[i])
    ensures SiftingDown(Swapped(s, i, c), c)
  {
    var t := Swapped(s, i, c);
    forall k | 0 < k < |t| && Parent(k) != c ensures !Less(t[k], t[Parent(k)]) {
      if k == i {
        assert !Less(s[c], s[Parent(i)]);
      }
    }
    forall k | 0 < k < |t| && Parent(k) == c ensures !Less(t[k], t[Parent(c)]) {
      assert !Less(s[k], s[c]);
    }
  }

  lemma DownDone(s: seq<PolicyAction>, i: nat, c: nat)
    requires SiftingDown(s, i) && 0 < c < |s| && Parent(c) == i
    requires forall k :: 0 < k < |s| && Parent(k) == i ==> !Less(s[k], s[c])
    requires !Less(s[c], s[i])
    ensures HeapOrdered(s)
  {
    forall k | 0 < k < |s| ensures !Less(s[k], s[Parent(k)]) {
      if Parent(k) == i {
        assert !Less(s[k], s[c]);
      }
    }
  }

  /** In a heap the root must run first. */
  lemma {:induction false} RootIsBest(s: seq<PolicyAction>, k: nat)
    requires HeapOrdered(s) && k < |s|
    ensures !Less(s[k], s[0])
  {
    if k > 0 {
      RootIsBest(s, Parent(k));
    }
  }

  lemma RootIsBestOfBag(s: seq<PolicyAction>)
    requires HeapOrdered(s) && s != []
    ensures Best(s[0], multiset(s))
  {
    forall y | y in multiset(s) ensures !Less(y, s[0]) {
      var k :| 0 <= k < |s| && s[k] == y;
      RootIsBest(s, k);
    }
  }

  /** The last action moved to the root and its slot dropped. */
  ghost function RootReplaced(s: seq<PolicyAction>): seq<PolicyAction>
    requires s != []
  {
    Swapped(s, 0, |s| - 1)[..|s| - 1]
  }

  lemma RootReplacedIsSifting(s: seq<PolicyAction>)
    requires HeapOrdered(s) && s != []
    ensures SiftingDown(RootReplaced(s), 0)
    ensures multiset(RootReplaced(s)) == multiset(s) - multiset{s[0]}
  {
    var t := Swapped(s, 0, |s| - 1);
    assert t == t[..|s| - 1] + [s[0]];
  }

  /** `container/heap`'s `up`. */
  method Up(a: array<PolicyAction>, n: nat, start: nat)
    requires n <= a.Length && SiftingUp(a[..n], start)
    modifies a
    ensures HeapOrdered(a[..n]) && multiset(a[..n]) == old(multiset(a[..n]))
  {
    var j := start;
    while j > 0 && Less(a[j], a[Parent(j)])
      invariant 0 <= j < n && SiftingUp(a[..n], j) && multiset(a[..n]) == old(multiset(a[..n]))
    {
      ghost var before := a[..n];
      var i := Parent(j);
      a[i], a[j] := a[j], a[i];
      assert a[..n] == Swapped(before, i, j);
      UpStep(before, j);
      j := i;
    }
  }

  /** The child that must not run after its sibling; the left one on a tie. */
  method BestChild(a: array<PolicyAction>, n: nat, i: nat) returns (c: nat)
    requires 2 * i + 1 < n <= a.Length
    ensures 0 < c < n && Parent(c) == i
    ensures forall k :: 0 < k < n && Parent(k) == i ==> !Less(a[..n][k], a[..n][c])
  {
    c := 2 * i + 1;
    if c + 1 < n && Less(a[c + 1], a[c]) {
      c := c + 1;
    }
  }

  /** `container/heap`'s `down`, on the first n slots. */
  method Down(a: array<PolicyAction>, n: nat, start: nat)
    requires n <= a.Length && SiftingDown(a[..n], start)
    modifies a
    ensures HeapOrdered(a[..n]) && multiset(a[..n]) == old(multiset(a[..n]))
    ensures a[n..] == old(a[n..])
  {
    var i := start;
    while 2 * i + 1 < n
      invariant SiftingDown(a[..n], i) && multiset(a[..n]) == old(multiset(a[..n]))
      invariant a[n..] == old(a[n..])
      decreases n - i
    {
      var c := BestChild(a, n, i);
      ghost var before := a[..n];
      if !Less(a[c], a[i]) {
        DownDone(before, i, c);
        return;
      }
      a[i], a[c] := a[c], a[i];
      assert a[..n] == Swapped(before, i, c);
      DownStep(before, i, c);
      i := c;
    }
  }

  /** Moving the last action to the root, in terms of the slots. */
  lemma RootReplacedIs(s: seq<PolicyAction>, t: seq<PolicyAction>)
    requires s != [] && |t| == |s| - 1
    requires forall k :: 0 <= k < |t| ==> t[k] == if k == 0 then s[|s| - 1] else s[k]
    ensures t == RootReplaced(s)
  {
  }

  method SwapEnds(a: array<PolicyAction>, n: nat)
    requires 0 < n <= a.Length
    modifies a
    ensures a[..n - 1] == RootReplaced(old(a[..n]))
    ensures a[n - 1] == old(a[0])
  {
    ghost var s := a[..n];
    a[0], a[n - 1] := a[n - 1], a[0];
    RootReplacedIs(s, a[..n - 1]);
  }

  /** The swap and sift of `heap.Pop`: the root ends up in the last slot. */
  method TakeRoot(a: array<PolicyAction>, n: nat) returns (x: PolicyAction)
    requires 0 < n <= a.Length && HeapOrdered(a[..n])
    modifies a
    ensures HeapOrdered(a[..n - 1]) && Best(x, old(multiset(a[..n])))
    ensures multiset(a[..n - 1]) == old(multiset(a[..n])) - multiset{x}
  {
    RootIsBestOfBag(a[..n]);
    RootReplacedIsSifting(a[..n]);
    SwapEnds(a, n);
    Down(a, n - 1, 0);
    assert a[n - 1] == a[n - 1..][0];
    x := a[n - 1];
  }

  class Heap {
    var buf: array<PolicyAction>
    var n: nat

    ghost predicate Valid()
      reads this, buf
    {
      n <= buf.Length && HeapOrdered(buf[..n])
    }

    /** The queued actions, in no particular order. */
    ghost function Bag(): multiset<PolicyAction>
      reads this, buf
      requires n <= buf.Length
    {
      multiset(buf[..n])
    }

    lemma EmptyBag()
      requires n <= buf.Length
      ensures n == 0 <==> Bag() == multiset{}
    {
      assert n > 0 ==> buf[..n][0] in Bag();
    }

    constructor ()
      ensures Valid() && fresh(buf) && Bag() == multiset{}
    {
      buf := new PolicyAction[0];
      n := 0;
    }

    /** Appends, as Go does: into spare room if there is any, else into a larger copy. */
    method Append(x: PolicyAction)
      requires n <= buf.Length
      modifies this, buf
      ensures n <= buf.Length && buf[..n] == old(buf[..n]) + [x]
      ensures buf == old(buf) || fresh(buf)
    {
      if n == buf.Length {
        var bigger := new PolicyAction[2 * n + 1];
        for i := 0 to n
          invariant unchanged(this) && unchanged(buf) && i <= buf.Length && bigger[..i] == buf[..i]
        {
          bigger[i] := buf[i];
        }
        buf := bigger;
      }
      buf[n] := x;
      n := n + 1;
    }

    /** `heap.Push`. */
    method Push(x: PolicyAction)
      requires Valid()
      modifies this, buf
      ensures Valid() && (buf == old(buf) || fresh(buf))
      ensures Bag() == old(Bag()) + multiset{x}
    {
      Append(x);
      Up(buf, n, n - 1);
    }

    /** `heap.Pop`: takes out an action that must not run after any other. */
    method Pop() returns (x: PolicyAction)
      requires Valid() && n > 0
      modifies this, buf
      ensures Valid() && buf == old(buf)
      ensures Best(x, old(Bag())) && Bag() == old(Bag()) - multiset{x}
    {
      x := TakeRoot(buf, n);
      n := n - 1;
    }
  }
}
