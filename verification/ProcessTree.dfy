/**
 * The process-tree search (gaming/hispowerd/detect/detector.go): a breadth-first search over parent
 * links as read from /proc, which may be stale, repeated or cyclic.
 */
module ProcessTree {
  import opened Wrappers

  /** One /proc entry. */
  datatype Process = Process(pid: int, ppid: int)

  ghost predicate IsChild(procs: seq<Process>, parent: int, child: int) {
    Process(child, parent) in procs
  }

  /** Each step of the path goes from a process to one listed as its child. */
  ghost predicate IsPath(procs: seq<Process>, path: seq<int>, root: int, pid: int) {
    && path != [] && path[0] == root && path[|path| - 1] == pid
    && forall i :: 0 < i < |path| ==> IsChild(procs, path[i - 1], path[i])
  }

  ghost predicate Descends(procs: seq<Process>, root: int, pid: int) {
    exists path :: IsPath(procs, path, root, pid)
  }

  lemma RootDescends(procs: seq<Process>, root: int)
    ensures Descends(procs, root, root)
  {
    assert IsPath(procs, [root], root, root);
  }

  lemma ChildDescends(procs: seq<Process>, root: int, parent: int, child: int)
    requires Descends(procs, root, parent) && IsChild(procs, parent, child)
    ensures Descends(procs, root, child)
  {
    var path :| IsPath(procs, path, root, parent);
    assert IsPath(procs, path + [child], root, child);
  }

  /** A set that holds the root and every child of its members holds everything that descends from it. */
  lemma {:induction false} ClosedHoldsPath(procs: seq<Process>, visited: set<int>, path: seq<int>, root: int, pid: int)
    requires root in visited && IsPath(procs, path, root, pid)
    requires forall p, c :: p in visited && IsChild(procs, p, c) ==> c in visited
    ensures pid in visited
  {
    if |path| > 1 {
      ClosedHoldsPath(procs, visited, path[..|path| - 1], root, path[|path| - 2]);
      assert IsChild(procs, path[|path| - 1 - 1], path[|path| - 1]);
    }
  }

  /** Every pid that is listed. */
  ghost function Listed(procs: seq<Process>): set<int> {
    set p | p in procs :: p.pid
  }

  /** The search between two turns of its outer loop; `parent` is being expanded up to entry k. */
  ghost predicate Searching(procs: seq<Process>, root: int, visited: set<int>, queue: seq<int>, result: seq<int>) {
    && Distinct(result) && result != [] && result[0] == root
    && (forall x :: x in result <==> x in visited)
    && visited <= Listed(procs) + {root}
    && (forall x :: x in visited ==> Descends(procs, root, x))
    && forall x :: x in queue ==> x in visited
  }

  /** The children of p among the first k entries have been visited. */
  ghost predicate Expanded(procs: seq<Process>, visited: set<int>, p: int, k: nat)
    requires k <= |procs|
  {
    forall i :: 0 <= i < k && procs[i].ppid == p ==> procs[i].pid in visited
  }

  lemma VisitChild(procs: seq<Process>, root: int, visited: set<int>, queue: seq<int>, result: seq<int>, p: Process)
    requires Searching(procs, root, visited, queue, result)
    requires p in procs && p.ppid in visited && p.pid !in visited
    ensures Searching(procs, root, visited + {p.pid}, queue + [p.pid], result + [p.pid])
  {
    ChildDescends(procs, root, p.ppid, p.pid);
  }

  /** The given pid and everything that descends from it, once each; just the pid when /proc is unreadable. */
  method FindGameProcesses(scan: Option<seq<Process>>, gamePid: int) returns (result: seq<int>)
    ensures Distinct(result) && result != [] && result[0] == gamePid
    ensures scan.None? ==> result == [gamePid]
    ensures scan.Some? ==> forall x :: x in result <==> Descends(scan.value, gamePid, x)
  {
    if scan.None? {
      return [gamePid];
    }
    var procs := scan.value;
    var visited, queue := {gamePid}, [gamePid];
    result := [gamePid];
    RootDescends(procs, gamePid);
    while |queue| > 0
      invariant Searching(procs, gamePid, visited, queue, result)
      invariant forall x :: x in visited && x !in queue ==> Expanded(procs, visited, x, |procs|)
      decreases Listed(procs) - visited, |queue|
    {
      var parent := queue[0];
      ghost var before := queue;
      queue := queue[1..];
      ghost var start := visited;
      for k := 0 to |procs|
        invariant Searching(procs, gamePid, visited, queue, result) && start <= visited
        invariant visited == start ==> queue == before[1..]
        invariant parent in visited && Expanded(procs, visited, parent, k)
        invariant forall x :: x in visited && x !in queue && x != parent ==> Expanded(procs, visited, x, |procs|)
      {
        var p := procs[k];
        if p.ppid == parent && p.pid !in visited {
          VisitChild(procs, gamePid, visited, queue, result, p);
          visited := visited + {p.pid};
          result := result + [p.pid];
          queue := queue + [p.pid];
        }
      }
    }
    forall x | Descends(procs, gamePid, x) ensures x in visited {
      var path :| IsPath(procs, path, gamePid, x);
      ClosedHoldsPath(procs, visited, path, gamePid, x);
    }
  }
}
