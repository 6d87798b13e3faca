/**
 * The asynchronous policy enforcer (core/runtime/policy_enforcer.go): submitters push under a mutex
 * and poke a one-slot channel; one worker drains the queue.
 *
 * `Next` is the protocol, one atomic block a step, in any interleaving of any number of submitters.
 * `PolicyEnforcer` is the code with the real heap; each of its blocks is proved to be such a step.
 */
module PolicyEnforcer {
  import opened ActionHeap

  /** Where the worker is in its two nested loops. */
  datatype Worker = Waiting | Draining | Executing(action: PolicyAction) | Stopped

  datatype Event = Queued(action: PolicyAction) | Started(action: PolicyAction) | Finished(action: PolicyAction)

  /**
   * `stamped`: actions whose submitter has read the clock and not yet pushed; `pokers`: submitters
   * that have pushed and not yet poked; `signal`: the channel's slot is full.
   */
  datatype State = State(nextSerial: nat, stamped: multiset<PolicyAction>, pokers: nat, signal: bool,
                         queue: multiset<PolicyAction>, worker: Worker, log: seq<Event>)

  datatype Step = Stamp(priority: int, time: int) | Push(action: PolicyAction) | Poke | Receive
                | Take(action: PolicyAction) | FindEmpty | Finish | Cancel

  const INITIAL := State(0, multiset{}, 0, false, multiset{}, Waiting, [])

  /** The state after a submitter has pushed its action under the lock. */
  ghost function Pushed(s: State, a: PolicyAction): State {
    s.(stamped := s.stamped - multiset{a}, queue := s.queue + multiset{a}, pokers := s.pokers + 1,
       log := s.log + [Queued(a)])
  }

  /** One atomic block of some goroutine. */
  ghost predicate Next(s: State, step: Step, t: State) {
    match step
    case Stamp(p, time) =>
      t == s.(nextSerial := s.nextSerial + 1, stamped := s.stamped + multiset{PolicyAction(s.nextSerial, p, time)})
    case Push(a) =>
      a in s.stamped && t == Pushed(s, a)
    case Poke =>
      s.pokers > 0 && t == s.(pokers := s.pokers - 1, signal := true)
    case Receive =>
      s.worker == Waiting && s.signal && t == s.(signal := false, worker := Draining)
    case Take(a) =>
      s.worker == Draining && Best(a, s.queue) &&
      t == s.(queue := s.queue - multiset{a}, worker := Executing(a), log := s.log + [Started(a)])
    case FindEmpty =>
      s.worker == Draining && s.queue == multiset{} && t == s.(worker := Waiting)
    case Finish =>
      s.worker.Executing? && t == s.(worker := Draining, log := s.log + [Finished(s.worker.action)])
    case Cancel =>
      s.worker == Waiting && t == s.(worker := Stopped)
  }

  /** A run: consecutive states are related by the steps. */
  ghost predicate IsRun(run: seq<State>, steps: seq<Step>) {
    |run| == |steps| + 1 && forall i :: 0 <= i < |steps| ==> Next(run[i], steps[i], run[i + 1])
  }

  ghost predicate Reachable(s: State) {
    exists run, steps :: IsRun(run, steps) && run[0] == INITIAL && run[|steps|] == s
  }

  // ---- History ----

  function QueuedIn(log: seq<Event>): multiset<PolicyAction> {
    if log == [] then multiset{}
    else if log[|log| - 1].Queued? then QueuedIn(log[..|log| - 1]) + multiset{log[|log| - 1].action}
    else QueuedIn(log[..|log| - 1])
  }

  function StartedIn(log: seq<Event>): multiset<PolicyAction> {
    if log == [] then multiset{}
    else if log[|log| - 1].Started? then StartedIn(log[..|log| - 1]) + multiset{log[|log| - 1].action}
    else StartedIn(log[..|log| - 1])
  }

  function FinishedIn(log: seq<Event>): multiset<PolicyAction> {
    if log == [] then multiset{}
    else if log[|log| - 1].Finished? then FinishedIn(log[..|log| - 1]) + multiset{log[|log| - 1].action}
    else FinishedIn(log[..|log| - 1])
  }

  lemma LogStep(log: seq<Event>, e: Event)
    ensures QueuedIn(log + [e]) == if e.Queued? then QueuedIn(log) + multiset{e.action} else QueuedIn(log)
    ensures StartedIn(log + [e]) == if e.Started? then StartedIn(log) + multiset{e.action} else StartedIn(log)
    ensures FinishedIn(log + [e]) == if e.Finished? then FinishedIn(log) + multiset{e.action} else FinishedIn(log)
  {
    assert (log + [e])[..|log|] == log;
  }

  ghost function InFlight(w: Worker): multiset<PolicyAction> {
    if w.Executing? then multiset{w.action} else multiset{}
  }

  /** Every start took an action that was then queued and that nothing queued had to precede. */
  ghost predicate StartsBest(log: seq<Event>) {
    forall j :: 0 <= j < |log| && log[j].Started? ==>
      Best(log[j].action, QueuedIn(log[..j]) - StartedIn(log[..j]))
  }

  // ---- Invariants ----

  /** A non-empty queue has someone who will look at it. */
  ghost predicate NoLostWakeup(s: State) {
    s.queue != multiset{} ==> s.signal || s.pokers > 0 || !s.worker.Waiting?
  }

  /** Submitted = queued + in flight + executed. */
  ghost predicate Conserved(s: State) {
    Balanced(s.queue, InFlight(s.worker), QueuedIn(s.log), StartedIn(s.log), FinishedIn(s.log))
  }

  ghost predicate Balanced(queue: multiset<PolicyAction>, flight: multiset<PolicyAction>,
                           queued: multiset<PolicyAction>, started: multiset<PolicyAction>,
                           finished: multiset<PolicyAction>) {
    queued == queue + started && started == flight + finished
  }

  lemma BalanceKept(queue: multiset<PolicyAction>, queued: multiset<PolicyAction>, started: multiset<PolicyAction>,
                    finished: multiset<PolicyAction>, flight: multiset<PolicyAction>, a: PolicyAction)
    ensures Balanced(queue, flight, queued, started, finished) ==>
      Balanced(queue + multiset{a}, flight, queued + multiset{a}, started, finished)
    ensures Balanced(queue, multiset{}, queued, started, finished) && a in queue ==>
      Balanced(queue - multiset{a}, multiset{a}, queued, started + multiset{a}, finished)
    ensures Balanced(queue, multiset{a}, queued, started, finished) ==>
      Balanced(queue, multiset{}, queued, started, finished + multiset{a})
  {
  }

  /** Every action whose submission has begun. */
  ghost function Submitted(s: State): multiset<PolicyAction> {
    s.stamped + QueuedIn(s.log)
  }

  /** No two submissions are the same action. */
  ghost predicate Unique(bag: multiset<PolicyAction>, nextSerial: nat) {
    && (forall a :: a in bag ==> a.serial < nextSerial && bag[a] == 1)
    && forall a, b :: a in bag && b in bag && a.serial == b.serial ==> a == b
  }

  ghost predicate Inv(s: State) {
    NoLostWakeup(s) && Conserved(s) && Unique(Submitted(s), s.nextSerial) && StartsBest(s.log)
  }

  lemma StepKeepsConserved(s: State, step: Step, t: State)
    requires Conserved(s) && Next(s, step, t)
    ensures Conserved(t)
  {
    match step {
      case Push(a) =>
        LogStep(s.log, Queued(a));
        BalanceKept(s.queue, QueuedIn(s.log), StartedIn(s.log), FinishedIn(s.log), InFlight(s.worker), a);
      case Take(a) =>
        LogStep(s.log, Started(a));
        BalanceKept(s.queue, QueuedIn(s.log), StartedIn(s.log), FinishedIn(s.log), InFlight(s.worker), a);
      case Finish =>
        LogStep(s.log, Finished(s.worker.action));
        BalanceKept(s.queue, QueuedIn(s.log), StartedIn(s.log), FinishedIn(s.log), InFlight(s.worker), s.worker.action);
      case _ =>
    }
  }

  lemma FreshKeepsUnique(bag: multiset<PolicyAction>, nextSerial: nat, a: PolicyAction)
    requires Unique(bag, nextSerial) && a.serial == nextSerial
    ensures Unique(bag + multiset{a}, nextSerial + 1)
  {
  }

  lemma PushKeepsSubmitted(stamped: multiset<PolicyAction>, queued: multiset<PolicyAction>, a: PolicyAction)
    requires a in stamped
    ensures stamped - multiset{a} + (queued + multiset{a}) == stamped + queued
  {
  }

  /** Only a stamp adds to what is submitted: the action it names. */
  lemma StepSubmits(s: State, step: Step, t: State)
    requires Next(s, step, t)
    ensures !step.Stamp? ==> Submitted(t) == Submitted(s)
    ensures step.Stamp? ==>
      Submitted(t) == Submitted(s) + multiset{PolicyAction(s.nextSerial, step.priority, step.time)}
  {
    match step {
      case Push(a) =>
        LogStep(s.log, Queued(a));
        PushKeepsSubmitted(s.stamped, QueuedIn(s.log), a);
      case Take(a) => LogStep(s.log, Started(a));
      case Finish => LogStep(s.log, Finished(s.worker.action));
      case _ =>
    }
  }

  lemma StepKeepsUnique(s: State, step: Step, t: State)
    requires Unique(Submitted(s), s.nextSerial) && Next(s, step, t)
    ensures Unique(Submitted(t), t.nextSerial)
  {
    StepSubmits(s, step, t);
    if step.Stamp? {
      FreshKeepsUnique(Submitted(s), s.nextSerial, PolicyAction(s.nextSerial, step.priority, step.time));
    }
  }

  lemma AppendKeepsStartsBest(log: seq<Event>, e: Event)
    requires StartsBest(log)
    requires e.Started? ==> Best(e.action, QueuedIn(log) - StartedIn(log))
    ensures StartsBest(log + [e])
  {
    var t := log + [e];
    forall j | 0 <= j < |t| && t[j].Started?
      ensures Best(t[j].action, QueuedIn(t[..j]) - StartedIn(t[..j]))
    {
      assert t[..j] == if j < |log| then log[..j] else log;
    }
  }

  lemma StepKeepsStartsBest(s: State, step: Step, t: State)
    requires Conserved(s) && StartsBest(s.log) && Next(s, step, t)
    ensures StartsBest(t.log)
  {
    match step {
      case Push(a) => AppendKeepsStartsBest(s.log, Queued(a));
      case Take(a) =>
        assert QueuedIn(s.log) - StartedIn(s.log) == s.queue;
        AppendKeepsStartsBest(s.log, Started(a));
      case Finish => AppendKeepsStartsBest(s.log, Finished(s.worker.action));
      case _ =>
    }
  }

  lemma StepKeepsInv(s: State, step: Step, t: State)
    requires Inv(s) && Next(s, step, t)
    ensures Inv(t)
  {
    StepKeepsConserved(s, step, t);
    StepKeepsStartsBest(s, step, t);
    StepKeepsUnique(s, step, t);
  }

  /** Every state of every run satisfies all the invariants. */
  lemma {:induction false} RunKeepsInv(run: seq<State>, steps: seq<Step>, i: nat)
    requires IsRun(run, steps) && run[0] == INITIAL && i < |run|
    ensures Inv(run[i])
  {
    if i > 0 {
      RunKeepsInv(run, steps, i - 1);
      StepKeepsInv(run[i - 1], steps[i - 1], run[i]);
    }
  }

  lemma InitialIsReachable()
    ensures Reachable(INITIAL)
  {
    assert IsRun([INITIAL], []);
  }

  lemma StepStaysReachable(s: State, step: Step, t: State)
    requires Reachable(s) && Next(s, step, t)
    ensures Reachable(t)
  {
    var run, steps :| IsRun(run, steps) && run[0] == INITIAL && run[|steps|] == s;
    assert IsRun(run + [t], steps + [step]);
  }

  lemma ReachableInv(s: State)
    requires Reachable(s)
    ensures Inv(s)
  {
    var run, steps :| IsRun(run, steps) && run[0] == INITIAL && run[|steps|] == s;
    RunKeepsInv(run, steps, |steps|);
  }

  /** No lost wake-up and exactly-once bookkeeping, in every reachable state. */
  lemma NothingLostOrRepeated(s: State, a: PolicyAction)
    requires Reachable(s)
    ensures NoLostWakeup(s) && Conserved(s)
    ensures FinishedIn(s.log)[a] <= StartedIn(s.log)[a] <= QueuedIn(s.log)[a] <= 1
  {
    ReachableInv(s);
    assert QueuedIn(s.log)[a] <= Submitted(s)[a];
  }

  // ---- Priority ----

  lemma {:induction false} LogGrows(log: seq<Event>, i: nat, j: nat)
    requires i <= j <= |log|
    ensures QueuedIn(log[..i]) <= QueuedIn(log[..j]) && StartedIn(log[..i]) <= StartedIn(log[..j])
    decreases j
  {
    if i < j {
      LogGrows(log, i, j - 1);
      assert log[..j][..j - 1] == log[..j - 1];
    }
  }

  /** An action started after `a` was queued and before `a` started does not rank below it. */
  lemma StartsByRank(s: State, queued: nat, other: nat, started: nat)
    requires Reachable(s) && queued < other < started < |s.log|
    requires s.log[queued].Queued? && s.log[other].Started? && s.log[started] == Started(s.log[queued].action)
    ensures !Less(s.log[queued].action, s.log[other].action)
  {
    var a, log := s.log[queued].action, s.log;
    NothingLostOrRepeated(s, a);
    QueuedBy(log, queued, other);
    StartedOnce(log, other, started);
    assert StartsBest(log) by { ReachableInv(s); }
    StartRespectsQueue(log, other, a);
  }

  // ---- What was submitted ----

  /** The k-th step is the submission of this action: its priority, and the clock as it was read. */
  ghost predicate Submits(run: seq<State>, steps: seq<Step>, k: nat, a: PolicyAction)
    requires |run| == |steps| + 1
  {
    k < |steps| && steps[k] == Stamp(a.priority, a.submittedAt) && run[k].nextSerial == a.serial
  }

  /** Every action ever seen comes from a submission, with the priority and time it was submitted with. */
  lemma {:induction false} SubmittedWasStamped(run: seq<State>, steps: seq<Step>, i: nat, a: PolicyAction)
    returns (k: nat)
    requires IsRun(run, steps) && run[0] == INITIAL && i < |run| && a in Submitted(run[i])
    ensures k < i && Submits(run, steps, k, a)
  {
    assert i > 0;
    var s, step := run[i - 1], steps[i - 1];
    StepSubmits(s, step, run[i]);
    if a in Submitted(s) {
      k := SubmittedWasStamped(run, steps, i - 1, a);
    } else {
      k := i - 1;
    }
  }

  /** No two submissions get the same number. */
  lemma {:induction false} SerialsGrow(run: seq<State>, steps: seq<Step>, k: nat, i: nat)
    requires IsRun(run, steps) && k < i < |run| && steps[k].Stamp?
    ensures run[k].nextSerial < run[i].nextSerial
  {
    assert Next(run[i - 1], steps[i - 1], run[i]);
    if k < i - 1 {
      SerialsGrow(run, steps, k, i - 1);
    }
  }

  /** An event of submission k concerns the action as it was submitted. */
  lemma EventIsOfSubmission(run: seq<State>, steps: seq<Step>, i: nat, e: nat, k: nat)
    requires IsRun(run, steps) && run[0] == INITIAL && i < |run| && e < |run[i].log| && !run[i].log[e].Finished?
    requires k < |steps| && steps[k].Stamp? && run[i].log[e].action.serial == run[k].nextSerial
    ensures Submits(run, steps, k, run[i].log[e].action)
    ensures run[i].log[e].action in Submitted(run[i])
  {
    var a := run[i].log[e].action;
    RunKeepsInv(run, steps, i);
    EventWasQueued(run[i].log, e);
    assert Conserved(run[i]) && a in QueuedIn(run[i].log);
    var m := SubmittedWasStamped(run, steps, i, a);
    if k < m {
      SerialsGrow(run, steps, k, m);
    } else if m < k {
      SerialsGrow(run, steps, m, k);
    }
  }

  lemma EventWasQueued(log: seq<Event>, e: nat)
    requires e < |log| && !log[e].Finished?
    ensures log[e].Queued? ==> log[e].action in QueuedIn(log)
    ensures log[e].Started? ==> log[e].action in StartedIn(log)
  {
    assert log[..|log|] == log;
    if log[e].Queued? {
      QueuedBy(log, e, |log|);
    } else {
      StartedBy(log, e, |log|);
    }
  }

  lemma StartedBy(log: seq<Event>, i: nat, n: nat)
    requires i < n <= |log| && log[i].Started?
    ensures log[i].action in StartedIn(log[..n])
  {
    LogStep(log[..i], log[i]);
    assert log[..i + 1] == log[..i] + [log[i]];
    LogGrows(log, i + 1, n);
  }

  /**
   * In any run: what is submitted as step m and started after the action submitted as step k was queued and
   * before that one started, was submitted with a higher priority, or with an equal one and no later.
   */
  lemma StartsInRankOrder(run: seq<State>, steps: seq<Step>, i: nat, k: nat, m: nat,
                          queued: nat, other: nat, started: nat)
    requires IsRun(run, steps) && run[0] == INITIAL && i < |run|
    requires k < |steps| && m < |steps| && steps[k].Stamp? && steps[m].Stamp?
    requires queued < other < started < |run[i].log|
    requires run[i].log[queued].Queued? && run[i].log[queued].action.serial == run[k].nextSerial
    requires run[i].log[other].Started? && run[i].log[other].action.serial == run[m].nextSerial
    requires run[i].log[started].Started? && run[i].log[started].action.serial == run[k].nextSerial
    ensures steps[m].priority > steps[k].priority
         || (steps[m].priority == steps[k].priority && steps[m].time <= steps[k].time)
  {
    EventIsOfSubmission(run, steps, i, queued, k);
    EventIsOfSubmission(run, steps, i, started, k);
    EventIsOfSubmission(run, steps, i, other, m);
    assert IsRun(run[..i + 1], steps[..i]);
    assert Reachable(run[i]);
    StartsByRank(run[i], queued, other, started);
  }

  lemma StartRespectsQueue(log: seq<Event>, j: nat, a: PolicyAction)
    requires StartsBest(log) && j < |log| && log[j].Started?
    requires a in QueuedIn(log[..j]) && a !in StartedIn(log[..j])
    ensures !Less(a, log[j].action)
  {
    assert a in QueuedIn(log[..j]) - StartedIn(log[..j]);
  }

  lemma QueuedBy(log: seq<Event>, i: nat, n: nat)
    requires i < n <= |log| && log[i].Queued?
    ensures log[i].action in QueuedIn(log[..n])
  {
    LogStep(log[..i], log[i]);
    assert log[..i + 1] == log[..i] + [log[i]];
    LogGrows(log, i + 1, n);
  }

  lemma StartedOnce(log: seq<Event>, n: nat, i: nat)
    requires n <= i < |log| && log[i].Started? && StartedIn(log)[log[i].action] <= 1
    ensures log[i].action !in StartedIn(log[..n])
  {
    LogStep(log[..i], log[i]);
    assert log[..i + 1] == log[..i] + [log[i]];
    LogGrows(log, n, i);
    LogGrows(log, i + 1, |log|);
    assert log[..|log|] == log;
  }

  // ---- Progress ----

  /** Neither a new submission nor cancellation. */
  ghost predicate Internal(step: Step) {
    !step.Stamp? && !step.Cancel?
  }

  ghost function Work(s: State): nat {
    6 * |s.stamped| + 3 * s.pokers + 2 * |s.queue| + (if s.signal then 2 else 0) +
    (match s.worker case Executing(_) => 2 case Draining => 1 case _ => 0)
  }

  lemma StepDoesWork(s: State, step: Step, t: State)
    requires Next(s, step, t) && Internal(step)
    ensures Work(t) < Work(s)
  {
  }

  /** Without new submissions a run is over after at most Work steps. */
  lemma {:induction false} RunsEnd(run: seq<State>, steps: seq<Step>)
    requires IsRun(run, steps) && forall i :: 0 <= i < |steps| ==> Internal(steps[i])
    ensures |steps| + Work(run[|steps|]) <= Work(run[0])
  {
    if steps != [] {
      var n := |steps| - 1;
      RunsEnd(run[..n + 1], steps[..n]);
      StepDoesWork(run[n], steps[n], run[n + 1]);
    }
  }

  lemma {:induction false} SomeActionIsBest(bag: multiset<PolicyAction>) returns (x: PolicyAction)
    requires bag != multiset{}
    ensures Best(x, bag)
    decreases |bag|
  {
    var y :| y in bag;
    var rest := bag - multiset{y};
    x := y;
    if rest != multiset{} {
      var z := SomeActionIsBest(rest);
      x := if Less(y, z) then y else z;
    }
    assert forall w :: w in bag ==> w == y || w in rest;
  }

  ghost predicate Enabled(s: State, step: Step) {
    exists t :: Next(s, step, t)
  }

  /** Unless all submitters are through and the worker waits without a signal, some step is left. */
  lemma SomeStepIsEnabled(s: State) returns (step: Step)
    requires !s.worker.Stopped?
    requires s.stamped != multiset{} || s.pokers > 0 || !s.worker.Waiting? || s.signal
    ensures Internal(step) && Enabled(s, step)
  {
    if s.stamped != multiset{} {
      var a :| a in s.stamped;
      step := Push(a);
      assert Next(s, step, Pushed(s, a));
    } else if s.pokers > 0 {
      step := Poke;
      assert Next(s, step, s.(pokers := s.pokers - 1, signal := true));
    } else if s.worker.Executing? {
      step := Finish;
      assert Next(s, step, s.(worker := Draining, log := s.log + [Finished(s.worker.action)]));
    } else if s.worker.Waiting? {
      step := Receive;
      assert Next(s, step, s.(signal := false, worker := Draining));
    } else if s.queue == multiset{} {
      step := FindEmpty;
      assert Next(s, step, s.(worker := Waiting));
    } else {
      var a := SomeActionIsBest(s.queue);
      step := Take(a);
      assert Next(s, step, s.(queue := s.queue - multiset{a}, worker := Executing(a), log := s.log + [Started(a)]));
    }
  }

  /**
   * When no internal step is left, a worker that was not cancelled has executed every submitted
   * action exactly once.
   */
  lemma QuietMeansAllExecuted(s: State, a: PolicyAction)
    requires Reachable(s) && !s.worker.Stopped?
    requires forall step :: Internal(step) ==> !Enabled(s, step)
    ensures s.queue == multiset{} && Submitted(s) == FinishedIn(s.log)
    ensures FinishedIn(s.log)[a] <= 1
  {
    NothingLostOrRepeated(s, a);
    if s.stamped != multiset{} || s.pokers > 0 || !s.worker.Waiting? || s.signal {
      var step := SomeStepIsEnabled(s);
    }
  }

  // ---- The code ----

  /** The enforcer's own fields and its worker's position; `model` is the protocol state they stand for. */
  class PolicyEnforcer {
    const queue: Heap
    var signal: bool
    var worker: Worker
    /** The next address to allocate. */
    var nextSerial: nat
    ghost var model: State

    ghost predicate Valid()
      reads this, queue, queue.buf
    {
      && queue.Valid() && queue.Bag() == model.queue
      && signal == model.signal && worker == model.worker && nextSerial == model.nextSerial
      && Reachable(model)
    }

    constructor ()
      ensures Valid() && fresh(queue) && fresh(queue.buf) && model == INITIAL
    {
      queue := new Heap();
      signal := false;
      worker := Waiting;
      nextSerial := 0;
      model := INITIAL;
      InitialIsReachable();
    }

    ghost method Advance(step: Step, t: State)
      requires Reachable(model) && Next(model, step, t)
      modifies `model
      ensures model == t && Reachable(model)
    {
      StepStaysReachable(model, step, t);
      model := t;
    }

    /** `Submit` before the lock: the clock is read. */
    method ReadClock(priority: int, now: int) returns (action: PolicyAction)
      requires Valid()
      modifies `model, `nextSerial
      ensures Valid() && Next(old(model), Stamp(priority, now), model) && action in model.stamped
      ensures action.priority == priority && action.submittedAt == now && action.serial == old(model).nextSerial
    {
      action := PolicyAction(nextSerial, priority, now);
      nextSerial := nextSerial + 1;
      ghost var t := model.(nextSerial := model.nextSerial + 1, stamped := model.stamped + multiset{action});
      Advance(Stamp(priority, now), t);
    }

    /** `Submit` under the lock. */
    method PushLocked(action: PolicyAction)
      requires Valid() && action in model.stamped
      modifies `model, queue, queue.buf
      ensures Valid() && Next(old(model), Push(action), model)
      ensures queue.buf == old(queue.buf) || fresh(queue.buf)
    {
      queue.Push(action);
      ghost var t := model.(stamped := model.stamped - multiset{action}, queue := model.queue + multiset{action},
                            pokers := model.pokers + 1, log := model.log + [Queued(action)]);
      Advance(Push(action), t);
    }

    /** `Submit` after the lock: a send that gives up when the slot is full. */
    method PokeWorker()
      requires Valid() && model.pokers > 0
      modifies `model, `signal
      ensures Valid() && Next(old(model), Poke, model)
    {
      if !signal {
        signal := true;
      }
      ghost var t := model.(pokers := model.pokers - 1, signal := true);
      Advance(Poke, t);
    }

    /** The worker's receive. */
    method ReceiveSignal()
      requires Valid() && worker == Waiting && signal
      modifies `model, `signal, `worker
      ensures Valid() && Next(old(model), Receive, model)
    {
      signal := false;
      worker := Draining;
      ghost var t := model.(signal := false, worker := Draining);
      Advance(Receive, t);
    }

    /** The drain loop under the lock, queue not empty: take the best action. */
    method TakeBest()
      requires Valid() && worker == Draining && queue.n > 0
      modifies `model, `worker, queue, queue.buf
      ensures Valid() && queue.buf == old(queue.buf)
      ensures worker.Executing? && Next(old(model), Take(worker.action), model)
    {
      ghost var s := model;
      var action := queue.Pop();
      worker := Executing(action);
      ghost var t := s.(queue := s.queue - multiset{action}, worker := worker, log := s.log + [Started(action)]);
      Advance(Take(action), t);
    }

    /** One turn of the drain loop under the lock: take the best action, or find none and stop draining. */
    method TakeLocked()
      requires Valid() && worker == Draining
      modifies `model, `worker, queue, queue.buf
      ensures Valid() && queue.buf == old(queue.buf)
      ensures if old(model).queue == multiset{} then Next(old(model), FindEmpty, model)
              else worker.Executing? && Next(old(model), Take(worker.action), model)
    {
      queue.EmptyBag();
      if queue.n == 0 {
        worker := Waiting;
        Advance(FindEmpty, model.(worker := Waiting));
      } else {
        TakeBest();
      }
    }

    /** The action's function has returned, whatever it returned. */
    method FinishAction()
      requires Valid() && worker.Executing?
      modifies `model, `worker
      ensures Valid() && Next(old(model), Finish, model)
    {
      ghost var t := model.(worker := Draining, log := model.log + [Finished(worker.action)]);
      worker := Draining;
      Advance(Finish, t);
    }
  }
}
