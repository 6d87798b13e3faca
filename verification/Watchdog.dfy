/**
 * The watchdog's restart policy (core/runtime/watchdog.go): missed heartbeats, restarts with
 * back-off, and a circuit breaker with a cool-down that erases the restart history.
 *
 * `Tick` is one check of one subsystem; `After` is a whole run of checks together with the record of
 * everything that was launched. The classes are the code, proved to compute `Tick`.
 */
module Watchdog {
  import opened History
  import opened Wrappers

  const WINDOW := 60 * SECOND
  const THRESHOLD: nat := 3
  const COOLDOWN := 300 * SECOND
  const FIRST_BACKOFF := 5 * SECOND
  const MAX_BACKOFF := 60 * SECOND
  const CHANNEL_SIZE := 4

  /** What is fixed at registration; `restartable`: a restart function was given. */
  datatype Spec = Spec(sla: int, critical: bool, restartable: bool)

  datatype Entry = Entry(lastBeat: int, missed: nat, restartTimes: seq<int>, open: bool, openAt: int, backoff: int)

  /** What a check does beyond updating its entry. */
  datatype Event = Launched(at: int, delay: int) | Tripped(at: int, safeModeCandidate: bool)

  function Registered(now: int): Entry {
    Entry(now, 0, [], false, 0, FIRST_BACKOFF)
  }

  /** The entry after its heartbeats are drained and an elapsed cool-down is ended. */
  function Refreshed(e: Entry, beaten: bool, now: int): Entry {
    var e1 := if beaten then e.(lastBeat := now) else e;
    if e1.open && now - e1.openAt >= COOLDOWN then e1.(open := false, restartTimes := [], missed := 0) else e1
  }

  /** One check: the new entry and the events, of which there is at most one. */
  function Tick(spec: Spec, e: Entry, beaten: bool, now: int): (Entry, seq<Event>) {
    Escalated(spec, Refreshed(e, beaten, now), now)
  }

  function Doubled(delay: int): int {
    Least(2 * delay, MAX_BACKOFF)
  }

  function Escalated(spec: Spec, r: Entry, now: int): (Entry, seq<Event>) {
    if now - r.lastBeat <= spec.sla then
      (if r.missed > 0 then r.(missed := 0, backoff := FIRST_BACKOFF) else r, [])
    else
      var m := r.(missed := r.missed + 1);
      if m.missed < 2 || m.open || !spec.restartable then (m, [])
      else if CountAfter(m.restartTimes, now - WINDOW) >= THRESHOLD then
        (m.(open := true, openAt := now), [Tripped(now, spec.critical)])
      else
        (m.(restartTimes := m.restartTimes + [now], backoff := Doubled(m.backoff)),
         [Launched(now, m.backoff)])
  }

  // ---- Runs ----

  /** One check's circumstances: the clock, and whether a heartbeat was waiting. */
  datatype Check = Check(now: int, beaten: bool)

  /** The entry, and everything launched or tripped so far. */
  datatype Trace = Trace(entry: Entry, log: seq<Event>)

  function After(spec: Spec, registered: int, checks: seq<Check>): Trace {
    if checks == [] then Trace(Registered(registered), [])
    else
      var t := After(spec, registered, checks[..|checks| - 1]);
      var c := checks[|checks| - 1];
      var (e, events) := Tick(spec, t.entry, c.beaten, c.now);
      Trace(e, t.log + events)
  }

  /** The clock never runs backwards. */
  ghost predicate ClockRuns(checks: seq<Check>) {
    forall i, j :: 0 <= i < j < |checks| ==> checks[i].now <= checks[j].now
  }

  /** When each restart was launched. */
  function Launches(log: seq<Event>): seq<int> {
    if log == [] then []
    else
      var rest := Launches(log[..|log| - 1]);
      if log[|log| - 1].Launched? then rest + [log[|log| - 1].at] else rest
  }

  /** Four launches in a row take at least a window. */
  ghost predicate Spaced(launches: seq<int>) {
    Sorted(launches) && forall i :: 0 <= i < |launches| - THRESHOLD ==> launches[i + THRESHOLD] - launches[i] >= WINDOW
  }

  /** A launch after a trip comes no sooner than the cool-down. */
  ghost predicate Respects(log: seq<Event>) {
    forall i, j :: 0 <= i < j < |log| && log[i].Tripped? && log[j].Launched? ==> log[j].at >= log[i].at + COOLDOWN
  }

  /** The kept history is the whole one less launches too old to count. */
  ghost predicate HistoryInv(all: seq<int>, e: Entry, now: int) {
    var erased := |all| - |e.restartTimes|;
    && Spaced(all)
    && (forall i :: 0 <= i < |all| ==> all[i] <= now && (e.open ==> all[i] <= e.openAt))
    && 0 <= erased && all[erased..] == e.restartTimes
    && forall i :: 0 <= i < erased ==> all[i] <= now - COOLDOWN
  }

  ghost predicate TrippedAt(log: seq<Event>, at: int) {
    exists i :: 0 <= i < |log| && log[i].Tripped? && log[i].at == at
  }

  /** While the circuit is closed every trip is a cool-down ago. */
  ghost predicate CircuitInv(log: seq<Event>, e: Entry, now: int) {
    && Respects(log)
    && (e.open ==> e.openAt <= now && TrippedAt(log, e.openAt))
    && forall i :: 0 <= i < |log| && log[i].Tripped? ==> log[i].at <= if e.open then e.openAt else now - COOLDOWN
  }

  /** What holds after every check made at time `now`. */
  ghost predicate Inv(t: Trace, now: int) {
    && HistoryInv(Launches(t.log), t.entry, now)
    && CircuitInv(t.log, t.entry, now)
    && FIRST_BACKOFF <= t.entry.backoff <= MAX_BACKOFF
  }

  lemma LaunchesAppend(log: seq<Event>, e: Event)
    ensures Launches(log + [e]) == if e.Launched? then Launches(log) + [e.at] else Launches(log)
  {
    assert (log + [e])[..|log|] == log;
  }

  /** The erased launches could not have counted. */
  lemma ErasureIsHarmless(all: seq<int>, e: Entry, now: int)
    requires HistoryInv(all, e, now)
    ensures CountAfter(e.restartTimes, now - WINDOW) == CountAfter(all, now - WINDOW)
  {
    var erased := all[..|all| - |e.restartTimes|];
    assert all == erased + e.restartTimes;
    CountOfConcat(erased, e.restartTimes, now - WINDOW);
    NoneAfter(erased, now - WINDOW);
  }

  lemma {:induction false} NoneAfter(s: seq<int>, cutoff: int)
    requires forall i :: 0 <= i < |s| ==> s[i] <= cutoff
    ensures CountAfter(s, cutoff) == 0
  {
    if s != [] {
      NoneAfter(s[..|s| - 1], cutoff);
    }
  }

  lemma RefreshKeepsInv(t: Trace, c: Check, prior: int)
    requires Inv(t, prior) && prior <= c.now
    ensures Inv(t.(entry := Refreshed(t.entry, c.beaten, c.now)), c.now)
  {
  }

  /** Too few recent launches to trip: one more keeps the spacing. */
  lemma LaunchKeepsSpacing(all: seq<int>, now: int)
    requires Spaced(all) && (forall i :: 0 <= i < |all| ==> all[i] <= now)
    requires CountAfter(all, now - WINDOW) < THRESHOLD
    ensures Spaced(all + [now])
  {
    CountIsSuffix(all, now - WINDOW);
    if |all| >= THRESHOLD {
      assert all[|all| - THRESHOLD] <= now - WINDOW;
    }
  }

  lemma LaunchKeepsHistory(all: seq<int>, e: Entry, f: Entry, now: int)
    requires HistoryInv(all, e, now) && CountAfter(e.restartTimes, now - WINDOW) < THRESHOLD
    requires f.restartTimes == e.restartTimes + [now] && !f.open
    ensures HistoryInv(all + [now], f, now)
  {
    ErasureIsHarmless(all, e, now);
    LaunchKeepsSpacing(all, now);
  }

  lemma SameTimesKeepHistory(all: seq<int>, e: Entry, f: Entry, now: int)
    requires HistoryInv(all, e, now) && f.restartTimes == e.restartTimes
    requires f.open ==> f.openAt == now || (e.open && f.openAt == e.openAt)
    ensures HistoryInv(all, f, now)
  {
  }

  lemma EventKeepsCircuit(log: seq<Event>, e: Entry, f: Entry, event: Event, now: int)
    requires CircuitInv(log, e, now) && !e.open && event.at == now
    requires f.open == event.Tripped? && (f.open ==> f.openAt == now)
    ensures CircuitInv(log + [event], f, now)
  {
    assert (log + [event])[|log|] == event;
  }

  /** What a check does to the history and the circuit: nothing, a launch, or a trip. */
  ghost predicate Outcome(r: Entry, e: Entry, events: seq<Event>, now: int) {
    && FIRST_BACKOFF <= e.backoff <= MAX_BACKOFF
    && (|| (events == [] && e.restartTimes == r.restartTimes && e.open == r.open && e.openAt == r.openAt)
        || (!r.open && |events| == 1 && events[0].at == now && events[0].Launched? && !e.open
            && CountAfter(r.restartTimes, now - WINDOW) < THRESHOLD && e.restartTimes == r.restartTimes + [now])
        || (!r.open && |events| == 1 && events[0].at == now && events[0].Tripped? && e.open && e.openAt == now
            && e.restartTimes == r.restartTimes))
  }

  lemma TickOutcome(spec: Spec, e: Entry, beaten: bool, now: int)
    requires FIRST_BACKOFF <= e.backoff <= MAX_BACKOFF
    ensures Outcome(Refreshed(e, beaten, now), Tick(spec, e, beaten, now).0, Tick(spec, e, beaten, now).1, now)
  {
  }

  lemma OutcomeKeepsInv(log: seq<Event>, r: Entry, e: Entry, events: seq<Event>, now: int)
    requires Inv(Trace(r, log), now) && Outcome(r, e, events, now)
    ensures Inv(Trace(e, log + events), now)
  {
    if events == [] {
      assert log + events == log;
      SameTimesKeepHistory(Launches(log), r, e, now);
    } else {
      assert events == [events[0]];
      LaunchesAppend(log, events[0]);
      EventKeepsCircuit(log, r, e, events[0], now);
      if events[0].Launched? {
        LaunchKeepsHistory(Launches(log), r, e, now);
      } else {
        SameTimesKeepHistory(Launches(log), r, e, now);
      }
    }
  }

  lemma TickKeepsInv(spec: Spec, t: Trace, c: Check, prior: int)
    requires Inv(t, prior) && prior <= c.now
    ensures var (e, events) := Tick(spec, t.entry, c.beaten, c.now); Inv(Trace(e, t.log + events), c.now)
  {
    var (e, events) := Tick(spec, t.entry, c.beaten, c.now);
    RefreshKeepsInv(t, c, prior);
    TickOutcome(spec, t.entry, c.beaten, c.now);
    OutcomeKeepsInv(t.log, Refreshed(t.entry, c.beaten, c.now), e, events, c.now);
  }

  lemma {:induction false} RunKeepsInv(spec: Spec, registered: int, checks: seq<Check>)
    requires ClockRuns(checks)
    ensures checks != [] ==> Inv(After(spec, registered, checks), checks[|checks| - 1].now)
    ensures forall now :: checks == [] ==> Inv(After(spec, registered, checks), now)
  {
    if checks != [] {
      var n := |checks| - 1;
      var c := checks[n];
      RunKeepsInv(spec, registered, checks[..n]);
      var prior := if n == 0 then c.now else checks[n - 1].now;
      TickKeepsInv(spec, After(spec, registered, checks[..n]), c, prior);
    }
  }

  /** How many launches fall in the window of 60 seconds that ends at `end`, its start excluded. */
  ghost function InWindow(launches: seq<int>, end: int): int {
    CountAfter(launches, end - WINDOW) - CountAfter(launches, end)
  }

  lemma SpacedWindow(launches: seq<int>, end: int)
    requires Spaced(launches)
    ensures InWindow(launches, end) <= THRESHOLD
  {
    CountIsSuffix(launches, end - WINDOW);
    CountIsSuffix(launches, end);
    var first := |launches| - CountAfter(launches, end - WINDOW);
    if first + THRESHOLD < |launches| {
      assert launches[first + THRESHOLD] - launches[first] >= WINDOW;
    }
  }

  /** In any run, any 60-second window holds at most three restart launches. */
  lemma AtMostThreeLaunchesAMinute(spec: Spec, registered: int, checks: seq<Check>, end: int)
    requires ClockRuns(checks)
    ensures InWindow(Launches(After(spec, registered, checks).log), end) <= THRESHOLD
  {
    RunKeepsInv(spec, registered, checks);
    SpacedWindow(Launches(After(spec, registered, checks).log), end);
  }

  /** In any run, any four launches in a row span at least a minute. */
  lemma FourLaunchesSpanAMinute(spec: Spec, registered: int, checks: seq<Check>, i: nat)
    requires ClockRuns(checks) && i + THRESHOLD < |Launches(After(spec, registered, checks).log)|
    ensures var launches := Launches(After(spec, registered, checks).log);
            launches[i + THRESHOLD] - launches[i] >= WINDOW
  {
    RunKeepsInv(spec, registered, checks);
  }

  /** In any run, no restart is launched for five minutes after the circuit trips. */
  lemma NoLaunchDuringCooldown(spec: Spec, registered: int, checks: seq<Check>, i: nat, j: nat)
    requires ClockRuns(checks) && i < j < |After(spec, registered, checks).log|
    requires After(spec, registered, checks).log[i].Tripped? && After(spec, registered, checks).log[j].Launched?
    ensures After(spec, registered, checks).log[j].at >= After(spec, registered, checks).log[i].at + COOLDOWN
  {
    RunKeepsInv(spec, registered, checks);
  }

  // ---- Back-off ----

  /** The delay of the last launch. */
  function LastDelay(log: seq<Event>): Option<int> {
    if log == [] then None
    else if log[|log| - 1].Launched? then Some(log[|log| - 1].delay)
    else LastDelay(log[..|log| - 1])
  }

  /** The first delay, or twice the last one, up to a minute. */
  ghost predicate FollowsOn(delay: int, log: seq<Event>) {
    delay == FIRST_BACKOFF || (LastDelay(log).Some? && delay == Doubled(LastDelay(log).value))
  }

  ghost predicate DelaysFollowOn(log: seq<Event>) {
    forall i :: 0 <= i < |log| && log[i].Launched? ==> FollowsOn(log[i].delay, log[..i])
  }

  lemma EventKeepsDelays(log: seq<Event>, e: Event)
    requires DelaysFollowOn(log) && (e.Launched? ==> FollowsOn(e.delay, log))
    ensures DelaysFollowOn(log + [e])
    ensures LastDelay(log + [e]) == if e.Launched? then Some(e.delay) else LastDelay(log)
  {
    var t := log + [e];
    assert t[..|log|] == log;
    forall i | 0 <= i < |t| && t[i].Launched? ensures FollowsOn(t[i].delay, t[..i]) {
      assert t[..i] == if i < |log| then log[..i] else log;
    }
  }

  lemma TickKeepsDelays(spec: Spec, t: Trace, c: Check)
    requires DelaysFollowOn(t.log) && FollowsOn(t.entry.backoff, t.log)
    ensures var (e, events) := Tick(spec, t.entry, c.beaten, c.now);
            DelaysFollowOn(t.log + events) && FollowsOn(e.backoff, t.log + events)
  {
    var (e, events) := Tick(spec, t.entry, c.beaten, c.now);
    if events == [] {
      assert t.log + events == t.log;
    } else {
      assert events == [events[0]];
      EventKeepsDelays(t.log, events[0]);
    }
  }

  /** In any run every launch waits five seconds or twice as long as the launch before it, up to a minute. */
  lemma {:induction false} BackoffDoubles(spec: Spec, registered: int, checks: seq<Check>)
    ensures var t := After(spec, registered, checks); DelaysFollowOn(t.log) && FollowsOn(t.entry.backoff, t.log)
  {
    if checks != [] {
      BackoffDoubles(spec, registered, checks[..|checks| - 1]);
      TickKeepsDelays(spec, After(spec, registered, checks[..|checks| - 1]), checks[|checks| - 1]);
    }
  }

  // ---- Calls ----

  /** When a launched restart is called: after its delay. */
  function CallAt(e: Event): int
    requires e.Launched?
  {
    e.at + e.delay
  }

  /** Events are in the order of their times, and delays lie between five seconds and a minute. */
  ghost predicate TimesInv(log: seq<Event>, backoff: int, now: int) {
    && (forall i, j :: 0 <= i < j < |log| ==> log[i].at <= log[j].at)
    && (forall i :: 0 <= i < |log| ==> log[i].at <= now)
    && (forall i :: 0 <= i < |log| && log[i].Launched? ==> FIRST_BACKOFF <= log[i].delay <= MAX_BACKOFF)
    && FIRST_BACKOFF <= backoff <= MAX_BACKOFF
  }

  lemma TickKeepsTimes(spec: Spec, t: Trace, c: Check, prior: int)
    requires TimesInv(t.log, t.entry.backoff, prior) && prior <= c.now
    ensures var (e, events) := Tick(spec, t.entry, c.beaten, c.now); TimesInv(t.log + events, e.backoff, c.now)
  {
    var (e, events) := Tick(spec, t.entry, c.beaten, c.now);
    var log := t.log + events;
    assert forall i :: 0 <= i < |t.log| ==> log[i] == t.log[i];
    assert |events| <= 1 && (events != [] ==> log[|t.log|] == events[0]);
  }

  lemma {:induction false} RunKeepsTimes(spec: Spec, registered: int, checks: seq<Check>, now: int)
    requires ClockRuns(checks) && (checks != [] ==> checks[|checks| - 1].now <= now)
    ensures var t := After(spec, registered, checks); TimesInv(t.log, t.entry.backoff, now)
  {
    if checks != [] {
      var n := |checks| - 1;
      RunKeepsTimes(spec, registered, checks[..n], checks[n].now);
      TickKeepsTimes(spec, After(spec, registered, checks[..n]), checks[n], checks[n].now);
    }
  }

  /**
   * A restart that is called during the cool-down of a trip was launched before the trip, and is called
   * within a minute of it; from then on the cool-down is free of calls.
   */
  lemma CallsAfterATrip(spec: Spec, registered: int, checks: seq<Check>, i: nat, j: nat)
    requires ClockRuns(checks) && i < |After(spec, registered, checks).log| && j < |After(spec, registered, checks).log|
    requires After(spec, registered, checks).log[i].Tripped? && After(spec, registered, checks).log[j].Launched?
    requires var log := After(spec, registered, checks).log;
             log[i].at <= CallAt(log[j]) < log[i].at + COOLDOWN
    ensures var log := After(spec, registered, checks).log;
            j < i && CallAt(log[j]) <= log[i].at + MAX_BACKOFF
  {
    var log := After(spec, registered, checks).log;
    RunKeepsTimes(spec, registered, checks, if checks == [] then 0 else checks[|checks| - 1].now);
    if i < j {
      NoLaunchDuringCooldown(spec, registered, checks, i, j);
    }
  }

  // ---- The record ----

  /** A trip less than a cool-down ago, by the record of everything that ever happened. */
  ghost predicate CoolingDown(log: seq<Event>, now: int) {
    exists i :: 0 <= i < |log| && log[i].Tripped? && log[i].at > now - COOLDOWN
  }

  lemma OpenMeansCoolingDown(log: seq<Event>, r: Entry, now: int)
    requires CircuitInv(log, r, now) && (r.open ==> now - r.openAt < COOLDOWN)
    ensures r.open <==> CoolingDown(log, now)
  {
    if r.open {
      var i :| 0 <= i < |log| && log[i].Tripped? && log[i].at == r.openAt;
      assert log[i].at > now - COOLDOWN;
    }
  }

  /** The time of the last check that found a heartbeat, or of the registration. */
  function LastBeat(registered: int, checks: seq<Check>): int {
    if checks == [] then registered
    else if checks[|checks| - 1].beaten then checks[|checks| - 1].now
    else LastBeat(registered, checks[..|checks| - 1])
  }

  /** The last check found the last heartbeat too long ago. */
  predicate Late(spec: Spec, registered: int, checks: seq<Check>)
    requires checks != []
  {
    checks[|checks| - 1].now - LastBeat(registered, checks) > spec.sla
  }

  /** The last two checks were late, and the first of them came outside any cool-down. */
  ghost predicate Due(spec: Spec, registered: int, checks: seq<Check>, log: seq<Event>) {
    && spec.restartable && |checks| >= 2
    && Late(spec, registered, checks) && Late(spec, registered, checks[..|checks| - 1])
    && !CoolingDown(log, checks[|checks| - 2].now)
  }

  /** The last check was in time and the one before was late, and no cool-down ended in between. */
  ghost predicate Recovers(spec: Spec, registered: int, checks: seq<Check>, log: seq<Event>) {
    && |checks| >= 2
    && !Late(spec, registered, checks) && Late(spec, registered, checks[..|checks| - 1])
    && (CoolingDown(log, checks[|checks| - 2].now) ==> CoolingDown(log, checks[|checks| - 1].now))
  }

  /** Three launches of the whole record are recent. */
  ghost predicate TooMany(log: seq<Event>, now: int) {
    CountAfter(Launches(log), now - WINDOW) >= THRESHOLD
  }

  /** What a run of checks sets off, by the checks alone, without any counters. */
  ghost function Record(spec: Spec, registered: int, checks: seq<Check>): seq<Event> {
    if checks == [] then []
    else
      var init, now := checks[..|checks| - 1], checks[|checks| - 1].now;
      var log := Record(spec, registered, init);
      if !Due(spec, registered, checks, log) then log
      else if TooMany(log, now) then log + [Tripped(now, spec.critical)]
      else log + [Launched(now, Backoff(spec, registered, init))]
  }

  /** The next launch's delay: five seconds to start with and after a recovery, doubled by every launch. */
  ghost function Backoff(spec: Spec, registered: int, checks: seq<Check>): int {
    if checks == [] then FIRST_BACKOFF
    else
      var init, now := checks[..|checks| - 1], checks[|checks| - 1].now;
      var log := Record(spec, registered, init);
      if Recovers(spec, registered, checks, log) then FIRST_BACKOFF
      else if Due(spec, registered, checks, log) && !TooMany(log, now) then Doubled(Backoff(spec, registered, init))
      else Backoff(spec, registered, init)
  }

  /** The entry's counters, in terms of the checks. */
  ghost predicate Recorded(spec: Spec, registered: int, checks: seq<Check>, t: Trace) {
    && t.log == Record(spec, registered, checks)
    && t.entry.lastBeat == LastBeat(registered, checks) && t.entry.backoff == Backoff(spec, registered, checks)
    && (t.entry.missed > 0 <==> checks != [] && Late(spec, registered, checks))
    && (t.entry.open ==> checks != [] && checks[|checks| - 1].now - t.entry.openAt < COOLDOWN)
  }

  /** The invariant, at the time of the next check. */
  lemma ReadyForCheck(spec: Spec, registered: int, checks: seq<Check>, c: Check) returns (prior: int)
    requires ClockRuns(checks + [c])
    ensures prior <= c.now && Inv(After(spec, registered, checks), prior)
    ensures checks != [] ==> prior == checks[|checks| - 1].now
  {
    assert forall i :: 0 <= i < |checks| ==> checks[i] == (checks + [c])[i];
    assert (checks + [c])[|checks|] == c;
    RunKeepsInv(spec, registered, checks);
    prior := if checks == [] then c.now else checks[|checks| - 1].now;
  }

  /** What refreshing leaves: the misses unless a cool-down has ended, and the circuit as the record has it. */
  lemma RefreshByRecord(log: seq<Event>, e: Entry, c: Check, prior: int)
    requires Inv(Trace(e, log), prior) && prior <= c.now && (e.open ==> prior - e.openAt < COOLDOWN)
    ensures var r := Refreshed(e, c.beaten, c.now);
            && Inv(Trace(r, log), c.now) && (r.open ==> c.now - r.openAt < COOLDOWN)
            && (r.open <==> CoolingDown(log, c.now))
            && r.missed == if CoolingDown(log, prior) && !CoolingDown(log, c.now) then 0 else e.missed
  {
    var r := Refreshed(e, c.beaten, c.now);
    RefreshKeepsInv(Trace(e, log), c, prior);
    OpenMeansCoolingDown(log, e, prior);
    OpenMeansCoolingDown(log, r, c.now);
  }

  lemma NoCoolingYet(log: seq<Event>, before: int, now: int)
    requires before <= now && CoolingDown(log, now)
    ensures CoolingDown(log, before)
  {
  }

  lemma {:induction false} RunIsRecorded(spec: Spec, registered: int, checks: seq<Check>)
    requires ClockRuns(checks)
    ensures Recorded(spec, registered, checks, After(spec, registered, checks))
  {
    if checks != [] {
      var init, c := checks[..|checks| - 1], checks[|checks| - 1];
      assert checks == init + [c];
      RunIsRecorded(spec, registered, init);
      var prior := ReadyForCheck(spec, registered, init, c);
      CheckIsRecorded(spec, registered, init, c, prior);
    }
  }

  /** An escalation, in terms of what the record knows. */
  lemma EscalationByRecord(spec: Spec, r: Entry, now: int, late: bool, missed: bool, cooling: bool, tooMany: bool)
    requires late == (now - r.lastBeat > spec.sla) && missed == (r.missed > 0) && cooling == r.open
    requires tooMany == (CountAfter(r.restartTimes, now - WINDOW) >= THRESHOLD)
    ensures var (e, events) := Escalated(spec, r, now);
            var due := late && missed && !cooling && spec.restartable;
            && events == (if !due then [] else if tooMany then [Tripped(now, spec.critical)]
                          else [Launched(now, r.backoff)])
            && e.backoff == (if !late && missed then FIRST_BACKOFF
                             else if due && !tooMany then Doubled(r.backoff) else r.backoff)
            && e.lastBeat == r.lastBeat && (e.missed > 0 <==> late)
            && (e.open ==> e.openAt == now || (r.open && e.openAt == r.openAt))
  {
  }

  lemma RecordNext(spec: Spec, registered: int, init: seq<Check>, c: Check)
    ensures var checks, log := init + [c], Record(spec, registered, init);
            var due, tooMany := Due(spec, registered, checks, log), TooMany(log, c.now);
            && Record(spec, registered, checks)
               == log + (if !due then [] else if tooMany then [Tripped(c.now, spec.critical)]
                         else [Launched(c.now, Backoff(spec, registered, init))])
            && Backoff(spec, registered, checks)
               == (if Recovers(spec, registered, checks, log) then FIRST_BACKOFF
                   else if due && !tooMany then Doubled(Backoff(spec, registered, init))
                   else Backoff(spec, registered, init))
            && LastBeat(registered, checks) == if c.beaten then c.now else LastBeat(registered, init)
  {
    assert (init + [c])[..|init|] == init;
    assert Record(spec, registered, init) + [] == Record(spec, registered, init);
  }

  /** The conditions of the record, in terms of what refreshing leaves. */
  lemma DueByRecord(spec: Spec, registered: int, init: seq<Check>, c: Check, prior: int, log: seq<Event>)
    requires prior <= c.now && (init != [] ==> prior == init[|init| - 1].now)
    ensures var checks := init + [c];
            var late := Late(spec, registered, checks);
            var cooled := CoolingDown(log, prior) && !CoolingDown(log, c.now);
            var missed := init != [] && Late(spec, registered, init) && !cooled;
            && (Due(spec, registered, checks, log)
                <==> late && missed && !CoolingDown(log, c.now) && spec.restartable)
            && (Recovers(spec, registered, checks, log) <==> !late && missed)
  {
    assert (init + [c])[..|init|] == init;
    if CoolingDown(log, c.now) {
      NoCoolingYet(log, prior, c.now);
    }
  }

  lemma CheckIsRecorded(spec: Spec, registered: int, init: seq<Check>, c: Check, prior: int)
    requires Recorded(spec, registered, init, After(spec, registered, init))
    requires prior <= c.now && Inv(After(spec, registered, init), prior)
    requires init != [] ==> prior == init[|init| - 1].now
    ensures Recorded(spec, registered, init + [c], After(spec, registered, init + [c]))
  {
    var checks, t := init + [c], After(spec, registered, init);
    assert checks[..|checks| - 1] == init && checks[|checks| - 1] == c;
    var r := Refreshed(t.entry, c.beaten, c.now);
    RefreshByRecord(t.log, t.entry, c, prior);
    ErasureIsHarmless(Launches(t.log), r, c.now);
    RecordNext(spec, registered, init, c);
    DueByRecord(spec, registered, init, c, prior, t.log);
    EscalationByRecord(spec, r, c.now, Late(spec, registered, checks), r.missed > 0, CoolingDown(t.log, c.now),
                       TooMany(t.log, c.now));
  }

  /**
   * A run of checks sets off exactly what its checks alone say, by the record of everything that ever
   * happened, although launches are forgotten at every cool-down.
   */
  lemma ChecksDecideByFullRecord(spec: Spec, registered: int, checks: seq<Check>)
    requires ClockRuns(checks)
    ensures After(spec, registered, checks).log == Record(spec, registered, checks)
  {
    RunIsRecorded(spec, registered, checks);
  }

  /** No heartbeat was found, and no registration made, within the allowance before the last check. */
  ghost predicate Silent(spec: Spec, registered: int, checks: seq<Check>)
    requires checks != []
  {
    var now := checks[|checks| - 1].now;
    now - registered > spec.sla && forall i :: 0 <= i < |checks| && checks[i].beaten ==> now - checks[i].now > spec.sla
  }

  lemma {:induction false} LastBeatIsLast(registered: int, checks: seq<Check>)
    requires ClockRuns(checks) && (checks != [] ==> registered <= checks[0].now)
    ensures var last := LastBeat(registered, checks);
            && registered <= last && (forall i :: 0 <= i < |checks| && checks[i].beaten ==> checks[i].now <= last)
            && (last == registered || exists i :: 0 <= i < |checks| && checks[i].beaten && checks[i].now == last)
  {
    if checks != [] {
      LastBeatIsLast(registered, checks[..|checks| - 1]);
    }
  }

  lemma LateMeansSilent(spec: Spec, registered: int, checks: seq<Check>)
    requires checks != [] && ClockRuns(checks) && registered <= checks[0].now
    ensures Late(spec, registered, checks) <==> Silent(spec, registered, checks)
  {
    LastBeatIsLast(registered, checks);
  }

  /** A check that finds a heartbeat sets nothing off. */
  lemma HeartbeatPreventsEvents(spec: Spec, registered: int, checks: seq<Check>, c: Check)
    requires spec.sla >= 0 && c.beaten
    ensures After(spec, registered, checks + [c]).log == After(spec, registered, checks).log
  {
    assert (checks + [c])[..|checks|] == checks;
    assert After(spec, registered, checks).log + [] == After(spec, registered, checks).log;
  }

  /**
   * A check launches a restart or trips the circuit exactly when there has been silence for longer than the
   * allowance, there had been at the check before it, and that one came outside any cool-down.
   */
  lemma SilenceSetsOff(spec: Spec, registered: int, checks: seq<Check>)
    requires ClockRuns(checks) && |checks| >= 2 && registered <= checks[0].now
    ensures var init := checks[..|checks| - 1];
            var before, after := After(spec, registered, init).log, After(spec, registered, checks).log;
            var due := && spec.restartable && Silent(spec, registered, init) && Silent(spec, registered, checks)
                       && !CoolingDown(before, checks[|checks| - 2].now);
            && |after| == |before| + (if due then 1 else 0) && after[..|before|] == before
            && (due ==> after[|before|].at == checks[|checks| - 1].now
                        && (after[|before|].Tripped? <==> TooMany(before, checks[|checks| - 1].now)))
  {
    var init := checks[..|checks| - 1];
    ChecksDecideByFullRecord(spec, registered, checks);
    ChecksDecideByFullRecord(spec, registered, init);
    LateMeansSilent(spec, registered, checks);
    LateMeansSilent(spec, registered, init);
  }

  /** The first check sets nothing off. */
  lemma FirstCheckIsQuiet(spec: Spec, registered: int, c: Check)
    ensures After(spec, registered, [c]).log == []
  {
    assert After(spec, registered, [c][..0]) == Trace(Registered(registered), []);
  }

  // ---- The code ----

  /** A registered subsystem: its heartbeat channel and its counters. */
  class Subsystem {
    const spec: Spec
    var pending: nat
    var lastBeat: int
    var missed: nat
    var restartTimes: seq<int>
    var open: bool
    var openAt: int
    var backoff: int
    /** When it was registered, every check since, and everything those checks set off. */
    ghost const registered: int
    ghost var checks: seq<Check>
    ghost var log: seq<Event>

    ghost predicate Valid()
      reads this
    {
      After(spec, registered, checks) == Trace(State(), log)
    }

    ghost function State(): Entry
      reads this
    {
      Entry(lastBeat, missed, restartTimes, open, openAt, backoff)
    }

    constructor (spec: Spec, now: int)
      ensures Valid() && this.spec == spec && registered == now && checks == []
    {
      this.spec := spec;
      pending := 0;
      lastBeat, missed, restartTimes, open, openAt, backoff := now, 0, [], false, 0, FIRST_BACKOFF;
      registered, checks, log := now, [], [];
    }

    /** Signals liveness; a full channel drops the signal. */
    method Beat()
      requires Valid()
      modifies `pending
      ensures Valid() && pending > 0
    {
      if pending < CHANNEL_SIZE {
        pending := pending + 1;
      }
    }

    /** Drains the channel and ends an elapsed cool-down. */
    method Refresh(now: int)
      modifies this
      ensures State() == Refreshed(old(State()), old(pending) > 0, now) && pending == 0
      ensures lastBeat == if old(pending) > 0 then now else old(lastBeat)
      ensures unchanged(`checks) && unchanged(`log)
    {
      while pending > 0
        invariant State() == if pending < old(pending) then old(State()).(lastBeat := now) else old(State())
        invariant pending <= old(pending)
        invariant unchanged(`checks) && unchanged(`log)
      {
        pending := pending - 1;
        lastBeat := now;
      }
      if open && now - openAt >= COOLDOWN {
        open := false;
        restartTimes := [];
        missed := 0;
      }
    }

    /** Measures the time since the last heartbeat and escalates. */
    method Escalate(now: int) returns (events: seq<Event>)
      modifies `missed, `restartTimes, `open, `openAt, `backoff
      ensures (State(), events) == Escalated(spec, old(State()), now)
    {
      events := [];
      if now - lastBeat <= spec.sla {
        if missed > 0 {
          missed := 0;
          backoff := FIRST_BACKOFF;
        }
        return;
      }
      missed := missed + 1;
      if missed >= 2 && !open && spec.restartable {
        var recent := CountRecent(restartTimes, now, WINDOW);
        if recent >= THRESHOLD {
          open := true;
          openAt := now;
          events := [Tripped(now, spec.critical)];
        } else {
          events := [Launched(now, backoff)];
          restartTimes := restartTimes + [now];
          backoff := backoff * 2;
          if backoff > MAX_BACKOFF {
            backoff := MAX_BACKOFF;
          }
        }
      }
    }

    /** One check of this subsystem by the watchdog's loop. */
    method CheckOnce(now: int) returns (events: seq<Event>)
      requires Valid()
      modifies this
      ensures Valid() && Checked(this, now) && log == old(log) + events
    {
      ghost var c := Check(now, pending > 0);
      Refresh(now);
      events := Escalate(now);
      checks := checks + [c];
      log := log + events;
      assert checks[..|checks| - 1] == old(checks);
      assert c.beaten && spec.sla >= 0 ==> old(log) + [] == old(log);
    }
  }

  /**
   * One check was appended, with what the channel held before; the channel is empty now. A waiting heartbeat
   * means that nothing was set off.
   */
  twostate predicate Checked(s: Subsystem, now: int)
    reads s
  {
    && s.pending == 0 && s.checks == old(s.checks) + [Check(now, old(s.pending) > 0)]
    && (old(s.pending) > 0 && s.spec.sla >= 0 ==> s.log == old(s.log))
  }

  twostate predicate Untouched(s: Subsystem)
    reads s
  {
    s.pending == old(s.pending) && s.checks == old(s.checks)
  }

  ghost predicate Injective(entries: map<string, Subsystem>) {
    forall m, n :: m in entries && n in entries && m != n ==> entries[m] != entries[n]
  }

  class Watchdog {
    var entries: map<string, Subsystem>

    ghost predicate Valid()
      reads this, entries.Values
    {
      (forall s :: s in entries.Values ==> s.Valid()) && Injective(entries)
    }

    constructor ()
      ensures Valid() && entries == map[]
    {
      entries := map[];
    }

    /** Registers a subsystem; a second registration of a name starts afresh. */
    method Register(name: string, spec: Spec, now: int) returns (s: Subsystem)
      requires Valid()
      modifies this
      ensures Valid() && fresh(s) && entries == old(entries)[name := s]
      ensures s.spec == spec && s.registered == now && s.checks == []
    {
      s := new Subsystem(spec, now);
      entries := entries[name := s];
    }

    /** Checks one registered subsystem; the others are not touched. */
    method CheckEntry(name: string, now: int)
      requires Valid() && name in entries
      modifies entries[name]
      ensures Valid() && Checked(entries[name], now)
      ensures forall n :: n in entries && n != name ==> Untouched(entries[n])
    {
      assert forall m :: m in entries && m != name ==> entries[m] != entries[name];
      var events := entries[name].CheckOnce(now);
    }

    /** Checks every registered subsystem once, all at the same time. */
    method Tick(now: int)
      requires Valid()
      modifies entries.Values
      ensures Valid() && entries == old(entries)
      ensures forall n :: n in entries ==> Checked(entries[n], now)
    {
      var rest := entries.Keys;
      while rest != {}
        invariant rest <= entries.Keys && Valid()
        invariant forall n :: n in rest ==> Untouched(entries[n])
        invariant forall n :: n in entries && n !in rest ==> Checked(entries[n], now)
      {
        var n :| n in rest;
        rest := rest - {n};
        CheckEntry(n, now);
      }
    }
  }
}
