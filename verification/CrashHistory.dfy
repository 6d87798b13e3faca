/**
 * Bounded crash histories: the supervisor's truncated list (core/supervisor/supervisor.go) and the
 * self-healer's ring of failures (core/supervisor/self_healer.go). Both decide as an unlimited
 * history would.
 */
module CrashHistory {
  import opened Wrappers
  import opened History

  const CRASH_WINDOW := 300 * SECOND
  const MAX_CRASHES: nat := 3
  const KEPT_CRASHES: nat := 10

  const RING_SIZE: nat := 16
  const CORRELATION_WINDOW := 120 * SECOND
  const CORRELATION_THRESHOLD: nat := 3
  const MAX_ATTEMPTS: nat := 6
  const BACKOFF_SECONDS := [1, 2, 4, 8, 16, 30]
  const BACKOFF_CAP := 30 * SECOND

  function LastOf<T>(s: seq<T>, k: nat): seq<T> {
    if |s| <= k then s else s[|s| - k..]
  }

  // ---- The supervisor's list ----

  /** Counting in the kept crashes and the new one is counting in all, up to one more than are kept. */
  lemma TruncatedCountIsExact(all: seq<int>, now: int, cutoff: int)
    requires Sorted(all + [now])
    ensures CountAfter(LastOf(all, KEPT_CRASHES) + [now], cutoff)
         == Least(CountAfter(all + [now], cutoff), KEPT_CRASHES + 1)
  {
    var full := all + [now];
    var k := Least(|full|, KEPT_CRASHES + 1);
    assert full[|full| - k..] == LastOf(all, KEPT_CRASHES) + [now];
    CountOfTail(full, k, cutoff);
  }

  class ServiceEntry {
    var crashTimes: seq<int>
    /** Every crash ever recorded. */
    ghost var all: seq<int>

    ghost predicate Valid()
      reads this
    {
      Sorted(all) && crashTimes == LastOf(all, KEPT_CRASHES)
    }

    constructor ()
      ensures Valid() && all == []
    {
      crashTimes, all := [], [];
    }

    /** Appends a crash, counts the recent ones, and keeps the last ten. */
    method RecordCrash(now: int) returns (n: nat)
      requires Valid() && Sorted(all + [now])
      modifies this
      ensures Valid() && all == old(all) + [now]
      ensures n == Least(CountAfter(all, now - CRASH_WINDOW), KEPT_CRASHES + 1)
    {
      TruncatedCountIsExact(all, now, now - CRASH_WINDOW);
      crashTimes := crashTimes + [now];
      n := CountRecent(crashTimes, now, CRASH_WINDOW);
      if |crashTimes| > KEPT_CRASHES {
        crashTimes := crashTimes[|crashTimes| - KEPT_CRASHES..];
      }
      all := all + [now];
    }

    /** The decision of `attemptRestart`: escalate instead of restarting. */
    method CrashEscalates(now: int) returns (escalate: bool)
      requires Valid() && Sorted(all + [now])
      modifies this
      ensures Valid() && all == old(all) + [now]
      ensures escalate <==> CountAfter(all, now - CRASH_WINDOW) > MAX_CRASHES
    {
      var n := RecordCrash(now);
      escalate := n > MAX_CRASHES;
    }
  }

  // ---- The self-healer's ring ----

  function CountSlots(s: seq<Option<int>>, cutoff: int): nat {
    if s == [] then 0
    else CountSlots(s[..|s| - 1], cutoff) + (if s[|s| - 1].Some? && s[|s| - 1].value > cutoff then 1 else 0)
  }

  lemma {:induction false} SlotsConcat(a: seq<Option<int>>, b: seq<Option<int>>, cutoff: int)
    ensures CountSlots(a + b, cutoff) == CountSlots(a, cutoff) + CountSlots(b, cutoff)
  {
    if b == [] {
      assert a + b == a;
    } else {
      SlotsConcat(a, b[..|b| - 1], cutoff);
      assert (a + b)[..|a + b| - 1] == a + b[..|b| - 1];
    }
  }

  /** The ring read from its oldest slot: the newest failures, after slots never written. */
  ghost function Expected(failures: seq<int>): seq<Option<int>> {
    seq(RING_SIZE, i requires 0 <= i < RING_SIZE =>
      if i + |failures| >= RING_SIZE then Some(failures[i + |failures| - RING_SIZE]) else None)
  }

  lemma {:induction false} SlotsCountValues(s: seq<Option<int>>, values: seq<int>, cutoff: int)
    requires |values| <= |s|
    requires forall i :: 0 <= i < |s| ==> s[i] == if i + |values| >= |s| then Some(values[i + |values| - |s|]) else None
    ensures CountSlots(s, cutoff) == CountAfter(values, cutoff)
  {
    if s != [] {
      SlotsCountValues(s[..|s| - 1], if values == [] then [] else values[..|values| - 1], cutoff);
    }
  }

  /** Counting over the ring, in whatever order its slots lie, is counting in all failures, up to its size. */
  lemma RingCountIsExact(ring: seq<Option<int>>, head: nat, failures: seq<int>, cutoff: int)
    requires head < |ring| && ring[head..] + ring[..head] == Expected(failures) && Sorted(failures)
    ensures CountSlots(ring, cutoff) == Least(CountAfter(failures, cutoff), RING_SIZE)
  {
    SlotsConcat(ring[..head], ring[head..], cutoff);
    SlotsConcat(ring[head..], ring[..head], cutoff);
    assert ring[..head] + ring[head..] == ring;
    var k := Least(|failures|, RING_SIZE);
    SlotsCountValues(Expected(failures), failures[|failures| - k..], cutoff);
    CountOfTail(failures, k, cutoff);
  }

  /** Overwriting the oldest slot and moving on drops the oldest entry and appends the new one. */
  lemma RingAppend(ring: seq<Option<int>>, head: nat, failures: seq<int>, t: int)
    requires |ring| == RING_SIZE && head < RING_SIZE && ring[head..] + ring[..head] == Expected(failures)
    ensures var next := (head + 1) % RING_SIZE; var after := ring[head := Some(t)];
            after[next..] + after[..next] == Expected(failures + [t])
  {
    var next, after := (head + 1) % RING_SIZE, ring[head := Some(t)];
    var r, x := ring[head..] + ring[..head], Expected(failures + [t]);
    if next == 0 {
      assert after[next..] + after[..next] == ring[..head] + [Some(t)];
      assert r[1..] == ring[..head];
    } else {
      assert after[next..] == ring[next..] && after[..next] == ring[..head] + [Some(t)];
      assert r[1..] == ring[next..] + ring[..head];
    }
    assert after[next..] + after[..next] == r[1..] + [Some(t)];
    assert forall i :: 0 <= i < RING_SIZE - 1 ==> x[i] == Expected(failures)[i + 1];
  }

  datatype ServiceRecord = ServiceRecord(attempts: nat, lastFail: Option<int>, disabled: bool)

  /** What the healer does about a failure; `told`: whom the callback names when it gives up. */
  datatype Reaction = Ignore | GiveUp(told: set<string>) | Correlated(services: set<string>) | RestartAfter(delay: int)

  /** What the healer has been told. */
  datatype Notice = Registered(name: string) | Started(name: string) | Failed(name: string)

  /** The service's failures since it was registered or last started. */
  function FailuresOf(notices: seq<Notice>, name: string): nat {
    if notices == [] then 0
    else CountNotice(FailuresOf(notices[..|notices| - 1], name), notices[|notices| - 1], name)
  }

  function CountNotice(before: nat, n: Notice, name: string): nat {
    if n.name != name then before else if n.Failed? then before + 1 else 0
  }

  lemma NextNotice(notices: seq<Notice>, n: Notice)
    ensures forall name :: FailuresOf(notices + [n], name) == CountNotice(FailuresOf(notices, name), n, name)
  {
    assert (notices + [n])[..|notices|] == notices;
  }

  function BackoffFor(attempt: nat): int {
    if attempt >= |BACKOFF_SECONDS| then BACKOFF_CAP else BACKOFF_SECONDS[attempt] * SECOND
  }

  /** One second at first, then twice as long every time, up to thirty. */
  lemma DelaysDouble(attempt: nat)
    ensures BackoffFor(0) == 1 * SECOND
    ensures BackoffFor(attempt + 1) == Least(2 * BackoffFor(attempt), 30 * SECOND)
  {
    assert attempt < 6 || attempt >= 6;
  }

  /** Delays never shrink, and are at most thirty seconds. */
  lemma {:induction false} DelaysNeverShrink(a: nat, b: nat)
    requires a <= b
    ensures 1 * SECOND <= BackoffFor(a) <= BackoffFor(b) <= 30 * SECOND
    decreases b
  {
    if a < b {
      DelaysNeverShrink(a, b - 1);
      DelaysDouble(b - 1);
    } else if a > 0 {
      DelaysNeverShrink(a - 1, a - 1);
      DelaysDouble(a - 1);
    }
  }

  function RecentlyFailed(services: map<string, ServiceRecord>, cutoff: int): set<string> {
    set n | n in services && services[n].lastFail.Some? && services[n].lastFail.value > cutoff
  }

  /** The services that failed recently, if enough failures of the whole history are recent. */
  function CorrelatedIn(services: map<string, ServiceRecord>, failures: seq<int>, cutoff: int): set<string> {
    if CountAfter(failures, cutoff) >= CORRELATION_THRESHOLD then RecentlyFailed(services, cutoff) else {}
  }

  /** The table after a service's k-th failure in a row. */
  function Noted(services: map<string, ServiceRecord>, name: string, k: nat, t: int): map<string, ServiceRecord> {
    services[name := ServiceRecord(k, Some(t), k > MAX_ATTEMPTS)]
  }

  /** What is due on a service's k-th failure in a row. */
  function ReactionTo(hasCallback: bool, name: string, k: nat, correlated: set<string>): Reaction
    requires k > 0
  {
    if k > MAX_ATTEMPTS then GiveUp(if hasCallback then {name} else {})
    else if correlated != {} && hasCallback then Correlated(correlated)
    else RestartAfter(BackoffFor(k - 1))
  }

  /** Disabling a service after noting its failure: the same table as at once, and the same recent failures. */
  lemma NotedTwice(
      services: map<string, ServiceRecord>, name: string, k: nat, t: int, failures: seq<int>, cutoff: int)
    ensures var noted := services[name := ServiceRecord(k, Some(t), false)];
            var after := noted[name := noted[name].(disabled := k > MAX_ATTEMPTS)];
            && after == Noted(services, name, k, t)
            && CorrelatedIn(after, failures, cutoff) == CorrelatedIn(noted, failures, cutoff)
  {
    var noted := services[name := ServiceRecord(k, Some(t), false)];
    assert RecentlyFailed(Noted(services, name, k, t), cutoff) == RecentlyFailed(noted, cutoff);
  }

  class SelfHealer {
    const hasCallback: bool
    const ring: array<Option<int>>
    var services: map<string, ServiceRecord>
    var head: nat
    /** Every failure ever recorded. */
    ghost var failures: seq<int>
    /** Everything the healer was told about its services. */
    ghost var notices: seq<Notice>

    /** Attempts count failures since the last start; a service is disabled once there are too many. */
    ghost predicate Counted()
      reads `services, `notices
    {
      forall n :: n in services ==>
        && services[n].attempts == FailuresOf(notices, n)
        && (services[n].disabled <==> FailuresOf(notices, n) > MAX_ATTEMPTS)
    }

    /** The same, while it is not yet decided whether to give this one up. */
    ghost predicate CountedBut(name: string)
      reads `services, `notices
    {
      && name in services && !services[name].disabled
      && forall n :: n in services ==>
        services[n].attempts == FailuresOf(notices, n)
        && (n != name ==> (services[n].disabled <==> FailuresOf(notices, n) > MAX_ATTEMPTS))
    }

    /** The ring holds the newest failures. */
    ghost predicate RingHolds()
      reads `head, `failures, ring
    {
      && ring.Length == RING_SIZE && head < RING_SIZE
      && Sorted(failures)
      && ring[head..] + ring[..head] == Expected(failures)
    }

    ghost predicate Valid()
      reads this, ring
    {
      Counted() && RingHolds()
    }

    constructor (hasCallback: bool)
      ensures Valid() && failures == [] && notices == [] && services == map[] && fresh(ring)
    {
      this.hasCallback := hasCallback;
      ring := new Option<int>[RING_SIZE](_ => None);
      services, head, failures, notices := map[], 0, [], [];
    }

    /** Whatever was known of the name is forgotten: its next failure is its first. */
    method Register(name: string)
      requires Valid()
      modifies `services, `notices
      ensures Valid() && services.Keys == old(services).Keys + {name}
      ensures notices == old(notices) + [Registered(name)] && FailuresOf(notices, name) == 0
      ensures forall n :: n in services && n != name ==> n in old(services) && services[n] == old(services)[n]
    {
      NextNotice(notices, Registered(name));
      services := services[name := ServiceRecord(0, None, false)];
      notices := notices + [Registered(name)];
    }

    /** Called when a service has started again: its next failure is its first, also if it had been given up. */
    method Reset(name: string)
      requires Valid()
      modifies `services, `notices
      ensures Valid() && services.Keys == old(services).Keys
      ensures notices == old(notices) + [Started(name)] && FailuresOf(notices, name) == 0
      ensures forall n :: n in services ==>
        services[n].lastFail == old(services)[n].lastFail && (n != name ==> services[n] == old(services)[n])
    {
      NextNotice(notices, Started(name));
      if name in services {
        services := services[name := services[name].(attempts := 0, disabled := false)];
      }
      notices := notices + [Started(name)];
    }

    method RecordFailure(t: int)
      requires RingHolds() && Sorted(failures + [t])
      modifies ring, `head, `failures
      ensures RingHolds() && failures == old(failures) + [t]
    {
      ghost var before := ring[..];
      RingAppend(before, head, failures, t);
      assert before[head..] == ring[head..] && before[..head] == ring[..head];
      ring[head] := Some(t);
      assert ring[..] == before[head := Some(t)];
      head := (head + 1) % RING_SIZE;
      failures := failures + [t];
    }

    /** The services that failed in the window, if at least three failures did. */
    method DetectCorrelation(now: int) returns (failed: set<string>)
      requires RingHolds()
      ensures failed == CorrelatedIn(services, failures, now - CORRELATION_WINDOW)
    {
      var cutoff := now - CORRELATION_WINDOW;
      var recent := 0;
      for i := 0 to ring.Length
        invariant recent == CountSlots(ring[..i], cutoff)
      {
        assert ring[..i + 1][..i] == ring[..i];
        if ring[i].Some? && ring[i].value > cutoff {
          recent := recent + 1;
        }
      }
      assert ring[..ring.Length] == ring[..];
      RingCountIsExact(ring[..], head, failures, cutoff);
      if recent < CORRELATION_THRESHOLD {
        return {};
      }
      failed := RecentlyFailed(services, cutoff);
    }

    /** Counts one more attempt of an enabled service; giving up is decided later. */
    method CountFailure(name: string, t: int) returns (attempt: nat)
      requires Counted() && name in services && !services[name].disabled
      modifies `services, `notices
      ensures notices == old(notices) + [Failed(name)] && attempt == FailuresOf(notices, name)
      ensures attempt == FailuresOf(old(notices), name) + 1 && CountedBut(name)
      ensures services == old(services)[name := ServiceRecord(attempt, Some(t), false)]
    {
      NextNotice(notices, Failed(name));
      attempt := services[name].attempts + 1;
      services := services[name := services[name].(attempts := attempt, lastFail := Some(t))];
      notices := notices + [Failed(name)];
    }

    /** Counts the failure and puts it into the ring, and looks for correlated ones. */
    method NoteFailure(name: string, t1: int, t2: int, t3: int) returns (attempt: nat, correlated: set<string>)
      requires Valid() && name in services && !services[name].disabled && Sorted(failures + [t2])
      modifies `services, `notices, `head, `failures, ring
      ensures RingHolds() && failures == old(failures) + [t2] && notices == old(notices) + [Failed(name)]
      ensures attempt == FailuresOf(notices, name) == FailuresOf(old(notices), name) + 1
      ensures services == old(services)[name := ServiceRecord(attempt, Some(t1), false)] && CountedBut(name)
      ensures correlated == CorrelatedIn(services, failures, t3 - CORRELATION_WINDOW)
    {
      attempt := CountFailure(name, t1);
      RecordFailure(t2);
      correlated := DetectCorrelation(t3);
    }

    /** What is done about the failure: too many attempts disable the service. */
    method React(name: string, attempt: nat, correlated: set<string>) returns (r: Reaction)
      requires CountedBut(name) && attempt == FailuresOf(notices, name) > 0
      modifies `services
      ensures Counted() && services == old(services)[name := old(services)[name].(disabled := attempt > MAX_ATTEMPTS)]
      ensures r == ReactionTo(hasCallback, name, attempt, correlated)
    {
      var delay := BackoffFor(attempt - 1);
      if attempt > MAX_ATTEMPTS {
        services := services[name := services[name].(disabled := true)];
        return GiveUp(if hasCallback then {name} else {});
      }
      if correlated != {} && hasCallback {
        return Correlated(correlated);
      }
      return RestartAfter(delay);
    }

    /**
     * The reaction to a failure; the clock is read for the record, for the ring and for the window. A service
     * is given up on its seventh failure since it was registered or last started, and from then on ignored.
     */
    method RestartNotify(name: string, t1: int, t2: int, t3: int) returns (r: Reaction)
      requires Valid() && Sorted(failures + [t2])
      modifies this, ring
      ensures Valid()
      ensures r == Ignore <==> name !in old(services) || FailuresOf(old(notices), name) > MAX_ATTEMPTS
      ensures r == Ignore ==> services == old(services) && failures == old(failures) && notices == old(notices)
      ensures r.GiveUp? <==> name in old(services) && FailuresOf(old(notices), name) == MAX_ATTEMPTS
      ensures r != Ignore ==>
        && failures == old(failures) + [t2] && notices == old(notices) + [Failed(name)]
        && services == Noted(old(services), name, FailuresOf(notices, name), t1)
        && r == ReactionTo(hasCallback, name, FailuresOf(notices, name),
                           CorrelatedIn(services, failures, t3 - CORRELATION_WINDOW))
    {
      if name !in services || services[name].disabled {
        return Ignore;
      }
      var attempt, correlated := NoteFailure(name, t1, t2, t3);
      NotedTwice(old(services), name, attempt, t1, failures, t3 - CORRELATION_WINDOW);
      r := React(name, attempt, correlated);
    }
  }
}
