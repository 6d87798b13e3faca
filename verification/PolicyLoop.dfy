/**
 * The policy feedback loop: the event bus (core/eventbus/eventbus.go), the policy rules
 * (core/policy/policy.go), and the loop of core/main.go that consumes the very events its own
 * actions emit. The outside facts (firewall, log and threat daemons, lab) are fixed while it runs.
 */
module PolicyLoop {
  import opened Wrappers

  const BUFFER_SIZE: nat := 64
  const CRITICAL_RISK := 80
  const RISK_DELTA := 10
  const MAX_RISK := 100

  // ---- State and rules ----

  datatype Mode = Normal | Gaming | LabActive | UpdatePreparing | UpdatePendingReboot | RollbackMode | SafeMode

  datatype SystemState = SystemState(mode: Mode, riskScore: int, vaultMounted: bool, labActive: bool,
                                     firewallActive: bool, logdAlive: bool, threatdAlive: bool)

  datatype Action = ForceVaultLock | FirewallStrictProfile | FirewallRestore | RejectLabStart | RejectGamingStart
                  | EnterSafeMode | ExitSafeMode | RestartSubsystem | IncreaseRiskScore

  datatype Event = VaultLocked | SafeModeEntered | SafeModeExited | OtherEvent(name: string)

  /** P1 and P2: critical risk; an update in preparation. */
  function RiskRules(s: SystemState): seq<Action> {
    (if s.riskScore >= CRITICAL_RISK && s.mode != SafeMode
     then (if s.vaultMounted then [ForceVaultLock] else []) + [FirewallStrictProfile] else []) +
    (if s.mode == UpdatePreparing then [RejectLabStart, RejectGamingStart] else [])
  }

  /** P3: the lab runs while the vault is open. */
  function LabRules(s: SystemState): seq<Action> {
    if s.labActive && s.vaultMounted then [IncreaseRiskScore] else []
  }

  /** P4 and P5: a dead firewall and a dead audit pipeline each ask for safe mode. */
  function EnterRules(s: SystemState): seq<Action> {
    (if !s.firewallActive && s.mode != SafeMode then [EnterSafeMode] else []) +
    (if !s.logdAlive && s.mode != SafeMode then [EnterSafeMode] else [])
  }

  /** P6 to P8: safe mode blocks starts and ends when all is clear; a dead threat daemon is reported. */
  function SafeModeRules(s: SystemState): seq<Action> {
    (if s.mode == SafeMode then [RejectLabStart, RejectGamingStart] else []) +
    (if s.mode == SafeMode && s.firewallActive && s.logdAlive && s.riskScore < CRITICAL_RISK
     then [ExitSafeMode] else []) +
    (if !s.threatdAlive then [RestartSubsystem] else [])
  }

  /** All recommended actions, in rule order. */
  function Evaluate(s: SystemState): seq<Action> {
    RiskRules(s) + LabRules(s) + EnterRules(s) + SafeModeRules(s)
  }

  // ---- One action ----

  /** What an action does to the state and which events it emits; `lockWorks`: the vault script succeeds. */
  function Dispatch(s: SystemState, a: Action, lockWorks: bool): (SystemState, seq<Event>) {
    match a
    case ForceVaultLock => if lockWorks then (s.(vaultMounted := false), [VaultLocked]) else (s, [])
    case EnterSafeMode => (s.(mode := SafeMode), [SafeModeEntered])
    case ExitSafeMode => (s.(mode := Normal), [SafeModeExited])
    case IncreaseRiskScore =>
      (s.(riskScore := if s.riskScore + RISK_DELTA > MAX_RISK then MAX_RISK else s.riskScore + RISK_DELTA), [])
    case _ => (s, [])
  }

  function DispatchAll(s: SystemState, actions: seq<Action>, lockWorks: bool): (SystemState, seq<Event>) {
    if actions == [] then (s, [])
    else
      var (t, e) := DispatchAll(s, actions[..|actions| - 1], lockWorks);
      var (u, f) := Dispatch(t, actions[|actions| - 1], lockWorks);
      (u, e + f)
  }

  lemma {:induction false} DispatchConcat(s: SystemState, a: seq<Action>, b: seq<Action>, lockWorks: bool)
    ensures var (t, e) := DispatchAll(s, a, lockWorks);
            var (u, f) := DispatchAll(t, b, lockWorks);
            DispatchAll(s, a + b, lockWorks) == (u, e + f)
  {
    var (t, e) := DispatchAll(s, a, lockWorks);
    if b == [] {
      assert a + b == a && e + [] == e;
    } else {
      DispatchConcat(s, a, b[..|b| - 1], lockWorks);
      assert (a + b)[..|a + b| - 1] == a + b[..|b| - 1];
      var (u, f) := DispatchAll(t, b[..|b| - 1], lockWorks);
      var (v, g) := Dispatch(u, b[|b| - 1], lockWorks);
      assert (e + f) + g == e + (f + g);
    }
  }

  lemma DispatchOne(s: SystemState, a: Action, lockWorks: bool)
    ensures DispatchAll(s, [a], lockWorks) == Dispatch(s, a, lockWorks)
  {
    assert [a][..0] == [] && [] + Dispatch(s, a, lockWorks).1 == Dispatch(s, a, lockWorks).1;
  }

  /** Actions that the loop leaves to others, or that only touch the firewall. */
  predicate Inert(a: Action) {
    || a == RejectLabStart || a == RejectGamingStart
    || a == FirewallStrictProfile || a == FirewallRestore || a == RestartSubsystem
  }

  lemma {:induction false} InertActions(s: SystemState, actions: seq<Action>, lockWorks: bool)
    requires forall a :: a in actions ==> Inert(a)
    ensures DispatchAll(s, actions, lockWorks) == (s, [])
  {
    if actions != [] {
      InertActions(s, actions[..|actions| - 1], lockWorks);
      assert actions[|actions| - 1] in actions;
      var none: seq<Event> := [];
      assert none + none == none;
    }
  }

  // ---- One pass ----

  /** The whole pass over a snapshot, as the rules say. */
  function PassResult(s: SystemState, lockWorks: bool): (SystemState, seq<Event>) {
    DispatchAll(s, Evaluate(s), lockWorks)
  }

  predicate Locks(s: SystemState, lockWorks: bool) {
    s.vaultMounted && s.riskScore >= CRITICAL_RISK && s.mode != SafeMode && lockWorks
  }

  predicate Exits(s: SystemState) {
    s.mode == SafeMode && s.firewallActive && s.logdAlive && s.riskScore < CRITICAL_RISK
  }

  /** How often a pass enters safe mode: once for each dead guardian. */
  function Entries(s: SystemState): nat {
    if s.mode == SafeMode then 0 else (if s.firewallActive then 0 else 1) + (if s.logdAlive then 0 else 1)
  }

  function RaisedRisk(score: int): int {
    if score + RISK_DELTA > MAX_RISK then MAX_RISK else score + RISK_DELTA
  }

  /** What a pass does, without going through the actions. */
  function PassEffect(s: SystemState, lockWorks: bool): SystemState {
    s.(vaultMounted := s.vaultMounted && !Locks(s, lockWorks),
       riskScore := if s.labActive && s.vaultMounted then RaisedRisk(s.riskScore) else s.riskScore,
       mode := if Exits(s) then Normal else if Entries(s) > 0 then SafeMode else s.mode)
  }

  function Copies(e: Event, n: nat): seq<Event> {
    seq(n, i => e)
  }

  /** The events a pass emits: the lock, an entry for each dead guardian, the exit. */
  function PassEvents(s: SystemState, lockWorks: bool): seq<Event> {
    Copies(VaultLocked, if Locks(s, lockWorks) then 1 else 0)
    + Copies(SafeModeEntered, Entries(s))
    + Copies(SafeModeExited, if Exits(s) then 1 else 0)
  }

  lemma RiskPart(s: SystemState, lockWorks: bool)
    ensures var (t, e) := DispatchAll(s, RiskRules(s), lockWorks);
            && t == s.(vaultMounted := s.vaultMounted && !Locks(s, lockWorks))
            && e == Copies(VaultLocked, if Locks(s, lockWorks) then 1 else 0)
  {
    if s.vaultMounted && s.riskScore >= CRITICAL_RISK && s.mode != SafeMode {
      var rest := RiskRules(s)[1..];
      assert RiskRules(s) == [ForceVaultLock] + rest;
      DispatchOne(s, ForceVaultLock, lockWorks);
      DispatchConcat(s, [ForceVaultLock], rest, lockWorks);
      InertActions(Dispatch(s, ForceVaultLock, lockWorks).0, rest, lockWorks);
    } else {
      InertActions(s, RiskRules(s), lockWorks);
    }
  }

  lemma LabPart(s: SystemState, t: SystemState, lockWorks: bool)
    ensures DispatchAll(t, LabRules(s), lockWorks)
         == (if s.labActive && s.vaultMounted then t.(riskScore := RaisedRisk(t.riskScore)) else t, [])
  {
    DispatchOne(t, IncreaseRiskScore, lockWorks);
  }

  /** Entering safe mode n times, where n is the number of dead guardians. */
  lemma EnterTimes(t: SystemState, n: nat, lockWorks: bool)
    requires n <= 2
    ensures DispatchAll(t, seq(n, i => EnterSafeMode), lockWorks)
         == (if n > 0 then t.(mode := SafeMode) else t, Copies(SafeModeEntered, n))
  {
    var u, once := t.(mode := SafeMode), [EnterSafeMode];
    DispatchOne(t, EnterSafeMode, lockWorks);
    DispatchOne(u, EnterSafeMode, lockWorks);
    if n == 1 {
      assert seq(n, i => EnterSafeMode) == once && Copies(SafeModeEntered, n) == [SafeModeEntered];
    } else if n == 2 {
      DispatchConcat(t, once, once, lockWorks);
      assert seq(n, i => EnterSafeMode) == once + once;
      assert Copies(SafeModeEntered, n) == [SafeModeEntered] + [SafeModeEntered];
    }
  }

  lemma EnterPart(s: SystemState, t: SystemState, lockWorks: bool)
    ensures DispatchAll(t, EnterRules(s), lockWorks)
         == (if Entries(s) > 0 then t.(mode := SafeMode) else t, Copies(SafeModeEntered, Entries(s)))
  {
    assert EnterRules(s) == seq(Entries(s), i => EnterSafeMode);
    EnterTimes(t, Entries(s), lockWorks);
  }

  lemma SafeModePart(s: SystemState, t: SystemState, lockWorks: bool)
    ensures var (u, e) := DispatchAll(t, SafeModeRules(s), lockWorks);
            && u == (if Exits(s) then t.(mode := Normal) else t)
            && e == Copies(SafeModeExited, if Exits(s) then 1 else 0)
  {
    if Exits(s) {
      var before, rest := [RejectLabStart, RejectGamingStart], SafeModeRules(s)[3..];
      assert SafeModeRules(s) == before + [ExitSafeMode] + rest;
      InertActions(t, before, lockWorks);
      DispatchOne(t, ExitSafeMode, lockWorks);
      DispatchConcat(t, before, [ExitSafeMode], lockWorks);
      DispatchConcat(t, before + [ExitSafeMode], rest, lockWorks);
      InertActions(t.(mode := Normal), rest, lockWorks);
    } else {
      InertActions(t, SafeModeRules(s), lockWorks);
    }
  }

  lemma DispatchParts(s: SystemState, a: seq<Action>, b: seq<Action>, c: seq<Action>, d: seq<Action>, lockWorks: bool)
    ensures var (t1, e1) := DispatchAll(s, a, lockWorks);
            var (t2, e2) := DispatchAll(t1, b, lockWorks);
            var (t3, e3) := DispatchAll(t2, c, lockWorks);
            var (t4, e4) := DispatchAll(t3, d, lockWorks);
            DispatchAll(s, a + b + c + d, lockWorks) == (t4, e1 + e2 + e3 + e4)
  {
    DispatchConcat(s, a, b, lockWorks);
    DispatchConcat(s, a + b, c, lockWorks);
    DispatchConcat(s, a + b + c, d, lockWorks);
  }

  /** The four parts' effects and events make up the summary's. */
  lemma PartsMakeUp(
      s: SystemState, lockWorks: bool, t1: SystemState, e1: seq<Event>, t2: SystemState, t3: SystemState,
      e3: seq<Event>, t4: SystemState, e4: seq<Event>)
    requires t1 == s.(vaultMounted := s.vaultMounted && !Locks(s, lockWorks))
    requires t2 == if s.labActive && s.vaultMounted then t1.(riskScore := RaisedRisk(t1.riskScore)) else t1
    requires t3 == if Entries(s) > 0 then t2.(mode := SafeMode) else t2
    requires t4 == if Exits(s) then t3.(mode := Normal) else t3
    requires e1 == Copies(VaultLocked, if Locks(s, lockWorks) then 1 else 0)
    requires e3 == Copies(SafeModeEntered, Entries(s)) && e4 == Copies(SafeModeExited, if Exits(s) then 1 else 0)
    ensures t4 == PassEffect(s, lockWorks) && e1 + [] + e3 + e4 == PassEvents(s, lockWorks)
  {
    assert e1 + [] == e1;
  }

  /** Running a snapshot's actions one after another has the summary effect, and emits the summary's events. */
  lemma PassIsEffect(s: SystemState, lockWorks: bool)
    ensures PassResult(s, lockWorks).0 == PassEffect(s, lockWorks)
    ensures PassResult(s, lockWorks).1 == PassEvents(s, lockWorks)
  {
    DispatchParts(s, RiskRules(s), LabRules(s), EnterRules(s), SafeModeRules(s), lockWorks);
    var p1 := DispatchAll(s, RiskRules(s), lockWorks);
    var p2 := DispatchAll(p1.0, LabRules(s), lockWorks);
    var p3 := DispatchAll(p2.0, EnterRules(s), lockWorks);
    var p4 := DispatchAll(p3.0, SafeModeRules(s), lockWorks);
    RiskPart(s, lockWorks);
    LabPart(s, p1.0, lockWorks);
    EnterPart(s, p2.0, lockWorks);
    SafeModePart(s, p3.0, lockWorks);
    PartsMakeUp(s, lockWorks, p1.0, p1.1, p2.0, p3.0, p3.1, p4.0, p4.1);
  }

  /** How often a pass emits an event. */
  function Emitted(s: SystemState, lockWorks: bool, e: Event): nat {
    match e
    case VaultLocked => if Locks(s, lockWorks) then 1 else 0
    case SafeModeEntered => Entries(s)
    case SafeModeExited => if Exits(s) then 1 else 0
    case OtherEvent(_) => 0
  }

  lemma {:induction false} CopiesCount(e: Event, n: nat, f: Event)
    ensures multiset(Copies(e, n))[f] == if e == f then n else 0
  {
    if n > 0 {
      CopiesCount(e, n - 1, f);
      assert Copies(e, n) == Copies(e, n - 1) + [e];
    }
  }

  /**
   * The vault is reported locked iff it was locked, safe mode entered once for each dead guardian, and left iff
   * it was left; a pass emits nothing else.
   */
  lemma PassEmits(s: SystemState, lockWorks: bool, e: Event)
    ensures multiset(PassResult(s, lockWorks).1)[e] == Emitted(s, lockWorks, e)
    ensures VaultLocked in PassResult(s, lockWorks).1 <==> Locks(s, lockWorks)
    ensures SafeModeEntered in PassResult(s, lockWorks).1 <==> Entries(s) > 0
    ensures SafeModeExited in PassResult(s, lockWorks).1 <==> Exits(s)
  {
    PassIsEffect(s, lockWorks);
    EventsCount(s, lockWorks, e);
    EventsCount(s, lockWorks, VaultLocked);
    EventsCount(s, lockWorks, SafeModeEntered);
    EventsCount(s, lockWorks, SafeModeExited);
  }

  lemma EventsCount(s: SystemState, lockWorks: bool, e: Event)
    ensures multiset(PassEvents(s, lockWorks))[e] == Emitted(s, lockWorks, e)
    ensures e in PassEvents(s, lockWorks) <==> Emitted(s, lockWorks, e) > 0
  {
    CopiesCount(VaultLocked, if Locks(s, lockWorks) then 1 else 0, e);
    CopiesCount(SafeModeEntered, Entries(s), e);
    CopiesCount(SafeModeExited, if Exits(s) then 1 else 0, e);
    assert e in PassEvents(s, lockWorks) <==> multiset(PassEvents(s, lockWorks))[e] > 0;
  }

  /** The state after a pass is as the events say. */
  lemma EventsTellState(s: SystemState, lockWorks: bool)
    ensures var (t, e) := PassResult(s, lockWorks);
            && (t.vaultMounted <==> s.vaultMounted && VaultLocked !in e)
            && (t.mode == SafeMode <==> if s.mode == SafeMode then SafeModeExited !in e else SafeModeEntered in e)
  {
    PassIsEffect(s, lockWorks);
    PassEmits(s, lockWorks, VaultLocked);
  }

  /** When each action is recommended. */
  predicate Recommended(s: SystemState, a: Action) {
    match a
    case ForceVaultLock => s.vaultMounted && s.riskScore >= 80 && s.mode != SafeMode
    case FirewallStrictProfile => s.riskScore >= 80 && s.mode != SafeMode
    case RejectLabStart => s.mode == UpdatePreparing || s.mode == SafeMode
    case RejectGamingStart => s.mode == UpdatePreparing || s.mode == SafeMode
    case IncreaseRiskScore => s.labActive && s.vaultMounted
    case EnterSafeMode => s.mode != SafeMode && !(s.firewallActive && s.logdAlive)
    case ExitSafeMode => s.mode == SafeMode && s.firewallActive && s.logdAlive && s.riskScore < 80
    case RestartSubsystem => !s.threatdAlive
    case FirewallRestore => false
  }

  lemma InParts(a: seq<Action>, b: seq<Action>, c: seq<Action>, d: seq<Action>, x: Action)
    ensures x in a + b + c + d <==> x in a || x in b || x in c || x in d
  {
  }

  lemma RecommendedMeaning(s: SystemState, a: Action)
    ensures a in Evaluate(s) <==> Recommended(s, a)
  {
    InParts(RiskRules(s), LabRules(s), EnterRules(s), SafeModeRules(s), a);
    RiskRulesMeaning(s, a);
    EnterRulesMeaning(s, a);
    SafeModeRulesMeaning(s, a);
  }

  lemma RiskRulesMeaning(s: SystemState, x: Action)
    ensures x in RiskRules(s) <==>
      || (s.riskScore >= 80 && s.mode != SafeMode && x == FirewallStrictProfile)
      || (s.riskScore >= 80 && s.mode != SafeMode && s.vaultMounted && x == ForceVaultLock)
      || (s.mode == UpdatePreparing && (x == RejectLabStart || x == RejectGamingStart))
  {
  }

  lemma EnterRulesMeaning(s: SystemState, x: Action)
    ensures x in EnterRules(s) <==>
      x == EnterSafeMode && s.mode != SafeMode && !(s.firewallActive && s.logdAlive)
  {
  }

  lemma SafeModeRulesMeaning(s: SystemState, x: Action)
    ensures x in SafeModeRules(s) <==>
      || (s.mode == SafeMode && (x == RejectLabStart || x == RejectGamingStart))
      || (s.mode == SafeMode && s.firewallActive && s.logdAlive && s.riskScore < 80 && x == ExitSafeMode)
      || (!s.threatdAlive && x == RestartSubsystem)
  {
  }

  // ---- Termination ----

  /** Events that can still be emitted: one lock, one entry for each dead guardian, one exit. */
  function Pending(s: SystemState): (n: nat)
    ensures n <= 3
  {
    (if s.vaultMounted then 1 else 0) + Entries(s) +
    (if s.mode == SafeMode && s.firewallActive && s.logdAlive then 1 else 0)
  }

  /** Every event a pass emits uses up a pending one. */
  lemma PassUsesPending(s: SystemState, lockWorks: bool)
    ensures |PassResult(s, lockWorks).1| + Pending(PassResult(s, lockWorks).0) <= Pending(s)
  {
    PassIsEffect(s, lockWorks);
  }

  /** Safe mode is neither to be entered nor left. */
  ghost predicate Settled(s: SystemState) {
    EnterSafeMode !in Evaluate(s) && ExitSafeMode !in Evaluate(s)
  }

  /** Safe mode is on exactly when a guardian is dead, or is kept on by critical risk. */
  lemma SettledMeaning(s: SystemState)
    ensures Settled(s) <==> if s.mode == SafeMode then !(s.firewallActive && s.logdAlive && s.riskScore < CRITICAL_RISK)
                            else s.firewallActive && s.logdAlive
    ensures Settled(s) <==> Entries(s) == 0 && !Exits(s)
  {
    RecommendedMeaning(s, EnterSafeMode);
    RecommendedMeaning(s, ExitSafeMode);
  }

  /** A pass that emits nothing leaves a settled state. */
  lemma QuietPassSettles(s: SystemState, lockWorks: bool)
    requires PassResult(s, lockWorks).1 == []
    ensures Settled(PassResult(s, lockWorks).0)
  {
    PassIsEffect(s, lockWorks);
    SettledMeaning(PassResult(s, lockWorks).0);
  }

  /** The vault lock is recommended. */
  ghost predicate LockDue(s: SystemState) {
    ForceVaultLock in Evaluate(s)
  }

  lemma LockDueMeaning(s: SystemState)
    ensures LockDue(s) <==> s.vaultMounted && s.mode != SafeMode && s.riskScore >= CRITICAL_RISK
  {
    RecommendedMeaning(s, ForceVaultLock);
  }

  /**
   * Quiet does not mean that the vault rule is satisfied: neither a failed lock nor a raised score emits an
   * event. A pass that emits nothing leaves the lock due exactly when, outside safe mode and with the vault
   * open, the score was critical (so that the lock failed) or the pass itself made it critical.
   */
  predicate LeavesLockDue(s: SystemState) {
    && s.vaultMounted && s.mode != SafeMode
    && (s.riskScore >= CRITICAL_RISK || (s.labActive && s.riskScore + RISK_DELTA >= CRITICAL_RISK))
  }

  lemma QuietPassLock(s: SystemState, lockWorks: bool)
    requires PassResult(s, lockWorks).1 == []
    ensures LockDue(PassResult(s, lockWorks).0) <==> LeavesLockDue(s)
    ensures lockWorks && !s.labActive ==> !LockDue(PassResult(s, lockWorks).0)
  {
    PassIsEffect(s, lockWorks);
    LockDueMeaning(PassResult(s, lockWorks).0);
  }

  // ---- The bus ----

  /** A subscriber's filter (none: every event) and its bounded buffer. */
  datatype Subscriber = Subscriber(filter: Option<Event>, buffer: seq<Event>)

  /** A send that gives up when the buffer is full. */
  function Offer(sub: Subscriber, e: Event): Subscriber {
    if (sub.filter == None || sub.filter == Some(e)) && |sub.buffer| < BUFFER_SIZE
    then sub.(buffer := sub.buffer + [e]) else sub
  }

  function OfferAll(sub: Subscriber, events: seq<Event>): Subscriber {
    if events == [] then sub else Offer(OfferAll(sub, events[..|events| - 1]), events[|events| - 1])
  }

  lemma {:induction false} OfferAllConcat(sub: Subscriber, a: seq<Event>, b: seq<Event>)
    ensures OfferAll(sub, a + b) == OfferAll(OfferAll(sub, a), b)
  {
    if b == [] {
      assert a + b == a;
    } else {
      OfferAllConcat(sub, a, b[..|b| - 1]);
      assert (a + b)[..|a + b| - 1] == a + b[..|b| - 1];
    }
  }

  /** An unfiltered buffer grows by at most what is offered, and by something if there is room. */
  lemma {:induction false} OfferAllGrows(sub: Subscriber, events: seq<Event>)
    requires sub.filter == None && |sub.buffer| <= BUFFER_SIZE
    ensures var r := OfferAll(sub, events);
            && r.filter == None && |sub.buffer| <= |r.buffer| <= BUFFER_SIZE
            && |r.buffer| <= |sub.buffer| + |events|
            && (events != [] && |sub.buffer| < BUFFER_SIZE ==> |r.buffer| > |sub.buffer|)
  {
    if events != [] {
      OfferAllGrows(sub, events[..|events| - 1]);
    }
  }

  /** The events a filter lets through. */
  function Matching(filter: Option<Event>, events: seq<Event>): seq<Event> {
    if events == [] then []
    else
      var last := events[|events| - 1];
      Matching(filter, events[..|events| - 1]) + (if filter == None || filter == Some(last) then [last] else [])
  }

  /** As many of the first events as a buffer takes. */
  function Fitting(events: seq<Event>): seq<Event> {
    if |events| <= BUFFER_SIZE then events else events[..BUFFER_SIZE]
  }

  /** A subscriber that does not read holds what it had and the first events its filter lets through, as many as fit. */
  lemma {:induction false} BufferHoldsFirstMatches(sub: Subscriber, events: seq<Event>)
    requires |sub.buffer| <= BUFFER_SIZE
    ensures OfferAll(sub, events) == sub.(buffer := Fitting(sub.buffer + Matching(sub.filter, events)))
  {
    if events == [] {
      assert sub.buffer + [] == sub.buffer;
    } else {
      var init, last := events[..|events| - 1], events[|events| - 1];
      BufferHoldsFirstMatches(sub, init);
      var m := Matching(sub.filter, init);
      assert sub.buffer + (m + [last]) == (sub.buffer + m) + [last];
      assert m + [] == m;
    }
  }

  lemma {:induction false} MatchingCopies(e: Event, events: seq<Event>)
    ensures Matching(Some(e), events) == Copies(e, multiset(events)[e])
  {
    if events != [] {
      MatchingCopies(e, events[..|events| - 1]);
      CopiesGrow(e, events[..|events| - 1], events[|events| - 1]);
      assert events == events[..|events| - 1] + [events[|events| - 1]];
    }
  }

  lemma CopiesGrow(e: Event, init: seq<Event>, last: Event)
    ensures Copies(e, multiset(init + [last])[e]) == Copies(e, multiset(init)[e]) + if e == last then [last] else []
  {
  }

  /** What a subscriber to one event hears of a pass: that event, as often as it was due. */
  ghost predicate Hears(before: Subscriber, after: Subscriber, s: SystemState, lockWorks: bool) {
    before.filter.Some? && |before.buffer| <= BUFFER_SIZE ==>
      var e := before.filter.value;
      after == before.(buffer := Fitting(before.buffer + Copies(e, Emitted(s, lockWorks, e))))
  }

  lemma SubscriberHears(sub: Subscriber, s: SystemState, lockWorks: bool)
    ensures Hears(sub, OfferAll(sub, PassResult(s, lockWorks).1), s, lockWorks)
  {
    if sub.filter.Some? && |sub.buffer| <= BUFFER_SIZE {
      BufferHoldsFirstMatches(sub, PassResult(s, lockWorks).1);
      MatchingCopies(sub.filter.value, PassResult(s, lockWorks).1);
      PassEmits(s, lockWorks, sub.filter.value);
    }
  }

  class Bus {
    var subs: seq<Subscriber>

    constructor ()
      ensures subs == []
    {
      subs := [];
    }

    method Subscribe(filter: Option<Event>) returns (index: nat)
      modifies this
      ensures index == |old(subs)| && subs == old(subs) + [Subscriber(filter, [])]
    {
      index := |subs|;
      subs := subs + [Subscriber(filter, [])];
    }

    /** Offers the event to every subscriber in turn, never waiting. */
    method Publish(e: Event)
      modifies this
      ensures |subs| == |old(subs)| && forall i :: 0 <= i < |subs| ==> subs[i] == Offer(old(subs)[i], e)
    {
      for i := 0 to |subs|
        invariant |subs| == |old(subs)|
        invariant forall j :: 0 <= j < |subs| ==> subs[j] == if j < i then Offer(old(subs)[j], e) else old(subs)[j]
      {
        var s := subs[i];
        if s.filter == None || s.filter == Some(e) {
          if |s.buffer| < BUFFER_SIZE {
            subs := subs[i := s.(buffer := s.buffer + [e])];
          }
        }
      }
    }
  }

  // ---- The loop ----

  class Daemon {
    const bus: Bus
    var state: SystemState

    constructor (bus: Bus, state: SystemState)
      ensures this.bus == bus && this.state == state
    {
      this.bus := bus;
      this.state := state;
    }

    /** `dispatchLegacyAction`. */
    method DispatchLegacyAction(a: Action, lockWorks: bool)
      modifies this, bus
      ensures state == Dispatch(old(state), a, lockWorks).0 && |bus.subs| == |old(bus.subs)|
      ensures forall i :: 0 <= i < |bus.subs| ==>
        bus.subs[i] == OfferAll(old(bus.subs)[i], Dispatch(old(state), a, lockWorks).1)
    {
      match a {
        case ForceVaultLock =>
          if !lockWorks {
            return;
          }
          state := state.(vaultMounted := false);
          bus.Publish(VaultLocked);
          assert [VaultLocked][..0] == [];
        case EnterSafeMode =>
          state := state.(mode := SafeMode);
          bus.Publish(SafeModeEntered);
          assert [SafeModeEntered][..0] == [];
        case ExitSafeMode =>
          state := state.(mode := Normal);
          bus.Publish(SafeModeExited);
          assert [SafeModeExited][..0] == [];
        case IncreaseRiskScore =>
          if state.riskScore + RISK_DELTA > MAX_RISK {
            state := state.(riskScore := MAX_RISK);
          } else {
            state := state.(riskScore := state.riskScore + RISK_DELTA);
          }
        case _ =>
      }
    }

    /** The inner loop over the recommended actions. */
    method RunActions(actions: seq<Action>, lockWorks: bool)
      modifies this, bus
      ensures |bus.subs| == |old(bus.subs)| && state == DispatchAll(old(state), actions, lockWorks).0
      ensures forall q :: 0 <= q < |bus.subs| ==>
        bus.subs[q] == OfferAll(old(bus.subs)[q], DispatchAll(old(state), actions, lockWorks).1)
    {
      ghost var s, subs := state, bus.subs;
      for i := 0 to |actions|
        invariant |bus.subs| == |subs| && state == DispatchAll(s, actions[..i], lockWorks).0
        invariant forall q :: 0 <= q < |subs| ==>
          bus.subs[q] == OfferAll(subs[q], DispatchAll(s, actions[..i], lockWorks).1)
      {
        assert actions[..i + 1][..i] == actions[..i];
        ghost var (t, e) := DispatchAll(s, actions[..i], lockWorks);
        DispatchLegacyAction(actions[i], lockWorks);
        ghost var f := Dispatch(t, actions[i], lockWorks).1;
        forall q | 0 <= q < |subs|
          ensures bus.subs[q] == OfferAll(subs[q], e + f)
        {
          OfferAllConcat(subs[q], e, f);
        }
      }
      assert actions[..|actions|] == actions;
    }

    /** One turn of the loop: receive an event, evaluate the state, run the actions. */
    method Pass(p: nat, lockWorks: bool)
      requires p < |bus.subs| && bus.subs[p].buffer != []
      modifies this, bus
      ensures |bus.subs| == |old(bus.subs)| && state == PassResult(old(state), lockWorks).0
      ensures bus.subs[p]
           == OfferAll(old(bus.subs[p]).(buffer := old(bus.subs[p]).buffer[1..]), PassResult(old(state), lockWorks).1)
      ensures forall q :: 0 <= q < |bus.subs| && q != p ==>
        Hears(old(bus.subs)[q], bus.subs[q], old(state), lockWorks)
    {
      ghost var s, subs := state, bus.subs;
      bus.subs := bus.subs[p := bus.subs[p].(buffer := bus.subs[p].buffer[1..])];
      var actions := Evaluate(state);
      RunActions(actions, lockWorks);
      forall q | 0 <= q < |subs| && q != p
        ensures Hears(subs[q], bus.subs[q], s, lockWorks)
      {
        SubscriberHears(subs[q], s, lockWorks);
      }
    }

    /**
     * `runPolicyLoop` until it waits: from any state, with k buffered events, at most k + 3 passes,
     * whatever the vault script does each time (`locks`). After a pass, safe mode is settled, and the vault
     * lock is still due exactly as the state before the last pass says.
     */
    method RunUntilQuiet(p: nat, locks: nat -> bool) returns (passes: nat, ghost last: SystemState)
      requires p < |bus.subs| && bus.subs[p].filter == None && |bus.subs[p].buffer| <= BUFFER_SIZE
      modifies this, bus
      ensures p < |bus.subs| && bus.subs[p].buffer == []
      ensures passes <= |old(bus.subs[p].buffer)| + Pending(old(state)) <= |old(bus.subs[p].buffer)| + 3
      ensures passes == 0 ==> state == old(state)
      ensures passes > 0 ==> PassResult(last, locks(passes - 1)) == (state, [])
      ensures passes > 0 ==> Settled(state) && (LockDue(state) <==> LeavesLockDue(last))
    {
      passes := 0;
      last := state;
      while bus.subs[p].buffer != []
        invariant p < |bus.subs| && bus.subs[p].filter == None && |bus.subs[p].buffer| <= BUFFER_SIZE
        invariant passes + |bus.subs[p].buffer| + Pending(state) <= |old(bus.subs[p].buffer)| + Pending(old(state))
        invariant passes == 0 ==> state == old(state)
        invariant passes > 0 && bus.subs[p].buffer == [] ==> PassResult(last, locks(passes - 1)) == (state, [])
        decreases |bus.subs[p].buffer| + Pending(state)
      {
        last := state;
        ghost var sub := bus.subs[p].(buffer := bus.subs[p].buffer[1..]);
        var lockWorks := locks(passes);
        Pass(p, lockWorks);
        PassUsesPending(last, lockWorks);
        OfferAllGrows(sub, PassResult(last, lockWorks).1);
        passes := passes + 1;
      }
      if passes > 0 {
        QuietPassSettles(last, locks(passes - 1));
        QuietPassLock(last, locks(passes - 1));
      }
    }
  }

  /** A state in which the loop goes quiet, with a working vault script, although the vault should now be locked. */
  lemma RaisedRiskIsNotFollowedUp()
    ensures var s := SystemState(Normal, 75, true, true, true, true, true);
            PassResult(s, true).1 == [] && LockDue(PassResult(s, true).0)
  {
    var s := SystemState(Normal, 75, true, true, true, true, true);
    PassIsEffect(s, true);
    QuietPassLock(s, true);
  }
}
