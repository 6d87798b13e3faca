/**
 * Attack sessions (core/automation/temporal_cluster.go): signals close in time are grouped into
 * sessions, which close after two quiet minutes or ten minutes in all.
 *
 * `Cut` is the declarative grouping of a whole stream of signals; the tracker, with status queries
 * at any moment, is proved to build exactly that.
 */
module Sessions {
  import opened Reals
  import opened Wrappers

  const INACTIVITY := 120 * SECOND
  const MAX_DURATION := 600 * SECOND
  const HOT_SCORE := 50.0
  const ESCALATION_SCORE := 70.0

  datatype Signal = Signal(kind: string, score: real)

  /** A signal and when it was ingested. */
  datatype Stamped = Stamped(at: int, signal: Signal)

  // ---- The grouping of a stream ----

  /** The block can take no signal at time `now`: too long since its last one, or since its first. */
  predicate Expired(block: seq<Stamped>, now: int)
    requires block != []
  {
    now - block[|block| - 1].at > INACTIVITY || now - block[0].at > MAX_DURATION
  }

  /** The stream cut into consecutive blocks. */
  function Cut(stream: seq<Stamped>): (blocks: seq<seq<Stamped>>)
    ensures forall i :: 0 <= i < |blocks| ==> blocks[i] != []
    ensures stream != [] ==> blocks != []
  {
    if stream == [] then []
    else
      var init, s := stream[..|stream| - 1], stream[|stream| - 1];
      var blocks := Cut(init);
      if blocks == [] || Expired(blocks[|blocks| - 1], s.at) then blocks + [[s]]
      else blocks[..|blocks| - 1] + [blocks[|blocks| - 1] + [s]]
  }

  lemma CutAppend(stream: seq<Stamped>, s: Stamped)
    ensures Cut(stream + [s]) ==
            var blocks := Cut(stream);
            if blocks == [] || Expired(blocks[|blocks| - 1], s.at) then blocks + [[s]]
            else blocks[..|blocks| - 1] + [blocks[|blocks| - 1] + [s]]
  {
    assert (stream + [s])[..|stream|] == stream;
  }

  function Flatten(blocks: seq<seq<Stamped>>): seq<Stamped> {
    if blocks == [] then [] else Flatten(blocks[..|blocks| - 1]) + blocks[|blocks| - 1]
  }

  lemma FlattenLast(blocks: seq<seq<Stamped>>, last: seq<Stamped>)
    ensures Flatten(blocks + [last]) == Flatten(blocks) + last
  {
    assert (blocks + [last])[..|blocks|] == blocks;
  }

  /** One more signal in the last block. */
  lemma FlattenMore(blocks: seq<seq<Stamped>>, s: Stamped)
    requires blocks != []
    ensures Flatten(blocks[..|blocks| - 1] + [blocks[|blocks| - 1] + [s]]) == Flatten(blocks) + [s]
  {
    var before, last := blocks[..|blocks| - 1], blocks[|blocks| - 1];
    FlattenLast(before, last + [s]);
    assert Flatten(before) + (last + [s]) == Flatten(before) + last + [s];
  }

  /** The blocks are the stream in order, nothing lost, repeated or moved. */
  lemma {:induction false} CutKeepsStream(stream: seq<Stamped>)
    ensures Flatten(Cut(stream)) == stream
  {
    if stream != [] {
      var init, s := stream[..|stream| - 1], stream[|stream| - 1];
      CutKeepsStream(init);
      if Cut(init) == [] || Expired(Cut(init)[|Cut(init)| - 1], s.at) {
        FlattenLast(Cut(init), [s]);
      } else {
        FlattenMore(Cut(init), s);
      }
      assert init + [s] == stream;
    }
  }

  /** No block could have taken the first signal of the next, and each could take its own signals. */
  ghost predicate WellCut(blocks: seq<seq<Stamped>>) {
    && (forall i :: 0 <= i < |blocks| ==> blocks[i] != [])
    && (forall i, k :: 0 <= i < |blocks| && 0 < k < |blocks[i]| ==> !Expired(blocks[i][..k], blocks[i][k].at))
    && forall i, j :: 0 <= i && j == i + 1 && j < |blocks| ==> Expired(blocks[i], blocks[j][0].at)
  }

  /** A new block starts exactly when the one before has expired. */
  lemma {:induction false} CutIsWellCut(stream: seq<Stamped>)
    ensures WellCut(Cut(stream))
  {
    if stream != [] {
      var init, s := stream[..|stream| - 1], stream[|stream| - 1];
      CutIsWellCut(init);
      var blocks := Cut(init);
      if blocks == [] || Expired(blocks[|blocks| - 1], s.at) {
        StartNew(blocks, s);
      } else {
        ExtendLast(blocks, s);
      }
    }
  }

  lemma StartNew(blocks: seq<seq<Stamped>>, s: Stamped)
    requires WellCut(blocks) && (blocks != [] ==> Expired(blocks[|blocks| - 1], s.at))
    ensures WellCut(blocks + [[s]])
  {
  }

  lemma ExtendLast(blocks: seq<seq<Stamped>>, s: Stamped)
    requires WellCut(blocks) && blocks != [] && !Expired(blocks[|blocks| - 1], s.at)
    ensures WellCut(blocks[..|blocks| - 1] + [blocks[|blocks| - 1] + [s]])
  {
    var n := |blocks| - 1;
    var longer := blocks[n] + [s];
    var r := blocks[..n] + [longer];
    forall k | 0 < k < |longer| ensures !Expired(longer[..k], longer[k].at) {
      assert longer[..k] == if k < |blocks[n]| then blocks[n][..k] else blocks[n];
    }
    assert forall i :: 0 <= i < n ==> r[i] == blocks[i];
    assert longer[0] == blocks[n][0];
  }

  /**
   * In seconds: within a session signals are at most 120 apart and the last at most 600 after the first; the
   * next session's first signal is more than 120 after the last one, or more than 600 after the first.
   */
  lemma SessionsInSeconds(stream: seq<Stamped>, i: nat)
    requires i < |Cut(stream)|
    ensures InTime(Cut(stream)[i])
    ensures i + 1 < |Cut(stream)| ==> Cut(stream)[i + 1] != [] && OutOfTime(Cut(stream)[i], Cut(stream)[i + 1][0].at)
  {
    CutIsWellCut(stream);
    CutInSeconds(Cut(stream), i);
  }

  ghost predicate InTime(block: seq<Stamped>) {
    && (forall k :: 0 < k < |block| ==> block[k].at - block[k - 1].at <= 120_000_000_000)
    && (forall k :: 0 < k < |block| ==> block[k].at - block[0].at <= 600_000_000_000)
  }

  ghost predicate OutOfTime(block: seq<Stamped>, at: int) {
    block != [] && (at - block[|block| - 1].at > 120_000_000_000 || at - block[0].at > 600_000_000_000)
  }

  lemma CutInSeconds(blocks: seq<seq<Stamped>>, i: nat)
    requires WellCut(blocks) && i < |blocks|
    ensures InTime(blocks[i])
    ensures i + 1 < |blocks| ==> OutOfTime(blocks[i], blocks[i + 1][0].at)
  {
    var block := blocks[i];
    forall k | 0 < k < |block|
      ensures block[k].at - block[k - 1].at <= 120_000_000_000 && block[k].at - block[0].at <= 600_000_000_000
    {
      assert !Expired(blocks[i][..k], blocks[i][k].at);
    }
  }

  // ---- A session's figures ----

  function SignalsOf(block: seq<Stamped>): seq<Signal> {
    seq(|block|, i requires 0 <= i < |block| => block[i].signal)
  }

  function ScoreSum(signals: seq<Signal>): real {
    if signals == [] then 0.0 else ScoreSum(signals[..|signals| - 1]) + signals[|signals| - 1].score
  }

  function EscalationCount(signals: seq<Signal>): nat {
    if signals == [] then 0
    else EscalationCount(signals[..|signals| - 1]) + (if signals[|signals| - 1].score >= ESCALATION_SCORE then 1 else 0)
  }

  /** Mean score, plus five a signal of 70 or more, at most 100. */
  function Risk(signals: seq<Signal>): real {
    if signals == [] then 0.0
    else
      var score := ScoreSum(signals) / |signals| as real + EscalationCount(signals) as real * 5.0;
      if score > 100.0 then 100.0 else score
  }

  lemma {:induction false} EqualScoresSum(signals: seq<Signal>, c: real)
    requires forall i :: 0 <= i < |signals| ==> signals[i].score == c
    ensures ScoreSum(signals) == |signals| as real * c
    ensures EscalationCount(signals) == if c >= 70.0 then |signals| else 0
  {
    if signals != [] {
      EqualScoresSum(signals[..|signals| - 1], c);
    }
  }

  /** Signals of one score: that score, and five more for each signal if it is 70 or more, at most 100. */
  lemma RiskOfEqualScores(signals: seq<Signal>, c: real)
    requires signals != [] && forall i :: 0 <= i < |signals| ==> signals[i].score == c
    ensures var risk := if c >= 70.0 then c + 5.0 * |signals| as real else c;
            Risk(signals) == if risk > 100.0 then 100.0 else risk
  {
    EqualScoresSum(signals, c);
    MeanOfEquals(c, |signals| as real, ScoreSum(signals));
  }

  lemma MeanOfEquals(c: real, n: real, sum: real)
    requires n > 0.0 && sum == n * c
    ensures sum / n == c
  {
    UnscaleEqual(sum / n, c, n);
  }

  function Kinds(signals: seq<Signal>): set<string> {
    set s | s in signals :: s.kind
  }

  /** The block is open at time `now`, of two kinds of signal or more, and of high risk. */
  ghost predicate HotBlock(block: seq<Stamped>, now: int) {
    && block != [] && !Expired(block, now)
    && |Kinds(SignalsOf(block))| >= 2 && Risk(SignalsOf(block)) >= HOT_SCORE
  }

  // ---- The tracker ----

  class AttackSession {
    const id: nat
    const startedAt: int
    var lastSignalAt: int
    var signals: seq<Signal>
    var kinds: set<string>
    var escalations: nat
    var riskScore: real
    var closed: bool

    constructor (id: nat, now: int)
      ensures this.id == id && startedAt == lastSignalAt == now && signals == [] && kinds == {}
      ensures escalations == 0 && riskScore == 0.0 && !closed && Figured()
    {
      this.id := id;
      startedAt, lastSignalAt, signals, kinds, escalations, riskScore, closed := now, now, [], {}, 0, 0.0, false;
    }

    /** The session holds the block's signals and its first and last times. */
    ghost predicate Records(block: seq<Stamped>)
      reads `lastSignalAt, `signals
    {
      block != [] && startedAt == block[0].at && lastSignalAt == block[|block| - 1].at && signals == SignalsOf(block)
    }

    /** The session's figures are those of its signals. */
    ghost predicate Figured()
      reads `signals, `kinds, `escalations, `riskScore
    {
      kinds == Kinds(signals) && escalations == EscalationCount(signals) && riskScore == Risk(signals)
    }

    predicate IsExpired(now: int)
      reads `lastSignalAt
    {
      now - lastSignalAt > INACTIVITY || now - startedAt > MAX_DURATION
    }

    predicate IsHot()
      reads this
    {
      !closed && |kinds| >= 2 && riskScore >= HOT_SCORE
    }

    /** Adds a signal and recomputes the risk by a loop over all of the session's signals. */
    method Append(signal: Signal, now: int, ghost block: seq<Stamped>)
      requires Figured() && if block == [] then signals == [] && startedAt == now else Records(block)
      modifies this
      ensures Figured() && Records(block + [Stamped(now, signal)]) && closed == old(closed)
    {
      ghost var before := signals;
      SignalsAppend(before, signal);
      StampedAppend(block, Stamped(now, signal));
      signals := signals + [signal];
      lastSignalAt := now;
      kinds := kinds + {signal.kind};
      if signal.score >= ESCALATION_SCORE {
        escalations := escalations + 1;
      }
      riskScore := ComputeRisk(signals, escalations);
    }
  }

  lemma SignalsAppend(signals: seq<Signal>, s: Signal)
    ensures Kinds(signals + [s]) == Kinds(signals) + {s.kind}
    ensures EscalationCount(signals + [s]) == EscalationCount(signals) + (if s.score >= ESCALATION_SCORE then 1 else 0)
  {
    assert (signals + [s])[..|signals|] == signals;
  }

  lemma StampedAppend(block: seq<Stamped>, s: Stamped)
    ensures SignalsOf(block + [s]) == SignalsOf(block) + [s.signal]
  {
  }

  method ComputeRisk(signals: seq<Signal>, escalations: nat) returns (score: real)
    requires escalations == EscalationCount(signals)
    ensures score == Risk(signals)
  {
    if |signals| == 0 {
      return 0.0;
    }
    var sum := 0.0;
    for i := 0 to |signals|
      invariant sum == ScoreSum(signals[..i])
    {
      assert signals[..i + 1][..i] == signals[..i];
      sum := sum + signals[i].score;
    }
    assert signals[..|signals|] == signals;
    score := sum / |signals| as real + escalations as real * 5.0;
    if score > 100.0 {
      score := 100.0;
    }
  }

  class TemporalClusterTracker {
    var sessions: seq<AttackSession>
    var nextId: nat
    /** The latest time the clock was read. */
    ghost var clock: int

    /**
     * The sessions record the blocks. All but the last are closed; the last is closed only if it had
     * expired by the latest time a query or an ingestion looked.
     */
    ghost predicate Tracks(blocks: seq<seq<Stamped>>)
      reads this, sessions
    {
      && RecordsAll(blocks)
      && (forall i :: 0 <= i < |sessions| - 1 ==> sessions[i].closed)
      && (sessions != [] && sessions[|sessions| - 1].closed ==> Expired(blocks[|blocks| - 1], clock))
    }

    ghost predicate RecordsAll(blocks: seq<seq<Stamped>>)
      reads `sessions, `nextId, sessions`lastSignalAt, sessions`signals
    {
      && |sessions| == |blocks| && nextId == |sessions|
      && (forall i, j :: 0 <= i < j < |sessions| ==> sessions[i] != sessions[j])
      && forall i :: 0 <= i < |sessions| ==> sessions[i].Records(blocks[i]) && sessions[i].id == i + 1
    }

    /** The recorded blocks are the cut of everything ingested, and every session's figures are up to date. */
    ghost predicate Valid(stream: seq<Stamped>)
      reads this, sessions
    {
      Tracks(Cut(stream)) && AllFigured()
    }

    ghost predicate AllFigured()
      reads `sessions, sessions`signals, sessions`kinds, sessions`escalations, sessions`riskScore
    {
      forall s :: s in sessions ==> s.Figured()
    }

    constructor (now: int)
      ensures Valid([]) && clock == now
    {
      sessions, nextId, clock := [], 0, now;
    }

    /** The closing loop. */
    method CloseExpired(now: int, ghost blocks: seq<seq<Stamped>>)
      requires RecordsAll(blocks) && AllFigured()
      modifies sessions`closed
      ensures RecordsAll(blocks) && AllFigured()
      ensures forall i :: 0 <= i < |sessions| ==>
        sessions[i].closed == (old(sessions[i].closed) || sessions[i].IsExpired(now))
    {
      for i := 0 to |sessions|
        invariant forall j :: 0 <= j < i ==>
          sessions[j].closed == (old(sessions[j].closed) || sessions[j].IsExpired(now))
        invariant forall j :: i <= j < |sessions| ==> sessions[j].closed == old(sessions[j].closed)
      {
        if !sessions[i].closed && sessions[i].IsExpired(now) {
          sessions[i].closed := true;
        }
      }
    }

    /** Closes what has expired; changes nothing else. */
    method CloseStale(now: int, ghost blocks: seq<seq<Stamped>>)
      requires Tracks(blocks) && AllFigured() && clock <= now
      modifies `clock, sessions`closed
      ensures Tracks(blocks) && AllFigured() && clock == now
      ensures forall i :: 0 <= i < |sessions| ==>
        sessions[i].closed == (old(sessions[i].closed) || sessions[i].IsExpired(now))
    {
      ghost var before, closed := clock, ClosedFlags();
      clock := now;
      CloseExpired(now, blocks);
      StillTracks(blocks, before, now, closed);
    }

    ghost function ClosedFlags(): seq<bool>
      reads this, sessions
    {
      seq(|sessions|, i requires 0 <= i < |sessions| reads this, sessions => sessions[i].closed)
    }

    lemma StillTracks(blocks: seq<seq<Stamped>>, before: int, now: int, closed: seq<bool>)
      requires RecordsAll(blocks) && clock == now && before <= now && |closed| == |sessions|
      requires forall i :: 0 <= i < |sessions| ==> sessions[i].closed == (closed[i] || sessions[i].IsExpired(now))
      requires forall i :: 0 <= i < |sessions| - 1 ==> closed[i]
      requires sessions != [] && closed[|sessions| - 1] ==> Expired(blocks[|blocks| - 1], before)
      ensures Tracks(blocks)
    {
      if sessions != [] {
        LastExpires(blocks, before, now);
      }
    }

    /** Once the stale sessions are closed, the last session is hot exactly when the last block is. */
    lemma LastIsHot(blocks: seq<seq<Stamped>>, now: int)
      requires Tracks(blocks) && AllFigured() && clock == now && blocks != []
      requires sessions[|sessions| - 1].IsExpired(now) ==> sessions[|sessions| - 1].closed
      ensures var last, block := sessions[|sessions| - 1], blocks[|blocks| - 1];
              block != [] && (last.closed <==> Expired(block, now)) && (last.IsHot() <==> HotBlock(block, now))
    {
      LastExpires(blocks, now, now);
      assert sessions[|sessions| - 1].Records(blocks[|blocks| - 1]);
      assert sessions[|sessions| - 1].Figured();
    }

    /** The last session has expired exactly when the last block has, and stays so. */
    lemma LastExpires(blocks: seq<seq<Stamped>>, before: int, now: int)
      requires RecordsAll(blocks) && blocks != []
      ensures var block := blocks[|blocks| - 1];
              block != [] && (sessions[|sessions| - 1].IsExpired(now) <==> Expired(block, now))
              && (before <= now && Expired(block, before) ==> Expired(block, now))
    {
      assert sessions[|sessions| - 1].Records(blocks[|blocks| - 1]);
    }

    /** The most recent session that is open and could take a signal. */
    method FindOpen(now: int, ghost blocks: seq<seq<Stamped>>) returns (best: AttackSession?)
      requires Tracks(blocks) && clock == now
      requires forall i :: 0 <= i < |sessions| && sessions[i].IsExpired(now) ==> sessions[i].closed
      requires forall i :: 0 <= i < |blocks| ==> blocks[i] != []
      ensures best == null <==> blocks == [] || Expired(blocks[|blocks| - 1], now)
      ensures best != null ==> best == sessions[|sessions| - 1] && !best.closed
    {
      best := null;
      for i := 0 to |sessions|
        invariant best != null ==> best in sessions && !best.closed && !best.IsExpired(now)
        invariant best == null ==> forall j :: 0 <= j < i ==> sessions[j].closed || sessions[j].IsExpired(now)
      {
        var s := sessions[i];
        if s.closed || s.IsExpired(now) {
          continue;
        }
        if best == null || s.lastSignalAt > best.lastSignalAt {
          best := s;
        }
      }
      if sessions != [] {
        LastExpires(blocks, now, now);
      }
    }

    static method NewSession(id: nat, signal: Signal, now: int) returns (session: AttackSession)
      ensures fresh(session) && session.id == id && !session.closed
      ensures session.Figured() && session.Records([Stamped(now, signal)])
    {
      session := new AttackSession(id, now);
      session.Append(signal, now, []);
      assert [] + [Stamped(now, signal)] == [Stamped(now, signal)];
    }

    method OpenSession(signal: Signal, now: int, ghost blocks: seq<seq<Stamped>>) returns (session: AttackSession)
      requires Tracks(blocks) && AllFigured() && clock == now
      requires sessions != [] ==> sessions[|sessions| - 1].closed
      modifies `sessions, `nextId
      ensures Tracks(blocks + [[Stamped(now, signal)]]) && AllFigured() && session.id == |blocks| + 1
      ensures fresh(session) && sessions == old(sessions) + [session]
    {
      nextId := nextId + 1;
      session := NewSession(nextId, signal, now);
      sessions := sessions + [session];
    }

    method ExtendSession(session: AttackSession, signal: Signal, now: int, ghost blocks: seq<seq<Stamped>>)
      requires Tracks(blocks) && AllFigured() && clock == now
      requires sessions != [] && session == sessions[|sessions| - 1] && !session.closed
      modifies session
      ensures Tracks(blocks[..|blocks| - 1] + [blocks[|blocks| - 1] + [Stamped(now, signal)]]) && AllFigured()
    {
      session.Append(signal, now, blocks[|blocks| - 1]);
    }

    /** Closes the stale sessions and puts the signal into the open one, or into a new one. */
    method Place(signal: Signal, now: int, ghost blocks: seq<seq<Stamped>>, ghost after: seq<seq<Stamped>>)
      returns (id: nat)
      requires Tracks(blocks) && clock <= now
      requires AllFigured()
      requires forall i :: 0 <= i < |blocks| ==> blocks[i] != []
      requires after == (
        var s := Stamped(now, signal);
        if blocks == [] || Expired(blocks[|blocks| - 1], now) then blocks + [[s]]
        else blocks[..|blocks| - 1] + [blocks[|blocks| - 1] + [s]])
      modifies `sessions, `nextId, `clock, sessions
      ensures Tracks(after) && clock == now && id == |after|
      ensures AllFigured()
    {
      CloseStale(now, blocks);
      var session := FindOpen(now, blocks);
      if session == null {
        if blocks != [] {
          LastExpires(blocks, now, now);
        }
        assert after == blocks + [[Stamped(now, signal)]];
        session := OpenSession(signal, now, blocks);
      } else {
        assert after == blocks[..|blocks| - 1] + [blocks[|blocks| - 1] + [Stamped(now, signal)]];
        ExtendSession(session, signal, now, blocks);
      }
      id := session.id;
    }

    /** Adds a signal to the open session, or to a new one; returns the session's number. */
    method Ingest(signal: Signal, now: int, ghost stream: seq<Stamped>) returns (id: nat)
      requires Valid(stream) && clock <= now
      modifies this, sessions
      ensures Valid(stream + [Stamped(now, signal)]) && clock == now
      ensures id == |Cut(stream + [Stamped(now, signal)])|
    {
      CutAppend(stream, Stamped(now, signal));
      id := Place(signal, now, Cut(stream), Cut(stream + [Stamped(now, signal)]));
    }

    /** The hot sessions: open, of two kinds of signal or more, and of high risk. There is at most one. */
    method HotSessions(now: int, ghost stream: seq<Stamped>) returns (hot: seq<AttackSession>)
      requires Valid(stream) && clock <= now
      modifies `clock, sessions
      ensures Valid(stream) && clock == now
      ensures |sessions| == |Cut(stream)|
      ensures hot ==
              if stream != [] && HotBlock(Cut(stream)[|Cut(stream)| - 1], now) then [sessions[|sessions| - 1]] else []
    {
      hot := HotOf(now, Cut(stream));
    }

    /** The query in terms of the recorded blocks. */
    method HotOf(now: int, ghost blocks: seq<seq<Stamped>>) returns (hot: seq<AttackSession>)
      requires Tracks(blocks) && AllFigured() && clock <= now
      modifies `clock, sessions`closed
      ensures Tracks(blocks) && AllFigured() && clock == now
      ensures hot == if blocks != [] && HotBlock(blocks[|blocks| - 1], now) then [sessions[|sessions| - 1]] else []
    {
      CloseStale(now, blocks);
      if sessions != [] {
        LastIsHot(blocks, now);
      }
      hot := SelectHot(blocks);
    }

    method SelectHot(ghost blocks: seq<seq<Stamped>>) returns (hot: seq<AttackSession>)
      requires Tracks(blocks)
      ensures hot == if sessions != [] && sessions[|sessions| - 1].IsHot() then [sessions[|sessions| - 1]] else []
    {
      hot := [];
      for i := 0 to |sessions|
        invariant hot == if i == |sessions| > 0 && sessions[i - 1].IsHot() then [sessions[i - 1]] else []
      {
        if sessions[i].IsHot() {
          hot := hot + [sessions[i]];
        }
      }
    }

    /** The counts of a status query: all sessions, open ones, hot ones. */
    method Status(now: int, ghost stream: seq<Stamped>) returns (total: nat, open: nat, hot: nat)
      requires Valid(stream) && clock <= now
      modifies `clock, sessions
      ensures Valid(stream) && clock == now
      ensures total == |Cut(stream)|
      ensures open == if stream != [] && !Expired(Cut(stream)[|Cut(stream)| - 1], now) then 1 else 0
      ensures hot == if stream != [] && HotBlock(Cut(stream)[|Cut(stream)| - 1], now) then 1 else 0
    {
      total, open, hot := StatusOf(now, Cut(stream));
    }

    /** The query in terms of the recorded blocks. */
    method StatusOf(now: int, ghost blocks: seq<seq<Stamped>>) returns (total: nat, open: nat, hot: nat)
      requires Tracks(blocks) && AllFigured() && clock <= now
      modifies `clock, sessions`closed
      ensures Tracks(blocks) && AllFigured() && clock == now
      ensures total == |blocks|
      ensures open == if blocks != [] && !Expired(blocks[|blocks| - 1], now) then 1 else 0
      ensures hot == if blocks != [] && HotBlock(blocks[|blocks| - 1], now) then 1 else 0
    {
      CloseStale(now, blocks);
      if sessions != [] {
        LastIsHot(blocks, now);
      }
      total := |sessions|;
      open, hot := CountOpen();
    }

    /** The loop of the status query: at most the last session is open. */
    method CountOpen() returns (open: nat, hot: nat)
      requires forall i :: 0 <= i < |sessions| - 1 ==> sessions[i].closed
      ensures open == if sessions != [] && !sessions[|sessions| - 1].closed then 1 else 0
      ensures hot == if sessions != [] && sessions[|sessions| - 1].IsHot() then 1 else 0
    {
      open, hot := 0, 0;
      for i := 0 to |sessions|
        invariant open == if i == |sessions| > 0 && !sessions[i - 1].closed then 1 else 0
        invariant hot == if i == |sessions| > 0 && sessions[i - 1].IsHot() then 1 else 0
      {
        if !sessions[i].closed {
          open := open + 1;
          if |sessions[i].kinds| >= 2 && sessions[i].riskScore >= HOT_SCORE {
            hot := hot + 1;
          }
        }
      }
    }
  }
}
