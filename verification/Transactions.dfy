/**
 * The write-ahead `Apply` (core/runtime/transaction_manager.go) over the atomically replaced state
 * file (core/state/state.go), as steps with a crash possible between any two.
 *
 * Records hold state images where the code holds their digests; the update time is left out of images.
 * A crash may tear whatever has not been synced. A rename is atomic and durable, as is a synced append.
 */
module Transactions {
  import opened Wrappers

  const STATE_VERSION := 1

  /** A state; zero is the version of a state that has none. */
  datatype Image = Image(version: int, content: string)

  const DEFAULT_IMAGE := Image(STATE_VERSION, "defaults")

  type Mutation = Image -> Image

  datatype Record = Record(txn: nat, before: Image, after: Image, committed: bool)

  /** What reading a file gives. */
  datatype Content = Missing | Torn | Whole(image: Image)

  /** A file's content, and whether it would survive a crash. */
  datatype File = File(content: Content, durable: bool)

  /** Where an `Apply` stands; its mutation is run twice, once to write the record and once for real. */
  datatype Phase = Idle
                 | Prepared(rec: Record, fn: Mutation)
                 | Intended(rec: Record, fn: Mutation)
                 | Mutated(rec: Record)
                 | Written(rec: Record)
                 | Synced(rec: Record)
                 | Replaced(rec: Record)

  /** The state file, its temporary successor, the journal, the manager's memory, and the current `Apply`. */
  datatype Store = Store(
    file: File, temp: Option<File>, journal: seq<Record>, memory: Image, phase: Phase, nextTxn: nat)

  /** `Crash` names the content of the state file that survives. */
  datatype Step = Begin(fn: Mutation) | AppendIntent | IntentFails | Mutate | WriteTemp | SyncTemp | Rename
                | PersistFails | AppendCommit | CommitFails | Crash(survivor: Content)

  /** What a manager loads: the file, or the defaults when it cannot be read or has no version. */
  function Loaded(c: Content): Image {
    if c.Whole? && c.image.version != 0 then c.image else DEFAULT_IMAGE
  }

  /** The state given a version if it has none. */
  function Versioned(s: Image): Image {
    if s.version == 0 then s.(version := STATE_VERSION) else s
  }

  /** One step; a crash loses the memory, the `Apply` and what is not durable, and the next start loads the file. */
  ghost predicate Next(s: Store, step: Step, t: Store) {
    match step
    case Begin(fn) =>
      && s.phase.Idle?
      && t == s.(phase := Prepared(Record(s.nextTxn, s.memory, fn(s.memory), false), fn), nextTxn := s.nextTxn + 1)
    case AppendIntent =>
      s.phase.Prepared? && t == s.(journal := s.journal + [s.phase.rec], phase := Intended(s.phase.rec, s.phase.fn))
    case IntentFails =>
      s.phase.Prepared? && t == s.(phase := Idle)
    case Mutate =>
      s.phase.Intended? && t == s.(memory := Versioned(s.phase.fn(s.memory)), phase := Mutated(s.phase.rec))
    case WriteTemp =>
      s.phase.Mutated? && t == s.(temp := Some(File(Whole(s.memory), false)), phase := Written(s.phase.rec))
    case SyncTemp =>
      && s.phase.Written? && s.temp.Some?
      && t == s.(temp := Some(s.temp.value.(durable := true)), phase := Synced(s.phase.rec))
    case Rename =>
      && s.phase.Synced? && s.temp.Some?
      && t == s.(file := s.temp.value, temp := None, phase := Replaced(s.phase.rec))
    case PersistFails =>
      (s.phase.Mutated? || s.phase.Written? || s.phase.Synced?) && t == s.(temp := None, phase := Idle)
    case AppendCommit =>
      s.phase.Replaced? && t == s.(journal := s.journal + [s.phase.rec.(committed := true)], phase := Idle)
    case CommitFails =>
      s.phase.Replaced? && t == s.(phase := Idle)
    case Crash(survivor) =>
      && (s.file.durable ==> survivor == s.file.content)
      && t == s.(file := File(survivor, true), temp := None, memory := Loaded(survivor), phase := Idle)
  }

  /** A freshly started manager over whatever the state file holds, and an empty journal. */
  ghost predicate IsStart(s: Store) {
    s.file.durable && s.temp == None && s.journal == [] && s.phase == Idle && s.memory == Loaded(s.file.content)
  }

  /** A run from a start, with crashes anywhere. */
  ghost predicate IsRun(run: seq<Store>, steps: seq<Step>) {
    && |run| == |steps| + 1
    && forall i :: 0 <= i < |steps| ==> Next(run[i], steps[i], run[i + 1])
  }

  /** A run in which crashes are the only fault of the state file. */
  ghost predicate IsCrashRun(run: seq<Store>, steps: seq<Step>) {
    IsRun(run, steps) && IsStart(run[0]) && forall i :: 0 <= i < |steps| ==> !steps[i].PersistFails?
  }

  // ---- The state file is never torn ----

  /** What is renamed over the state file is whole and durable by then. */
  ghost predicate DiskInv(s: Store) {
    && s.file.durable
    && (s.phase.Written? ==> s.temp == Some(File(Whole(s.memory), false)))
    && (s.phase.Synced? ==> s.temp == Some(File(Whole(s.memory), true)))
  }

  lemma {:induction false} RunKeepsDisk(run: seq<Store>, steps: seq<Step>, i: nat)
    requires IsRun(run, steps) && IsStart(run[0]) && i < |run|
    ensures DiskInv(run[i])
    ensures run[i].file.content == run[0].file.content || run[i].file.content.Whole?
  {
    if i > 0 {
      RunKeepsDisk(run, steps, i - 1);
      assert Next(run[i - 1], steps[i - 1], run[i]);
    }
  }

  /**
   * Whatever fails and wherever crashes fall, a state file that was not torn at the start never is, although
   * a crash tears anything that is not synced.
   */
  lemma StateFileIsNeverTorn(run: seq<Store>, steps: seq<Step>, i: nat)
    requires IsRun(run, steps) && IsStart(run[0]) && i < |run|
    ensures run[0].file.content != Torn ==> run[i].file.content != Torn
  {
    RunKeepsDisk(run, steps, i);
  }

  // ---- Journal, file and memory ----

  /** The state that a start would find. */
  function OnDisk(s: Store): Image {
    Loaded(s.file.content)
  }

  ghost predicate IsNewest(s: Store, r: Record) {
    s.journal != [] && s.journal[|s.journal| - 1] == r
  }

  /** The `Apply` in progress: its record, and what it has done to memory and file. */
  ghost predicate PhaseInv(s: Store) {
    match s.phase
    case Idle => true
    case Prepared(r, fn) => !r.committed && r.before == s.memory && r.after == fn(s.memory)
    case Intended(r, fn) => !r.committed && r.before == s.memory && r.after == fn(s.memory) && IsNewest(s, r)
    case Mutated(r) => !r.committed && s.memory == Versioned(r.after) && IsNewest(s, r)
    case Written(r) => !r.committed && s.memory == Versioned(r.after) && IsNewest(s, r)
    case Synced(r) => !r.committed && s.memory == Versioned(r.after) && IsNewest(s, r)
    case Replaced(r) => !r.committed && s.memory == OnDisk(s) == Versioned(r.after) && IsNewest(s, r)
  }

  /** If the newest record is a commit, the file is where it led. */
  ghost predicate CommitInv(s: Store) {
    s.journal != [] && s.journal[|s.journal| - 1].committed ==> OnDisk(s) == Versioned(s.journal[|s.journal| - 1].after)
  }

  /** The memory is the file, but for the `Apply` in progress. */
  ghost predicate InStep(s: Store) {
    if s.phase.Idle? || s.phase.Prepared? || s.phase.Intended? then s.memory == OnDisk(s)
    else s.phase.rec.before == OnDisk(s) || s.phase.Replaced?
  }

  /** The file is where the newest record started from or where it led. */
  ghost predicate NewestInv(s: Store) {
    s.journal != [] ==>
      var r := s.journal[|s.journal| - 1];
      OnDisk(s) == r.before || OnDisk(s) == Versioned(r.after)
  }

  lemma StepKeepsCommit(s: Store, step: Step, t: Store)
    requires DiskInv(s) && PhaseInv(s) && CommitInv(s) && Next(s, step, t)
    ensures PhaseInv(t) && CommitInv(t)
  {
    match step {
      case AppendIntent => assert t.journal[|t.journal| - 1] == s.phase.rec;
      case AppendCommit => assert t.journal[|t.journal| - 1] == s.phase.rec.(committed := true);
      case _ =>
    }
  }

  lemma StepKeepsInStep(s: Store, step: Step, t: Store)
    requires DiskInv(s) && PhaseInv(s) && InStep(s) && NewestInv(s) && Next(s, step, t) && !step.PersistFails?
    ensures InStep(t) && NewestInv(t)
  {
    match step {
      case AppendIntent => assert t.journal[|t.journal| - 1] == s.phase.rec;
      case AppendCommit => assert t.journal[|t.journal| - 1] == s.phase.rec.(committed := true);
      case _ =>
    }
  }

  /** At every state of every run, whatever fails and whatever the mutations do. */
  lemma {:induction false} RunKeepsCommit(run: seq<Store>, steps: seq<Step>, i: nat)
    requires IsRun(run, steps) && IsStart(run[0]) && i < |run|
    ensures DiskInv(run[i]) && PhaseInv(run[i]) && CommitInv(run[i])
  {
    RunKeepsDisk(run, steps, i);
    if i > 0 {
      RunKeepsCommit(run, steps, i - 1);
      StepKeepsCommit(run[i - 1], steps[i - 1], run[i]);
    }
  }

  /** At every state of every crash run, file, journal and memory are in step. */
  lemma {:induction false} RunKeepsInStep(run: seq<Store>, steps: seq<Step>, i: nat)
    requires IsCrashRun(run, steps) && i < |run|
    ensures PhaseInv(run[i]) && InStep(run[i]) && NewestInv(run[i])
  {
    RunKeepsCommit(run, steps, i);
    if i > 0 {
      RunKeepsInStep(run, steps, i - 1);
      RunKeepsCommit(run, steps, i - 1);
      StepKeepsInStep(run[i - 1], steps[i - 1], run[i]);
    }
  }

  /** The file is the record's before- or after-image. */
  ghost predicate Explains(r: Record, now: Image) {
    now == r.before || now == r.after
  }

  /**
   * At every step of every crash run, the newest record explains the state file exactly when its own
   * after-image has a version or the file has not moved on from its before-image. Other mutations of the
   * run, cleared versions or not, do not matter.
   */
  lemma NewestRecordExplainsFile(run: seq<Store>, steps: seq<Step>, i: nat)
    requires IsCrashRun(run, steps) && i < |run| && run[i].journal != []
    ensures var r, now := run[i].journal[|run[i].journal| - 1], OnDisk(run[i]);
            Explains(r, now) <==> r.after.version != 0 || now == r.before
  {
    RunKeepsInStep(run, steps, i);
  }

  /**
   * In every run, failed replacements included: if the newest record is a commit, the file is its
   * after-image exactly when that has a version.
   */
  lemma NewestCommitIsOnDisk(run: seq<Store>, steps: seq<Step>, i: nat)
    requires IsRun(run, steps) && IsStart(run[0]) && i < |run| && run[i].journal != []
    requires run[i].journal[|run[i].journal| - 1].committed
    ensures var r := run[i].journal[|run[i].journal| - 1];
            OnDisk(run[i]) == r.after <==> r.after.version != 0
  {
    RunKeepsCommit(run, steps, i);
  }

  /** Every commit record anywhere in the journal means that the file once was where it led. */
  lemma {:induction false} CommittedWasReached(run: seq<Store>, steps: seq<Step>, i: nat, k: nat) returns (at: nat)
    requires IsRun(run, steps) && IsStart(run[0]) && i < |run| && k < |run[i].journal| && run[i].journal[k].committed
    ensures at <= i && OnDisk(run[at]) == Versioned(run[i].journal[k].after)
  {
    RunKeepsCommit(run, steps, i);
    if k == |run[i].journal| - 1 {
      at := i;
    } else {
      assert i > 0 && Next(run[i - 1], steps[i - 1], run[i]);
      at := CommittedWasReached(run, steps, i - 1, k);
    }
  }

  /**
   * Write-ahead, in every run: whenever the state file changes, the newest record is the uncommitted intent
   * of that very change.
   */
  lemma NoChangeWithoutIntent(run: seq<Store>, steps: seq<Step>, i: nat)
    requires IsRun(run, steps) && IsStart(run[0]) && i < |steps| && OnDisk(run[i + 1]) != OnDisk(run[i])
    ensures run[i].journal != []
    ensures var r := run[i].journal[|run[i].journal| - 1]; !r.committed && Versioned(r.after) == OnDisk(run[i + 1])
  {
    RunKeepsCommit(run, steps, i);
    assert Next(run[i], steps[i], run[i + 1]);
  }

  /** A transaction has at most two records: its intent, and right after it its commit with the same images. */
  ghost predicate Paired(journal: seq<Record>, nextTxn: nat) {
    && (forall i :: 0 <= i < |journal| ==> journal[i].txn < nextTxn)
    && (forall i :: 0 <= i < |journal| && journal[i].committed ==>
      i > 0 && !journal[i - 1].committed && journal[i] == journal[i - 1].(committed := true))
    && (forall i, j :: 0 <= i < j < |journal| && journal[i].txn == journal[j].txn ==>
      j == i + 1 && journal[j].committed)
  }

  /** The transaction in progress is newer than every other. */
  ghost predicate TxnInv(s: Store) {
    && Paired(s.journal, s.nextTxn)
    && (!s.phase.Idle? ==> s.phase.rec.txn < s.nextTxn && !s.phase.rec.committed)
    && (s.phase.Prepared? ==> forall i :: 0 <= i < |s.journal| ==> s.journal[i].txn < s.phase.rec.txn)
    && (!s.phase.Idle? && !s.phase.Prepared? ==> IsNewest(s, s.phase.rec))
  }

  lemma IntentKeepsPaired(journal: seq<Record>, r: Record, nextTxn: nat)
    requires Paired(journal, nextTxn) && !r.committed && r.txn < nextTxn
    requires forall i :: 0 <= i < |journal| ==> journal[i].txn < r.txn
    ensures Paired(journal + [r], nextTxn)
  {
    var t := journal + [r];
    assert forall i :: 0 <= i < |journal| ==> t[i] == journal[i];
  }

  lemma CommitKeepsPaired(journal: seq<Record>, r: Record, nextTxn: nat)
    requires Paired(journal, nextTxn) && !r.committed && journal != [] && journal[|journal| - 1] == r
    ensures Paired(journal + [r.(committed := true)], nextTxn)
  {
    var t := journal + [r.(committed := true)];
    assert forall i :: 0 <= i < |journal| ==> t[i] == journal[i];
  }

  lemma StepKeepsTxn(s: Store, step: Step, t: Store)
    requires TxnInv(s) && Next(s, step, t)
    ensures TxnInv(t)
  {
    match step {
      case AppendIntent => IntentKeepsPaired(s.journal, s.phase.rec, s.nextTxn);
      case AppendCommit => CommitKeepsPaired(s.journal, s.phase.rec, s.nextTxn);
      case _ =>
    }
  }

  /** In every run every commit stands right behind its own intent, and no transaction number is used again. */
  lemma {:induction false} CommitsFollowIntents(run: seq<Store>, steps: seq<Step>, i: nat)
    requires IsRun(run, steps) && IsStart(run[0]) && i < |run|
    ensures TxnInv(run[i]) && Paired(run[i].journal, run[i].nextTxn)
  {
    if i > 0 {
      CommitsFollowIntents(run, steps, i - 1);
      StepKeepsTxn(run[i - 1], steps[i - 1], run[i]);
    }
  }

  /** After any crash the next start finds where the interrupted `Apply` started from or where it led. */
  lemma CrashIsAllOrNothing(run: seq<Store>, steps: seq<Step>, i: nat, survivor: Content, t: Store)
    requires IsCrashRun(run, steps) && i < |run| && !run[i].phase.Idle?
    requires Next(run[i], Crash(survivor), t)
    ensures t.memory == run[i].phase.rec.before || t.memory == Versioned(run[i].phase.rec.after)
  {
    RunKeepsCommit(run, steps, i);
    RunKeepsInStep(run, steps, i);
  }

  /** A mutation that clears the version leaves a file that the newest, committed record does not explain. */
  lemma ClearedVersionIsUnexplained() returns (run: seq<Store>, steps: seq<Step>)
    ensures IsCrashRun(run, steps)
    ensures var s := run[|steps|];
            s.journal != [] && s.journal[|s.journal| - 1].committed && !Explains(s.journal[|s.journal| - 1], OnDisk(s))
  {
    var clear: Mutation := x => Image(0, "changed");
    var a := Image(1, "old");
    var b := Image(1, "changed");
    var r := Record(0, a, Image(0, "changed"), false);
    var first := File(Whole(a), true);
    var s0 := Store(first, None, [], a, Idle, 0);
    var s1 := Store(first, None, [], a, Prepared(r, clear), 1);
    var s2 := Store(first, None, [r], a, Intended(r, clear), 1);
    var s3 := Store(first, None, [r], b, Mutated(r), 1);
    var s4 := Store(first, Some(File(Whole(b), false)), [r], b, Written(r), 1);
    var s5 := Store(first, Some(File(Whole(b), true)), [r], b, Synced(r), 1);
    var s6 := Store(File(Whole(b), true), None, [r], b, Replaced(r), 1);
    var s7 := Store(File(Whole(b), true), None, [r, r.(committed := true)], b, Idle, 1);
    run := [s0, s1, s2, s3, s4, s5, s6, s7];
    steps := [Begin(clear), AppendIntent, Mutate, WriteTemp, SyncTemp, Rename, AppendCommit];
  }

  // ---- The code ----

  /** The state file, the temporary file and the journal. */
  class Disk {
    var file: File
    var temp: Option<File>
    var journal: seq<Record>

    constructor (file: File)
      ensures this.file == file && temp == None && journal == []
    {
      this.file := file;
      temp := None;
      journal := [];
    }

    /** An append that writes the whole line or reports an error. */
    method Append(r: Record, works: bool) returns (ok: bool)
      modifies `journal
      ensures ok == works && journal == if works then old(journal) + [r] else old(journal)
    {
      if works {
        journal := journal + [r];
      }
      return works;
    }
  }

  /** The first file operation of `persist` that fails, if any. */
  datatype Fault = NoFault | WriteFault | SyncFault | RenameFault

  /** The steps of `persist` under a fault. */
  function PersistSteps(fault: Fault): seq<Step> {
    match fault
    case NoFault => [WriteTemp, SyncTemp, Rename]
    case WriteFault => [PersistFails]
    case SyncFault => [WriteTemp, PersistFails]
    case RenameFault => [WriteTemp, SyncTemp, PersistFails]
  }

  /** The steps of `Apply` up to the end of `Update`. */
  function StartSteps(fn: Mutation, fault: Fault): seq<Step> {
    [Begin(fn), AppendIntent, Mutate] + PersistSteps(fault)
  }

  /** The steps of `Apply`. */
  function ApplySteps(fn: Mutation, intentWorks: bool, fault: Fault, commitWorks: bool): seq<Step> {
    if !intentWorks then [Begin(fn), IntentFails]
    else
      StartSteps(fn, fault)
      + (if fault != NoFault then [] else if commitWorks then [AppendCommit] else [CommitFails])
  }

  lemma ExtendRun(run: seq<Store>, steps: seq<Step>, step: Step, t: Store)
    requires IsRun(run, steps) && Next(run[|steps|], step, t)
    ensures IsRun(run + [t], steps + [step])
  {
  }

  /** The steps up to the replacement of the file, put before the run of `Update`. */
  lemma StartedRun(s: Store, prepared: Store, fn: Mutation, fault: Fault, update: seq<Store>)
    returns (run: seq<Store>)
    requires IsRun(update, [Mutate] + PersistSteps(fault))
    requires Next(s, Begin(fn), prepared) && Next(prepared, AppendIntent, update[0])
    ensures IsRun(run, StartSteps(fn, fault)) && run[0] == s && run[|run| - 1] == update[|update| - 1]
  {
    var steps := [Mutate] + PersistSteps(fault);
    PrependStep(prepared, AppendIntent, update, steps);
    PrependStep(s, Begin(fn), [prepared] + update, [AppendIntent] + steps);
    run := [s] + ([prepared] + update);
    assert [Begin(fn)] + ([AppendIntent] + steps) == StartSteps(fn, fault);
  }

  lemma FailedSteps(fn: Mutation, fault: Fault, commitWorks: bool)
    requires fault != NoFault
    ensures ApplySteps(fn, true, fault, commitWorks) == StartSteps(fn, fault)
  {
  }

  /** The commit, or its failure, at the end of the run. */
  lemma EndedRun(run: seq<Store>, fn: Mutation, commitWorks: bool, t: Store) returns (all: seq<Store>)
    requires IsRun(run, StartSteps(fn, NoFault))
    requires Next(run[|run| - 1], if commitWorks then AppendCommit else CommitFails, t)
    ensures IsRun(all, ApplySteps(fn, true, NoFault, commitWorks)) && all[0] == run[0] && all[|all| - 1] == t
  {
    var last := if commitWorks then AppendCommit else CommitFails;
    ExtendRun(run, StartSteps(fn, NoFault), last, t);
    all := run + [t];
    assert ApplySteps(fn, true, NoFault, commitWorks) == StartSteps(fn, NoFault) + [last];
  }

  class TransactionManager {
    const disk: Disk
    var memory: Image
    var nextTxn: nat

    /** The protocol state. */
    ghost function Current(phase: Phase): Store
      reads this, disk
    {
      Store(disk.file, disk.temp, disk.journal, memory, phase, nextTxn)
    }

    /** Starts over the disk, loading the state file. After a crash this is the protocol's crash step. */
    constructor (disk: Disk, firstTxn: nat)
      requires disk.temp == None && disk.file.durable
      ensures this.disk == disk && memory == Loaded(disk.file.content) && nextTxn == firstTxn
      ensures disk.journal == [] ==> IsStart(Current(Idle))
      ensures forall s: Store ::
        s.file == disk.file && s.journal == disk.journal && s.nextTxn == firstTxn ==>
          Next(s, Crash(s.file.content), Current(Idle))
    {
      this.disk := disk;
      memory := Loaded(disk.file.content);
      nextTxn := firstTxn;
    }

    /** `persist`: a temporary file is written, synced and renamed over the state file, or removed. */
    method Persist(fault: Fault, ghost rec: Record) returns (ok: bool, ghost run: seq<Store>)
      requires disk.temp == None
      modifies disk`file, disk`temp
      ensures ok <==> fault == NoFault
      ensures disk.temp == None && disk.file == if ok then File(Whole(memory), true) else old(disk.file)
      ensures IsRun(run, PersistSteps(fault)) && run[0] == old(Current(Mutated(rec)))
      ensures run[|run| - 1] == Current(if ok then Replaced(rec) else Idle)
    {
      run := [Current(Mutated(rec))];
      if fault == WriteFault {
        run := run + [Current(Idle)];
        return false, run;
      }
      disk.temp := Some(File(Whole(memory), false));
      run := run + [Current(Written(rec))];
      if fault == SyncFault {
        disk.temp := None;
        run := run + [Current(Idle)];
        return false, run;
      }
      disk.temp := Some(disk.temp.value.(durable := true));
      run := run + [Current(Synced(rec))];
      if fault == RenameFault {
        disk.temp := None;
        run := run + [Current(Idle)];
        return false, run;
      }
      disk.file := disk.temp.value;
      disk.temp := None;
      run := run + [Current(Replaced(rec))];
      ok := true;
    }

    /** `Update`: mutates the memory and persists it. */
    method Update(fn: Mutation, fault: Fault, ghost rec: Record) returns (ok: bool, ghost run: seq<Store>)
      requires disk.temp == None
      modifies `memory, disk`file, disk`temp
      ensures memory == Versioned(fn(old(memory))) && (ok <==> fault == NoFault)
      ensures disk.temp == None && disk.file == if ok then File(Whole(memory), true) else old(disk.file)
      ensures IsRun(run, [Mutate] + PersistSteps(fault)) && run[0] == old(Current(Intended(rec, fn)))
      ensures run[|run| - 1] == Current(if ok then Replaced(rec) else Idle)
    {
      ghost var s := Current(Intended(rec, fn));
      memory := fn(memory);
      if memory.version == 0 {
        memory := memory.(version := STATE_VERSION);
      }
      ok, run := Persist(fault, rec);
      PrependStep(s, Mutate, run, PersistSteps(fault));
      run := [s] + run;
    }

    /**
     * `Apply`. Its writes are, in order, the steps of a run; a crash cuts that run short anywhere. A failed
     * intent append leaves file, journal and memory as they were.
     */
    method Apply(fn: Mutation, intentWorks: bool, fault: Fault, commitWorks: bool)
      returns (ok: bool, ghost run: seq<Store>)
      requires disk.temp == None
      modifies this, disk
      ensures ok <==> intentWorks && fault == NoFault
      ensures disk.temp == None && (!ok ==> disk.file == old(disk.file))
      ensures !intentWorks ==> disk.journal == old(disk.journal) && memory == old(memory)
      ensures IsRun(run, ApplySteps(fn, intentWorks, fault, commitWorks))
      ensures run[0] == old(Current(Idle)) && run[|run| - 1] == Current(Idle)
    {
      ghost var s := Current(Idle);
      var before := memory;
      var after := fn(before);
      var entry := Record(nextTxn, before, after, false);
      nextTxn := nextTxn + 1;
      ghost var prepared := Current(Prepared(entry, fn));
      ok := disk.Append(entry, intentWorks);
      if !ok {
        run := [s, prepared, Current(Idle)];
        return;
      }
      ok, run := Update(fn, fault, entry);
      run := StartedRun(s, prepared, fn, fault, run);
      if !ok {
        FailedSteps(fn, fault, commitWorks);
        return;
      }
      var committed := disk.Append(entry.(committed := true), commitWorks);
      run := EndedRun(run, fn, commitWorks, Current(Idle));
    }
  }

  lemma PrependStep(s: Store, step: Step, run: seq<Store>, steps: seq<Step>)
    requires IsRun(run, steps) && Next(s, step, run[0])
    ensures IsRun([s] + run, [step] + steps)
  {
    var r, p := [s] + run, [step] + steps;
    forall i | 0 <= i < |p| ensures Next(r[i], p[i], r[i + 1]) {
      if i > 0 {
        assert Next(run[i - 1], steps[i - 1], run[i]);
      }
    }
  }
}
