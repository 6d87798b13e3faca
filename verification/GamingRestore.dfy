/**
 * What a gaming session changes and puts back: IRQ masks (gaming/hispowerd/irq/affinity.go), CPU
 * governors and the autogroup switch (gaming/hispowerd/tuning/tuning.go), under the daemon's phase
 * flags (gaming/hispowerd/main.go). Any read or write of the start may fail.
 *
 * `SessionTarget` is what a session leaves when its restoring writes work; it is the settings as found
 * but for what `NothingLost` rules out.
 */
module GamingRestore {
  import opened Wrappers

  const ALL_CPUS := "ffffffff"

  /** A kernel setting. */
  datatype Key = IrqMask(irq: int) | Governor(path: string) | Autogroup

  type Settings = map<Key, string>

  datatype WriteResult = Written | PermissionDenied | OtherError

  /** Which accesses of one start go wrong. */
  datatype Faults = Faults(unreadable: set<Key>, refused: set<Key>, broken: set<Key>)

  /** The key can be read and written. */
  predicate Accessible(key: Key, present: set<Key>, faults: Faults) {
    key in present && key !in faults.unreadable && key !in faults.refused && key !in faults.broken
  }

  /** The key can be read, and writing it is refused for lack of permission. */
  predicate Refuses(key: Key, present: set<Key>, faults: Faults) {
    key in present && key !in faults.unreadable && key !in faults.broken && key in faults.refused
  }

  datatype SavedIrq = SavedIrq(number: int, previous: string)

  /** The settings files; nobody else writes them. Values are what a trimmed read returns. */
  class Sysfs {
    var settings: Settings

    constructor (settings: Settings)
      ensures this.settings == settings
    {
      this.settings := settings;
    }

    method Read(key: Key, unreadable: set<Key>) returns (r: Option<string>)
      ensures r == if key in settings && key !in unreadable then Some(settings[key]) else None
    {
      if key in settings && key !in unreadable {
        return Some(settings[key]);
      }
      return None;
    }

    /** A write that fails changes nothing. */
    method Write(key: Key, value: string, refused: set<Key>, broken: set<Key>) returns (r: WriteResult)
      modifies this
      ensures r == if key !in old(settings) || key in broken then OtherError
                   else if key in refused then PermissionDenied else Written
      ensures settings == if r == Written then old(settings)[key := value] else old(settings)
    {
      if key !in settings || key in broken {
        return OtherError;
      }
      if key in refused {
        return PermissionDenied;
      }
      settings := settings[key := value];
      return Written;
    }
  }

  // ---- Setting a list of keys ----

  /** Every listed key that can be accessed has the value. */
  function Pinned(start: Settings, keys: seq<Key>, value: string, faults: Faults): Settings {
    map k | k in start :: if k in keys && Accessible(k, start.Keys, faults) then value else start[k]
  }

  /** The key is listed twice or more. */
  ghost predicate Repeated(keys: seq<Key>, k: Key) {
    exists i, j :: 0 <= i < j < |keys| && keys[i] == k && keys[j] == k
  }

  /** What is saved last for a key: its old value, but the new one if it was saved again once set. */
  ghost function SavedFor(start: Settings, keys: seq<Key>, value: string, faults: Faults, k: Key): Option<string>
    requires k in start
  {
    if k !in keys || !Accessible(k, start.Keys, faults) then None
    else if Repeated(keys, k) then Some(value)
    else Some(start[k])
  }

  /** What writing the saved values back leaves: the old values, but for keys that were saved twice. */
  ghost function Target(start: Settings, keys: seq<Key>, value: string, faults: Faults): Settings {
    map k | k in start :: if Repeated(keys, k) && Accessible(k, start.Keys, faults) then value else start[k]
  }

  /** A setting that is listed twice, and can be accessed, already has the value it would be given. */
  ghost predicate RepeatsHarmless(start: Settings, keys: seq<Key>, value: string, faults: Faults) {
    forall k :: k in start && Repeated(keys, k) && Accessible(k, start.Keys, faults) ==> start[k] == value
  }

  lemma TargetIsStart(start: Settings, keys: seq<Key>, value: string, faults: Faults)
    ensures Target(start, keys, value, faults) == start <==> RepeatsHarmless(start, keys, value, faults)
  {
    var t := Target(start, keys, value, faults);
    assert forall k :: k in start ==> (t[k] == start[k] <==>
      !(Repeated(keys, k) && Accessible(k, start.Keys, faults)) || start[k] == value);
  }

  /** One more key is listed. */
  lemma RepeatedNext(keys: seq<Key>, key: Key, k: Key)
    ensures Repeated(keys + [key], k) <==> Repeated(keys, k) || (k == key && key in keys)
  {
    var more := keys + [key];
    if Repeated(keys, k) {
      var i, j :| 0 <= i < j < |keys| && keys[i] == k && keys[j] == k;
      assert more[i] == k && more[j] == k;
    }
    if k == key && key in keys {
      var i :| 0 <= i < |keys| && keys[i] == key;
      assert more[i] == k && more[|keys|] == k;
    }
  }

  lemma UnlistedIsNotRepeated(keys: seq<Key>, k: Key)
    requires k !in keys
    ensures !Repeated(keys, k)
  {
  }

  lemma PinnedNext(start: Settings, keys: seq<Key>, key: Key, value: string, faults: Faults)
    ensures Pinned(start, keys + [key], value, faults) ==
            if Accessible(key, start.Keys, faults) then Pinned(start, keys, value, faults)[key := value]
            else Pinned(start, keys, value, faults)
  {
  }

  lemma SavedForNext(start: Settings, keys: seq<Key>, key: Key, value: string, faults: Faults, k: Key)
    requires k in start
    ensures SavedFor(start, keys + [key], value, faults, k) ==
            if k == key && Accessible(key, start.Keys, faults) then Some(Pinned(start, keys, value, faults)[key])
            else SavedFor(start, keys, value, faults, k)
  {
    RepeatedNext(keys, key, k);
  }

  // ---- IRQ masks ----

  function MaskKeys(irqs: seq<int>): (keys: seq<Key>)
    ensures forall k :: k in keys ==> k.IrqMask?
  {
    seq(|irqs|, i requires 0 <= i < |irqs| => IrqMask(irqs[i]))
  }

  ghost function IrqTarget(start: Settings, detected: Option<seq<int>>, mask: string, faults: Faults): Settings {
    if detected.None? then start else Target(start, MaskKeys(detected.value), mask, faults)
  }

  /** The last of the first n saved masks for a key. */
  ghost function LastSaved(saved: seq<SavedIrq>, n: nat, k: Key): Option<string>
    requires n <= |saved|
  {
    if n == 0 then None
    else if k == IrqMask(saved[n - 1].number) then Some(saved[n - 1].previous)
    else LastSaved(saved, n - 1, k)
  }

  lemma {:induction false} LastSavedPrefix(saved: seq<SavedIrq>, more: seq<SavedIrq>, n: nat, k: Key)
    requires n <= |saved|
    ensures LastSaved(saved + more, n, k) == LastSaved(saved, n, k)
  {
    if n > 0 {
      LastSavedPrefix(saved, more, n - 1, k);
    }
  }

  lemma {:induction false} SavedIsMask(saved: seq<SavedIrq>, n: nat, k: Key)
    requires n <= |saved|
    ensures LastSaved(saved, n, k).Some? ==> k.IrqMask?
    ensures LastSaved(saved, n, k).Some? <==> IsSaved(saved, n, k)
  {
    if n > 0 {
      SavedIsMask(saved, n - 1, k);
      SavedNext(saved, n - 1);
    }
  }

  /** Writing the saved masks back, in order, turns one table into the other. */
  ghost predicate IrqsSaved(target: Settings, now: Settings, saved: seq<SavedIrq>) {
    && now.Keys == target.Keys
    && (forall i :: 0 <= i < |saved| ==> IrqMask(saved[i].number) in target)
    && forall k :: k in target ==> target[k] == LastSaved(saved, |saved|, k).GetOr(now[k])
  }

  /** The key is a mask among the first n saved. */
  ghost predicate IsSaved(saved: seq<SavedIrq>, n: nat, k: Key)
    requires n <= |saved|
  {
    exists i :: 0 <= i < n && k == IrqMask(saved[i].number)
  }

  lemma SavedNext(saved: seq<SavedIrq>, n: nat)
    requires n < |saved|
    ensures forall k :: IsSaved(saved, n + 1, k) <==> IsSaved(saved, n, k) || k == IrqMask(saved[n].number)
  {
    var last := saved[n].number;
    assert IsSaved(saved, n + 1, IrqMask(last));
  }

  /** What the pinning loop knows after the keys so far. */
  ghost predicate Pinning(
      start: Settings, keys: seq<Key>, mask: string, faults: Faults, now: Settings, saved: seq<SavedIrq>) {
    && now == Pinned(start, keys, mask, faults)
    && (forall i :: 0 <= i < |saved| ==> IrqMask(saved[i].number) in start)
    && forall k :: k in start ==> LastSaved(saved, |saved|, k) == SavedFor(start, keys, mask, faults, k)
  }

  lemma PinningSkips(
      start: Settings, keys: seq<Key>, key: Key, mask: string, faults: Faults, now: Settings, saved: seq<SavedIrq>)
    requires Pinning(start, keys, mask, faults, now, saved) && !Accessible(key, start.Keys, faults)
    ensures Pinning(start, keys + [key], mask, faults, now, saved)
  {
    PinnedNext(start, keys, key, mask, faults);
    forall k | k in start
      ensures LastSaved(saved, |saved|, k) == SavedFor(start, keys + [key], mask, faults, k)
    {
      SavedForNext(start, keys, key, mask, faults, k);
    }
  }

  lemma PinningSaves(
      start: Settings, keys: seq<Key>, n: int, mask: string, faults: Faults, now: Settings, saved: seq<SavedIrq>)
    requires Pinning(start, keys, mask, faults, now, saved) && Accessible(IrqMask(n), start.Keys, faults)
    ensures var key := IrqMask(n);
            Pinning(start, keys + [key], mask, faults, now[key := mask], saved + [SavedIrq(n, now[key])])
  {
    var key, more := IrqMask(n), saved + [SavedIrq(n, now[IrqMask(n)])];
    PinnedNext(start, keys, key, mask, faults);
    forall k | k in start
      ensures LastSaved(more, |more|, k) == SavedFor(start, keys + [key], mask, faults, k)
    {
      SavedForNext(start, keys, key, mask, faults, k);
      LastSavedPrefix(saved, [SavedIrq(n, now[key])], |saved|, k);
    }
  }

  lemma PinningIsSaved(
      start: Settings, keys: seq<Key>, mask: string, faults: Faults, now: Settings, saved: seq<SavedIrq>)
    requires Pinning(start, keys, mask, faults, now, saved)
    ensures IrqsSaved(Target(start, keys, mask, faults), now, saved)
    ensures saved == [] ==> now == start && Target(start, keys, mask, faults) == start
  {
    var target := Target(start, keys, mask, faults);
    forall k | k in target
      ensures target[k] == LastSaved(saved, |saved|, k).GetOr(now[k])
      ensures saved == [] ==> now[k] == start[k] && target[k] == start[k]
    {
      assert LastSaved(saved, |saved|, k) == SavedFor(start, keys, mask, faults, k);
      assert Repeated(keys, k) ==> k in keys;
    }
  }

  /** The first n saved masks have been written back where that works. */
  ghost predicate WritingBack(
      target: Settings, before: Settings, now: Settings, saved: seq<SavedIrq>, n: nat, broken: set<Key>)
    requires n <= |saved|
  {
    && before.Keys == now.Keys == target.Keys
    && forall k :: k in target ==> now[k] == if k in broken then before[k] else LastSaved(saved, n, k).GetOr(before[k])
  }

  lemma WritingBackNext(
      target: Settings, before: Settings, now: Settings, saved: seq<SavedIrq>, n: nat, broken: set<Key>)
    requires n < |saved| && WritingBack(target, before, now, saved, n, broken) && IrqMask(saved[n].number) in target
    ensures var key := IrqMask(saved[n].number);
            var next := if key in broken then now else now[key := saved[n].previous];
            WritingBack(target, before, next, saved, n + 1, broken)
  {
  }

  lemma WrittenBack(target: Settings, before: Settings, now: Settings, saved: seq<SavedIrq>, broken: set<Key>)
    requires WritingBack(target, before, now, saved, |saved|, broken) && IrqsSaved(target, before, saved)
    ensures forall k :: k in target ==> now[k] == if k in broken then before[k] else target[k]
  {
  }

  /** The value is the one the session leaves when all works, or the all-CPUs mask. */
  predicate BackOrReset(value: string, target: string) {
    value == target || value == ALL_CPUS
  }

  /** Every saved mask is back or reset. */
  ghost predicate AllBackOrReset(saved: seq<SavedIrq>, now: Settings, target: Settings)
    requires now.Keys == target.Keys
    requires forall i :: 0 <= i < |saved| ==> IrqMask(saved[i].number) in target
  {
    forall i :: 0 <= i < |saved| ==> BackOrReset(now[IrqMask(saved[i].number)], target[IrqMask(saved[i].number)])
  }

  /** Every saved mask can be written, or does not need to be. */
  ghost predicate AllWritableOrBack(saved: seq<SavedIrq>, before: Settings, target: Settings, broken: set<Key>)
    requires before.Keys == target.Keys
    requires forall i :: 0 <= i < |saved| ==> IrqMask(saved[i].number) in target
  {
    forall i :: 0 <= i < |saved| ==>
      IrqMask(saved[i].number) !in broken
      || BackOrReset(before[IrqMask(saved[i].number)], target[IrqMask(saved[i].number)])
  }

  class IrqOptimizer {
    var saved: seq<SavedIrq>

    constructor ()
      ensures saved == []
    {
      saved := [];
    }

    /** Pins the detected IRQs, saving each old mask once its write has succeeded. */
    method Apply(sys: Sysfs, detected: Option<seq<int>>, mask: string, faults: Faults) returns (ok: bool)
      modifies this, sys
      ensures IrqsSaved(IrqTarget(old(sys.settings), detected, mask, faults), sys.settings, saved)
      ensures sys.settings == if detected.None? then old(sys.settings)
                              else Pinned(old(sys.settings), MaskKeys(detected.value), mask, faults)
      ensures !ok ==> sys.settings == old(sys.settings) == IrqTarget(old(sys.settings), detected, mask, faults)
    {
      saved := [];
      if detected.None? {
        return false;
      }
      var permErr := false;
      ghost var start, keys := sys.settings, MaskKeys(detected.value);
      assert Pinned(start, [], mask, faults) == start;
      for i := 0 to |detected.value|
        invariant Pinning(start, keys[..i], mask, faults, sys.settings, saved)
      {
        var n := detected.value[i];
        assert keys[..i + 1] == keys[..i] + [IrqMask(n)];
        var prev := sys.Read(IrqMask(n), faults.unreadable);
        if prev.None? {
          PinningSkips(start, keys[..i], IrqMask(n), mask, faults, sys.settings, saved);
          continue;
        }
        ghost var before := sys.settings;
        var r := sys.Write(IrqMask(n), mask, faults.refused, faults.broken);
        if r != Written {
          PinningSkips(start, keys[..i], IrqMask(n), mask, faults, sys.settings, saved);
          permErr := permErr || r == PermissionDenied;
          continue;
        }
        PinningSaves(start, keys[..i], n, mask, faults, before, saved);
        saved := saved + [SavedIrq(n, prev.value)];
      }
      assert keys[..|keys|] == keys;
      PinningIsSaved(start, keys, mask, faults, sys.settings, saved);
      ok := !(permErr && |saved| == 0);
    }

    /** Writes every saved mask back, past errors, and forgets them all. A mask that cannot be written stays. */
    method Restore(sys: Sysfs, broken: set<Key>, ghost target: Settings) returns (ok: bool)
      requires IrqsSaved(target, sys.settings, saved)
      modifies this, sys
      ensures saved == [] && sys.settings.Keys == target.Keys
      ensures forall k :: k in target ==> sys.settings[k] == if k in broken then old(sys.settings)[k] else target[k]
      ensures ok <==> forall i :: 0 <= i < |old(saved)| ==> IrqMask(old(saved)[i].number) !in broken
    {
      ok := true;
      ghost var before := sys.settings;
      for i := 0 to |saved|
        invariant unchanged(this) && WritingBack(target, before, sys.settings, saved, i, broken)
        invariant ok <==> forall j :: 0 <= j < i ==> IrqMask(saved[j].number) !in broken
      {
        WritingBackNext(target, before, sys.settings, saved, i, broken);
        var r := sys.Write(IrqMask(saved[i].number), saved[i].previous, {}, broken);
        if r != Written {
          ok := false;
        }
      }
      WrittenBack(target, before, sys.settings, saved, broken);
      saved := [];
    }

    /** Writes the all-CPUs mask to whatever is saved, past errors. */
    method EmergencyRestore(sys: Sysfs, broken: set<Key>)
      modifies this, sys
      ensures saved == [] && sys.settings.Keys == old(sys.settings).Keys
      ensures forall k :: k in sys.settings ==>
        sys.settings[k] ==
        if IsSaved(old(saved), |old(saved)|, k) && k !in broken then ALL_CPUS else old(sys.settings)[k]
    {
      ghost var start := sys.settings;
      for i := 0 to |saved|
        invariant unchanged(this) && Reset(start, sys.settings, saved, i, broken)
      {
        ResetNext(start, sys.settings, saved, i, broken);
        var r := sys.Write(IrqMask(saved[i].number), ALL_CPUS, {}, broken);
      }
      saved := [];
    }

    /**
     * The daemon's restore and its fallback. `Restore` has forgotten the masks by the time it reports an
     * error, so the fallback writes nothing: a mask that cannot be written stays as it was, and all saved
     * masks end as found or reset exactly when each can be written or did not need to be.
     */
    method RestoreOrReset(sys: Sysfs, broken: set<Key>, ghost target: Settings)
      requires IrqsSaved(target, sys.settings, saved)
      modifies this, sys
      ensures saved == [] && sys.settings.Keys == target.Keys
      ensures forall k :: k in target ==> sys.settings[k] == if k in broken then old(sys.settings)[k] else target[k]
      ensures AllBackOrReset(old(saved), sys.settings, target)
         <==> AllWritableOrBack(old(saved), old(sys.settings), target, broken)
    {
      ghost var before, masks := sys.settings, saved;
      var ok := Restore(sys, broken, target);
      if !ok {
        EmergencyRestore(sys, broken);
      }
      forall i | 0 <= i < |masks|
        ensures var k := IrqMask(masks[i].number);
                BackOrReset(sys.settings[k], target[k]) <==> k !in broken || BackOrReset(before[k], target[k])
      {
      }
    }
  }

  /** The first n saved masks have been reset where that works. */
  ghost predicate Reset(start: Settings, now: Settings, saved: seq<SavedIrq>, n: nat, broken: set<Key>)
    requires n <= |saved|
  {
    && now.Keys == start.Keys
    && forall k :: k in now ==> now[k] == if IsSaved(saved, n, k) && k !in broken then ALL_CPUS else start[k]
  }

  lemma ResetNext(start: Settings, now: Settings, saved: seq<SavedIrq>, n: nat, broken: set<Key>)
    requires n < |saved| && Reset(start, now, saved, n, broken)
    ensures var key := IrqMask(saved[n].number);
            var next := if key in now && key !in broken then now[key := ALL_CPUS] else now;
            Reset(start, next, saved, n + 1, broken)
  {
    SavedNext(saved, n);
  }

  /** A session whose restoring write fails: the mask is neither as found nor reset. */
  method FailedRestoreLeavesMask() returns (after: string)
    ensures after != "f0" && after != ALL_CPUS
  {
    var sys := new Sysfs(map[IrqMask(30) := "f0"]);
    var irq := new IrqOptimizer();
    var ok := irq.Apply(sys, Some([30]), "3", Faults({}, {}, {}));
    assert MaskKeys([30])[0] == IrqMask(30);
    irq.RestoreOrReset(sys, {IrqMask(30)}, IrqTarget(map[IrqMask(30) := "f0"], Some([30]), "3", Faults({}, {}, {})));
    after := sys.settings[IrqMask(30)];
  }

  // ---- Governors and autogroup ----

  function GovernorKeys(paths: seq<string>): (keys: seq<Key>)
    ensures forall k :: k in keys ==> k.Governor?
  {
    seq(|paths|, i requires 0 <= i < |paths| => Governor(paths[i]))
  }

  /** The keys before the first that refuses the write, where the loop gives up. */
  function Reached(keys: seq<Key>, present: set<Key>, faults: Faults): (r: seq<Key>)
    ensures forall k :: k in r ==> k in keys
  {
    if keys == [] || Refuses(keys[0], present, faults) then [] else [keys[0]] + Reached(keys[1..], present, faults)
  }

  /** The loop has got through these keys, and either through all or to one that refuses. */
  ghost predicate StopsAt(keys: seq<Key>, done: seq<Key>, present: set<Key>, faults: Faults) {
    && done <= keys && (forall k :: k in done ==> !Refuses(k, present, faults))
    && (|done| < |keys| ==> Refuses(keys[|done|], present, faults))
  }

  lemma {:induction false} ReachedIs(keys: seq<Key>, done: seq<Key>, present: set<Key>, faults: Faults)
    requires StopsAt(keys, done, present, faults)
    ensures Reached(keys, present, faults) == done
  {
    if done != [] {
      assert done[0] in done && done == [done[0]] + done[1..];
      ReachedIs(keys[1..], done[1..], present, faults);
    }
  }

  /** The governors that the loop gets to. */
  function ReachedGovernors(start: Settings, paths: Option<seq<string>>, faults: Faults): (keys: seq<Key>)
    ensures forall k :: k in keys ==> k.Governor?
  {
    if paths.None? then [] else Reached(GovernorKeys(paths.value), start.Keys, faults)
  }

  /** The autogroup switch is empty and can be set: it will be set, but an empty old value counts as none. */
  predicate LosesAutogroup(start: Settings, faults: Faults) {
    Accessible(Autogroup, start.Keys, faults) && start[Autogroup] == ""
  }

  /** What the tuning phase leaves. */
  function Tuned(start: Settings, paths: Option<seq<string>>, governor: string, faults: Faults): Settings {
    var t := Pinned(start, ReachedGovernors(start, paths, faults), governor, faults);
    if Accessible(Autogroup, start.Keys, faults) then t[Autogroup := "1"] else t
  }

  ghost function TuneTarget(start: Settings, paths: Option<seq<string>>, governor: string, faults: Faults): Settings {
    var t := Target(start, ReachedGovernors(start, paths, faults), governor, faults);
    if LosesAutogroup(start, faults) then t[Autogroup := "1"] else t
  }

  /** Writing back what is saved turns one table into the other. */
  ghost predicate TuningSaved(target: Settings, now: Settings, governors: map<string, string>, autogroup: string) {
    && now.Keys == target.Keys
    && (forall p :: p in governors ==> Governor(p) in target && governors[p] == target[Governor(p)])
    && (autogroup != "" ==> Autogroup in target && target[Autogroup] == autogroup)
    && forall k :: k in target && now[k] != target[k] ==>
      (k.Governor? && k.path in governors) || (k.Autogroup? && autogroup != "")
  }

  /** What the governor loop knows after the keys so far. */
  ghost predicate Governing(
      start: Settings, keys: seq<Key>, governor: string, faults: Faults,
      now: Settings, governors: map<string, string>) {
    && now == Pinned(start, keys, governor, faults)
    && (forall p :: p in governors ==> Governor(p) in start)
    && forall p :: Governor(p) in start ==>
      SavedFor(start, keys, governor, faults, Governor(p)) == if p in governors then Some(governors[p]) else None
  }

  lemma StartGoverning(start: Settings, governor: string, faults: Faults)
    ensures Governing(start, [], governor, faults, start, map[])
  {
    assert Pinned(start, [], governor, faults) == start;
  }

  lemma GoverningSkips(
      start: Settings, keys: seq<Key>, key: Key, governor: string, faults: Faults,
      now: Settings, governors: map<string, string>)
    requires Governing(start, keys, governor, faults, now, governors) && !Accessible(key, start.Keys, faults)
    ensures Governing(start, keys + [key], governor, faults, now, governors)
  {
    PinnedNext(start, keys, key, governor, faults);
    forall p | Governor(p) in start
      ensures SavedFor(start, keys + [key], governor, faults, Governor(p))
           == SavedFor(start, keys, governor, faults, Governor(p))
    {
      SavedForNext(start, keys, key, governor, faults, Governor(p));
    }
  }

  lemma GoverningSaves(
      start: Settings, keys: seq<Key>, path: string, governor: string, faults: Faults,
      now: Settings, governors: map<string, string>)
    requires Governing(start, keys, governor, faults, now, governors) && Accessible(Governor(path), start.Keys, faults)
    ensures var key := Governor(path);
            Governing(start, keys + [key], governor, faults, now[key := governor], governors[path := now[key]])
  {
    var key := Governor(path);
    PinnedNext(start, keys, key, governor, faults);
    forall p | Governor(p) in start
      ensures SavedFor(start, keys + [key], governor, faults, Governor(p))
           == if p == path then Some(now[key]) else SavedFor(start, keys, governor, faults, Governor(p))
    {
      SavedForNext(start, keys, key, governor, faults, Governor(p));
    }
  }

  lemma GoverningIsSaved(
      start: Settings, keys: seq<Key>, governor: string, faults: Faults, now: Settings, governors: map<string, string>)
    requires Governing(start, keys, governor, faults, now, governors) && forall k :: k in keys ==> k.Governor?
    ensures TuningSaved(Target(start, keys, governor, faults), now, governors, "")
  {
    var target := Target(start, keys, governor, faults);
    forall k | k in target && now[k] != target[k]
      ensures k.Governor? && k.path in governors
    {
      assert k in keys && SavedFor(start, keys, governor, faults, Governor(k.path)).Some?;
    }
    forall p | p in governors
      ensures governors[p] == target[Governor(p)]
    {
      assert SavedFor(start, keys, governor, faults, Governor(p)) == Some(governors[p]);
    }
  }

  /** Switching autogrouping on, on top of saved governors: an empty old value is lost, any other is saved. */
  lemma AutogroupOnTop(target: Settings, now: Settings, governors: map<string, string>)
    requires TuningSaved(target, now, governors, "") && Autogroup in now
    ensures TuningSaved(if now[Autogroup] == "" then target[Autogroup := "1"] else target, now[Autogroup := "1"],
                        governors, now[Autogroup])
  {
    var after := if now[Autogroup] == "" then target[Autogroup := "1"] else target;
    assert now[Autogroup] == target[Autogroup];
    forall k | k in after && now[Autogroup := "1"][k] != after[k]
      ensures (k.Governor? && k.path in governors) || (k.Autogroup? && now[Autogroup] != "")
    {
      assert k != Autogroup ==> now[k] != target[k];
    }
  }

  lemma PinnedGovernorsKeepOthers(start: Settings, keys: seq<Key>, governor: string, faults: Faults, k: Key)
    requires k in start && !k.Governor? && forall j :: j in keys ==> j.Governor?
    ensures Pinned(start, keys, governor, faults)[k] == start[k]
  {
  }

  class Tuner {
    var savedGovernors: map<string, string>
    var savedAutogroup: string

    constructor ()
      ensures savedGovernors == map[] && savedAutogroup == ""
    {
      savedGovernors, savedAutogroup := map[], "";
    }

    /** Sets every governor it can; gives up at the first that it may not write. */
    method ApplyGovernor(sys: Sysfs, paths: Option<seq<string>>, governor: string, faults: Faults)
      requires savedGovernors == map[]
      modifies `savedGovernors, sys
      ensures var keys := ReachedGovernors(old(sys.settings), paths, faults);
              && sys.settings == Pinned(old(sys.settings), keys, governor, faults)
              && TuningSaved(Target(old(sys.settings), keys, governor, faults), sys.settings, savedGovernors, "")
    {
      ghost var start := sys.settings;
      if paths.Some? {
        ghost var done := SetGovernors(sys, paths.value, governor, faults);
        ReachedIs(GovernorKeys(paths.value), done, start.Keys, faults);
      } else {
        StartGoverning(start, governor, faults);
      }
      GoverningIsSaved(start, ReachedGovernors(start, paths, faults), governor, faults, sys.settings, savedGovernors);
    }

    /** The loop over the governors, up to the first that refuses. */
    method SetGovernors(sys: Sysfs, paths: seq<string>, governor: string, faults: Faults) returns (ghost done: seq<Key>)
      requires savedGovernors == map[]
      modifies `savedGovernors, sys
      ensures StopsAt(GovernorKeys(paths), done, old(sys.settings).Keys, faults)
      ensures Governing(old(sys.settings), done, governor, faults, sys.settings, savedGovernors)
    {
      ghost var start := sys.settings;
      StartGoverning(start, governor, faults);
      done := [];
      for i := 0 to |paths|
        invariant |done| == i && Governing(start, done, governor, faults, sys.settings, savedGovernors)
        invariant done <= GovernorKeys(paths) && forall k :: k in done ==> !Refuses(k, start.Keys, faults)
      {
        var refused := SetGovernor(sys, paths[i], governor, faults, start, done);
        if refused {
          return;
        }
        done := done + [Governor(paths[i])];
      }
    }

    /** The loop's body: one governor is set and saved, or not, or the loop is to give up. */
    method SetGovernor(sys: Sysfs, p: string, governor: string, faults: Faults,
                       ghost start: Settings, ghost keys: seq<Key>)
      returns (refused: bool)
      requires Governing(start, keys, governor, faults, sys.settings, savedGovernors)
      modifies `savedGovernors, sys
      ensures refused <==> Refuses(Governor(p), start.Keys, faults)
      ensures var tried := if refused then keys else keys + [Governor(p)];
              Governing(start, tried, governor, faults, sys.settings, savedGovernors)
    {
      ghost var before := sys.settings;
      var prev := sys.Read(Governor(p), faults.unreadable);
      if prev.None? {
        GoverningSkips(start, keys, Governor(p), governor, faults, before, savedGovernors);
        return false;
      }
      var r := sys.Write(Governor(p), governor, faults.refused, faults.broken);
      if r == PermissionDenied {
        return true;
      }
      if r == OtherError {
        GoverningSkips(start, keys, Governor(p), governor, faults, before, savedGovernors);
        return false;
      }
      GoverningSaves(start, keys, p, governor, faults, before, savedGovernors);
      savedGovernors := savedGovernors[p := prev.value];
      return false;
    }

    /** Switches autogrouping on and saves its old value, if it can be read and written. */
    method ApplyAutogroup(sys: Sysfs, faults: Faults)
      requires savedAutogroup == ""
      modifies `savedAutogroup, sys
      ensures var switched := Accessible(Autogroup, old(sys.settings).Keys, faults);
              && savedAutogroup == (if switched then old(sys.settings)[Autogroup] else "")
              && sys.settings == if switched then old(sys.settings)[Autogroup := "1"] else old(sys.settings)
    {
      var prev := sys.Read(Autogroup, faults.unreadable);
      if prev.None? {
        return;
      }
      savedAutogroup := prev.value;
      var r := sys.Write(Autogroup, "1", faults.refused, faults.broken);
      if r != Written {
        savedAutogroup := "";
      }
    }

    /** Everything that differs afterwards is saved, but for repeats and an empty autogroup switch. */
    method Apply(sys: Sysfs, paths: Option<seq<string>>, governor: string, faults: Faults)
      modifies this, sys
      ensures var target := TuneTarget(old(sys.settings), paths, governor, faults);
              TuningSaved(target, sys.settings, savedGovernors, savedAutogroup)
      ensures sys.settings == Tuned(old(sys.settings), paths, governor, faults)
    {
      savedGovernors, savedAutogroup := map[], "";
      ghost var start := sys.settings;
      ghost var keys := ReachedGovernors(start, paths, faults);
      ApplyGovernor(sys, paths, governor, faults);
      forall k | k in start && !k.Governor?
        ensures sys.settings[k] == start[k]
      {
        PinnedGovernorsKeepOthers(start, keys, governor, faults, k);
      }
      if Autogroup in start {
        AutogroupOnTop(Target(start, keys, governor, faults), sys.settings, savedGovernors);
      }
      ApplyAutogroup(sys, faults);
    }

    /** Writes everything saved back, past errors, and forgets it. What cannot be written stays. */
    method Restore(sys: Sysfs, broken: set<Key>, ghost target: Settings)
      requires TuningSaved(target, sys.settings, savedGovernors, savedAutogroup)
      modifies this, sys
      ensures savedGovernors == map[] && savedAutogroup == "" && sys.settings.Keys == target.Keys
      ensures forall k :: k in target ==> sys.settings[k] == if k in broken then old(sys.settings)[k] else target[k]
    {
      RestoreGovernors(sys, broken, target);
      RestoreAutogroup(sys, broken);
    }

    method RestoreGovernors(sys: Sysfs, broken: set<Key>, ghost target: Settings)
      requires TuningSaved(target, sys.settings, savedGovernors, savedAutogroup)
      modifies `savedGovernors, sys
      ensures savedGovernors == map[] && sys.settings.Keys == target.Keys
      ensures forall k :: k in target ==>
        sys.settings[k] == if k.Governor? && k !in broken then target[k] else old(sys.settings)[k]
    {
      ghost var before := sys.settings;
      var rest := savedGovernors.Keys;
      while rest != {}
        invariant rest <= savedGovernors.Keys && unchanged(this) && sys.settings.Keys == target.Keys
        invariant forall k :: k in target ==>
          sys.settings[k] == if k.Governor? && k !in broken && k.path !in rest then target[k] else before[k]
      {
        var p :| p in rest;
        rest := rest - {p};
        var r := sys.Write(Governor(p), savedGovernors[p], {}, broken);
      }
      savedGovernors := map[];
    }

    /** An empty saved value means that there is nothing to put back. */
    method RestoreAutogroup(sys: Sysfs, broken: set<Key>)
      modifies `savedAutogroup, sys
      ensures savedAutogroup == ""
      ensures sys.settings == if old(savedAutogroup) != "" && Autogroup in old(sys.settings) && Autogroup !in broken
                              then old(sys.settings)[Autogroup := old(savedAutogroup)] else old(sys.settings)
    {
      if savedAutogroup != "" {
        var r := sys.Write(Autogroup, savedAutogroup, {}, broken);
        savedAutogroup := "";
      }
    }
  }

  // ---- A session ----

  /** What the daemon finds when it starts a session: the detected IRQs, the governors, and what goes wrong. */
  datatype Start = Start(detected: Option<seq<int>>, mask: string, paths: Option<seq<string>>, governor: string,
                         faults: Faults)

  /** What a session leaves when its restoring writes work. */
  ghost function SessionTarget(start: Settings, s: Start): Settings {
    TuneTarget(IrqTarget(start, s.detected, s.mask, s.faults), s.paths, s.governor, s.faults)
  }

  /**
   * The session loses nothing: an IRQ or governor that is listed twice already has its gaming value, and the
   * autogroup switch is not an empty one that can be set.
   */
  ghost predicate NothingLost(start: Settings, s: Start) {
    && (s.detected.Some? ==> RepeatsHarmless(start, MaskKeys(s.detected.value), s.mask, s.faults))
    && RepeatsHarmless(start, ReachedGovernors(start, s.paths, s.faults), s.governor, s.faults)
    && !LosesAutogroup(start, s.faults)
  }

  lemma TuneTargetIsStart(start: Settings, paths: Option<seq<string>>, governor: string, faults: Faults)
    ensures TuneTarget(start, paths, governor, faults) == start
       <==> (RepeatsHarmless(start, ReachedGovernors(start, paths, faults), governor, faults)
             && !LosesAutogroup(start, faults))
  {
    var keys := ReachedGovernors(start, paths, faults);
    var t := Target(start, keys, governor, faults);
    TargetIsStart(start, keys, governor, faults);
    UnlistedIsNotRepeated(keys, Autogroup);
    if LosesAutogroup(start, faults) {
      assert TuneTarget(start, paths, governor, faults)[Autogroup] != start[Autogroup];
    }
  }

  /** The two phases concern different settings. */
  lemma PhasesAreIndependent(
      start: Settings, now: Settings, paths: Option<seq<string>>, governor: string, faults: Faults, k: Key)
    requires now.Keys == start.Keys && k in start
    requires forall j :: j in start && !j.IrqMask? ==> now[j] == start[j]
    ensures LosesAutogroup(now, faults) <==> LosesAutogroup(start, faults)
    ensures TuneTarget(now, paths, governor, faults).Keys == now.Keys
    ensures TuneTarget(now, paths, governor, faults)[k]
         == if k.IrqMask? then now[k] else TuneTarget(start, paths, governor, faults)[k]
  {
    var keys := ReachedGovernors(start, paths, faults);
    assert keys == ReachedGovernors(now, paths, faults);
    if k.IrqMask? {
      UnlistedIsNotRepeated(keys, k);
    }
  }

  lemma IrqTargetKeepsOthers(start: Settings, s: Start)
    ensures var t := IrqTarget(start, s.detected, s.mask, s.faults);
            t.Keys == start.Keys && forall k :: k in start && !k.IrqMask? ==> t[k] == start[k]
  {
    if s.detected.Some? {
      forall k | k in start && !k.IrqMask?
        ensures !Repeated(MaskKeys(s.detected.value), k)
      {
        UnlistedIsNotRepeated(MaskKeys(s.detected.value), k);
      }
    }
  }

  lemma IrqPhaseKeepsOthers(start: Settings, now: Settings, s: Start)
    requires now == if s.detected.None? then start else Pinned(start, MaskKeys(s.detected.value), s.mask, s.faults)
    ensures var t := IrqTarget(start, s.detected, s.mask, s.faults);
            now.Keys == t.Keys && forall k :: k in now && !k.IrqMask? ==> now[k] == t[k]
  {
    IrqTargetKeepsOthers(start, s);
  }

  /** A session whose restoring writes work leaves all settings as found exactly when it loses nothing. */
  lemma SessionTargetIsStart(start: Settings, s: Start)
    ensures SessionTarget(start, s) == start <==> NothingLost(start, s)
  {
    var t, r := IrqTarget(start, s.detected, s.mask, s.faults), SessionTarget(start, s);
    var u := TuneTarget(start, s.paths, s.governor, s.faults);
    IrqTargetKeepsOthers(start, s);
    TuneTargetIsStart(start, s.paths, s.governor, s.faults);
    if s.detected.Some? {
      TargetIsStart(start, MaskKeys(s.detected.value), s.mask, s.faults);
    }
    forall k | k in start
      ensures k in r && k in u && r[k] == if k.IrqMask? then t[k] else u[k]
      ensures k.IrqMask? ==> u[k] == start[k]
    {
      PhasesAreIndependent(start, t, s.paths, s.governor, s.faults, k);
      PhasesAreIndependent(start, start, s.paths, s.governor, s.faults, k);
    }
    assert r == start <==> t == start && u == start;
  }

  /** Tuning on top of pinned IRQs: the masks can still be put back. */
  lemma StillSaved(target: Settings, now: Settings, saved: seq<SavedIrq>, s: Start)
    requires IrqsSaved(target, now, saved) && forall k :: k in now && !k.IrqMask? ==> now[k] == target[k]
    ensures IrqsSaved(TuneTarget(target, s.paths, s.governor, s.faults),
                      TuneTarget(now, s.paths, s.governor, s.faults), saved)
  {
    forall k | k in target
      ensures k in TuneTarget(target, s.paths, s.governor, s.faults)
      ensures k in TuneTarget(now, s.paths, s.governor, s.faults)
      ensures TuneTarget(target, s.paths, s.governor, s.faults)[k]
           == LastSaved(saved, |saved|, k).GetOr(TuneTarget(now, s.paths, s.governor, s.faults)[k])
    {
      PhasesAreIndependent(target, now, s.paths, s.governor, s.faults, k);
      PhasesAreIndependent(target, target, s.paths, s.governor, s.faults, k);
      SavedIsMask(saved, |saved|, k);
    }
  }

  /** After the IRQ phase: its masks can be put back once tuning is, or there is nothing to put back. */
  lemma IrqPhaseIsSaved(start: Settings, now: Settings, saved: seq<SavedIrq>, ok: bool, s: Start)
    requires now == if s.detected.None? then start else Pinned(start, MaskKeys(s.detected.value), s.mask, s.faults)
    requires IrqsSaved(IrqTarget(start, s.detected, s.mask, s.faults), now, saved)
    requires !ok ==> now == start == IrqTarget(start, s.detected, s.mask, s.faults)
    ensures var left, between := SessionTarget(start, s), TuneTarget(now, s.paths, s.governor, s.faults);
            if ok then IrqsSaved(left, between, saved) else between == left
  {
    if ok {
      IrqPhaseKeepsOthers(start, now, s);
      StillSaved(IrqTarget(start, s.detected, s.mask, s.faults), now, saved, s);
    }
  }

  /** The masks of one table and everything else of another. */
  ghost function MasksFrom(masks: Settings, others: Settings): Settings
    requires masks.Keys == others.Keys
  {
    map k | k in masks :: if k.IrqMask? then masks[k] else others[k]
  }

  lemma MasksStillSaved(target: Settings, between: Settings, now: Settings, saved: seq<SavedIrq>)
    requires IrqsSaved(target, between, saved) && now.Keys == between.Keys
    requires forall k :: k in between && k.IrqMask? ==> now[k] == between[k]
    ensures IrqsSaved(MasksFrom(target, now), now, saved)
    ensures forall k :: k in target && !k.IrqMask? ==> between[k] == target[k]
  {
    forall k | k in target
      ensures MasksFrom(target, now)[k] == LastSaved(saved, |saved|, k).GetOr(now[k])
      ensures !k.IrqMask? ==> between[k] == target[k]
    {
      SavedIsMask(saved, |saved|, k);
    }
  }

  /**
   * Every listed mask, every governor before the first refusal, and the autogroup switch get their gaming values
   * if they can be read and written; nothing else changes.
   */
  ghost function GamingValue(start: Settings, s: Start, k: Key): string
    requires k in start
  {
    if !Accessible(k, start.Keys, s.faults) then start[k]
    else match k
         case IrqMask(n) => if s.detected.Some? && n in s.detected.value then s.mask else start[k]
         case Governor(_) => if k in ReachedGovernors(start, s.paths, s.faults) then s.governor else start[k]
         case Autogroup => "1"
  }

  ghost predicate InGame(start: Settings, s: Start, now: Settings) {
    now.Keys == start.Keys && forall k :: k in start ==> now[k] == GamingValue(start, s, k)
  }

  lemma InGameMeaning(start: Settings, s: Start)
    ensures InGame(start, s, Tuned(IrqPinned(start, s), s.paths, s.governor, s.faults))
  {
    var pinned := IrqPinned(start, s);
    assert pinned.Keys == start.Keys;
    assert ReachedGovernors(pinned, s.paths, s.faults) == ReachedGovernors(start, s.paths, s.faults);
    forall k | k in start
      ensures k in Tuned(pinned, s.paths, s.governor, s.faults)
      ensures Tuned(pinned, s.paths, s.governor, s.faults)[k] == GamingValue(start, s, k)
    {
      match k {
        case IrqMask(n) => IrqInGame(start, s, n);
        case Governor(p) => IrqKeepsKey(start, s, k);
        case Autogroup => IrqKeepsKey(start, s, k);
      }
    }
  }

  /** What the IRQ phase leaves. */
  function IrqPinned(start: Settings, s: Start): Settings {
    if s.detected.None? then start else Pinned(start, MaskKeys(s.detected.value), s.mask, s.faults)
  }

  lemma IrqKeepsKey(start: Settings, s: Start, k: Key)
    requires k in start && !k.IrqMask?
    ensures IrqPinned(start, s).Keys == start.Keys && IrqPinned(start, s)[k] == start[k]
  {
  }

  lemma IrqInGame(start: Settings, s: Start, n: int)
    requires IrqMask(n) in start
    ensures IrqPinned(start, s).Keys == start.Keys
    ensures IrqPinned(start, s)[IrqMask(n)] == GamingValue(start, s, IrqMask(n))
  {
    if s.detected.Some? {
      MaskIsListed(s.detected.value, n);
    }
  }

  lemma MaskIsListed(irqs: seq<int>, n: int)
    ensures IrqMask(n) in MaskKeys(irqs) <==> n in irqs
  {
    if n in irqs {
      var i :| 0 <= i < |irqs| && irqs[i] == n;
      assert MaskKeys(irqs)[i] == IrqMask(n);
    }
  }

  // ---- The daemon ----

  class Daemon {
    const sys: Sysfs
    const irq: IrqOptimizer
    const tuner: Tuner
    var gaming: bool
    var irqApplied: bool
    var tuned: bool
    /** What stopping will leave if its writes work; outside a session, the settings. */
    ghost var left: Settings
    /** During a session: the settings once tuning is put back and the IRQs are not yet. */
    ghost var between: Settings

    ghost predicate Valid()
      reads this, sys, irq, tuner
    {
      && (!gaming ==> sys.settings == left)
      && (gaming ==>
        && tuned && TuningSaved(between, sys.settings, tuner.savedGovernors, tuner.savedAutogroup)
        && (if irqApplied then IrqsSaved(left, between, irq.saved) else between == left))
    }

    constructor (sys: Sysfs)
      ensures Valid() && this.sys == sys && left == sys.settings && !gaming
      ensures fresh(irq) && fresh(tuner)
    {
      this.sys := sys;
      irq := new IrqOptimizer();
      tuner := new Tuner();
      gaming, irqApplied, tuned := false, false, false;
      left, between := sys.settings, sys.settings;
    }

    /** The IRQ phase of `startGaming`; it is not marked when its `Apply` fails. */
    method ApplyIrqPhase(s: Start)
      requires Valid() && !gaming
      modifies `irqApplied, `tuned, `left, `between, sys, irq
      ensures left == SessionTarget(old(sys.settings), s)
      ensures sys.settings == IrqPinned(old(sys.settings), s)
      ensures between == TuneTarget(sys.settings, s.paths, s.governor, s.faults)
      ensures if irqApplied then IrqsSaved(left, between, irq.saved) else between == left
    {
      ghost var start := sys.settings;
      irqApplied, tuned := false, false;
      irqApplied := irq.Apply(sys, s.detected, s.mask, s.faults);
      ghost var now := sys.settings;
      IrqPhaseIsSaved(start, now, irq.saved, irqApplied, s);
      left, between := SessionTarget(start, s), TuneTarget(now, s.paths, s.governor, s.faults);
    }

    /** The IRQ and tuning phases of `startGaming`. */
    method StartGaming(s: Start)
      requires Valid() && !gaming
      modifies this, sys, irq, tuner
      ensures Valid() && gaming && left == SessionTarget(old(sys.settings), s)
      ensures InGame(old(sys.settings), s, sys.settings)
    {
      InGameMeaning(sys.settings, s);
      ApplyIrqPhase(s);
      tuner.Apply(sys, s.paths, s.governor, s.faults);
      tuned := true;
      gaming := true;
    }

    /** The restores of `stopGaming`, in reverse phase order; `broken`: the restoring writes that fail. */
    method RestorePhases(broken: set<Key>)
      requires Valid() && gaming
      modifies sys, irq, tuner
      ensures sys.settings.Keys == left.Keys
      ensures forall k :: k in left ==> sys.settings[k] == if k in broken then old(sys.settings)[k] else left[k]
    {
      if tuned {
        tuner.Restore(sys, broken, between);
      }
      if irqApplied {
        MasksStillSaved(left, between, sys.settings, irq.saved);
        irq.RestoreOrReset(sys, broken, MasksFrom(left, sys.settings));
      }
    }

    /** Every setting whose restoring write works is what the session leaves; the others stay. */
    method StopGaming(broken: set<Key>)
      requires Valid()
      modifies this, sys, irq, tuner
      ensures Valid() && !gaming && sys.settings.Keys == old(left).Keys
      ensures old(gaming) ==> forall k :: k in old(left) ==>
        sys.settings[k] == if k in broken then old(sys.settings)[k] else old(left)[k]
      ensures !old(gaming) || broken == {} ==> sys.settings == old(left)
    {
      if !gaming {
        return;
      }
      RestorePhases(broken);
      assert broken == {} ==> sys.settings == left;
      left := sys.settings;
      gaming, irqApplied, tuned := false, false, false;
    }

    /**
     * A whole session, whatever fails while it starts: all settings are as found afterwards exactly when it
     * loses nothing.
     */
    method Session(s: Start)
      requires Valid() && !gaming
      modifies this, sys, irq, tuner
      ensures Valid() && !gaming && sys.settings == SessionTarget(old(sys.settings), s)
      ensures sys.settings == old(sys.settings) <==> NothingLost(old(sys.settings), s)
    {
      SessionTargetIsStart(sys.settings, s);
      StartGaming(s);
      StopGaming({});
    }

    /** One cycle of the daemon: stop when blocked or idle, start when a session is found. */
    method Cycle(blocked: bool, active: bool, s: Start)
      requires Valid()
      modifies this, sys, irq, tuner
      ensures Valid() && gaming == (!blocked && active)
      ensures left == if gaming && !old(gaming) then SessionTarget(old(sys.settings), s) else old(left)
      ensures !gaming ==> sys.settings == left
    {
      if blocked {
        if gaming {
          StopGaming({});
        }
        return;
      }
      if active && !gaming {
        StartGaming(s);
      } else if !active && gaming {
        StopGaming({});
      }
    }
  }
}
