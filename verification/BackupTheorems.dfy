/**
 Consequences over whole runs: what a restore gives back, when the gap is empty, which marks
 survive failures, what is forgotten until the next full backup, and which base an incremental has.
 */
module BackupTheorems {
  import opened RedisCommands
  import opened BackupProtocol
  import opened BackupAgreement

  // ----- Agreement after any run -----

  /** A later backup still has the key on its list, or its last change left no mark. */
  ghost predicate Outstanding(s: State, k: string) {
    Covered(s, k) || InRotated(s, k) || k in s.gap
  }

  lemma RestoredAgreesWithStore(start: State, steps: seq<Step>, k: string)
    requires Init(start) && ValidRun(start, steps) && IsExportedKey(k)
    ensures var s := Run(start, steps);
            s.archive.base.Some? && !Outstanding(s, k) ==> Agrees(s, Image(s), k)
  {
    InitHolds(start);
    RunKeeps(start, steps);
    assert KeyInv(Run(start, steps), k);
  }

  /**
   Whenever the cache would skip a mark, the mark it relies on is in a set a backup will read, with
   one exception for dirty marks: exactly the keys that a failed rotation renamed away since the
   last bump and that no SADD has put back.
   */
  lemma MarkCacheHidesNoWrite(start: State, steps: seq<Step>, k: string)
    requires Init(start) && ValidRun(start, steps) && IsExportedKey(k)
    ensures var s := Run(start, steps);
            && (IsMarked(s.track.dirtyMarks, s.track.gen, k) ==>
                  (k in s.track.liveDirty || (BeforeBump(s) && k in s.job.rotDirty) <==> k !in s.lost))
            && (IsMarked(s.track.deletedMarks, s.track.gen, k) ==>
                  k in s.track.liveDeleted || (BeforeBump(s) && k in s.job.rotDeleted))
  {
    InitHolds(start);
    RunKeeps(start, steps);
    assert KeyInv(Run(start, steps), k);
  }

  // ----- Only exported keys are ever written out -----

  predicate EntriesExported(es: seq<Entry>) {
    forall e :: e in es ==> IsExportedKey(e.key)
  }

  predicate OnlyExported(s: State) {
    && EntriesExported(s.job.entries)
    && (forall o :: o in s.archive.objects ==> EntriesExported(o.entries))
    && (s.job.reading.Some? ==> IsExportedKey(s.job.reading.value.key))
    && (s.job.phase == Dumping || s.job.phase == Tombstoning ==> forall k :: k in s.job.todo ==> IsExportedKey(k))
  }

  lemma StepExportsOnly(s: State, step: Step)
    requires OnlyExported(s) && Enabled(s, step)
    ensures OnlyExported(Do(s, step))
  {
    hide Execute, TouchedKeys, SilentKeys, AllPending, FullDue, IsExportedKey;
    if !IsExport(step) && step != Upload {
      var s' := Do(s, step);
      assert s'.archive.objects == s.archive.objects && s'.job.entries == s.job.entries;
    }
  }

  lemma {:induction false} RunExportsOnly(s: State, steps: seq<Step>)
    requires OnlyExported(s) && ValidRun(s, steps)
    ensures OnlyExported(Run(s, steps))
    decreases steps
  {
    if steps != [] {
      StepExportsOnly(s, steps[0]);
      RunExportsOnly(Do(s, steps[0]), steps[1..]);
    }
  }

  lemma {:induction false} AppliedKeys(s: Keyspace, es: seq<Entry>, k: string)
    requires EntriesExported(es) && !IsExportedKey(k) && k !in s
    ensures k !in ApplyEntries(s, es)
  {
    if es != [] { AppliedKeys(s, es[..|es| - 1], k); }
  }

  lemma {:induction false} RestoredKeys(objects: seq<BackupObject>, base: nat, k: string)
    requires (forall o :: o in objects ==> EntriesExported(o.entries)) && !IsExportedKey(k)
    ensures k !in Restored(objects, base)
  {
    if objects != [] {
      var before := objects[..|objects| - 1];
      RestoredKeys(before, base, k);
      AppliedKeys(Restored(before, base), objects[|objects| - 1].entries, k);
    }
  }

  // ----- Nothing pending: the restored keyspace is the exported store -----

  predicate Quiescent(s: State) {
    && s.job.phase == Idle && s.writers == map[]
    && s.track.liveDirty == {} && s.track.liveDeleted == {}
  }

  function ExportedPart(s: Keyspace): Keyspace {
    map k | k in s && IsExportedKey(k) :: s[k]
  }

  /** With no mark and no hook left, a restore differs from the store only on gap keys. */
  lemma RestoreEqualsStore(start: State, steps: seq<Step>)
    requires Init(start) && start.job.entries == [] && ValidRun(start, steps)
    ensures var s := Run(start, steps);
            s.archive.base.Some? && Quiescent(s) ==>
              (Image(s) == ExportedPart(s.store) <==> forall k :: k in s.gap && IsExportedKey(k) ==>
                  Agrees(s, Image(s), k))
  {
    var s := Run(start, steps);
    InitHolds(start);
    RunKeeps(start, steps);
    RunExportsOnly(start, steps);
    if s.archive.base.Some? && Quiescent(s) {
      var part := ExportedPart(s.store);
      if forall k :: k in s.gap && IsExportedKey(k) ==> Agrees(s, Image(s), k) {
        forall k ensures Get(Image(s), k) == Get(part, k) {
          if IsExportedKey(k) {
            assert KeyInv(s, k) && !Covered(s, k);
          } else {
            RestoredKeys(s.archive.objects, s.archive.base.value, k);
          }
        }
        SameLookups(Image(s), part);
      } else {
        var k :| k in s.gap && IsExportedKey(k) && !Agrees(s, Image(s), k);
        assert Get(part, k) == Get(s.store, k);
      }
    }
  }

  lemma SameLookups(a: Keyspace, b: Keyspace)
    requires forall k :: Get(a, k) == Get(b, k)
    ensures a == b
  {
    forall k ensures k in a <==> k in b {
      assert Get(a, k) == Get(b, k);
    }
    forall k | k in a ensures a[k] == b[k] {
      assert Get(a, k) == Get(b, k);
    }
  }

  // ----- When the gap is empty -----

  /** A step that drops no mark: the guard of each branch of the code that can drop one. */
  predicate Clean(s: State, step: Step)
    requires Enabled(s, step)
  {
    match step
    case Write(_, c) => SilentKeys(s.store, c) == {}
    case AddDirty(w, ok) => ok || s.writers[w].dirty == {}
    case AddDeleted(w, ok) => ok || s.writers[w].deleted == {}
    case RotationFails => s.job.rotDirty == {}
    case Requeue(ok) => ok || (s.job.rotDirty == {} && s.job.rotDeleted == {})
    case Finish(ok) => ok || !s.job.full || (s.job.rotDirty == {} && s.job.rotDeleted == {})
    case Crash => AllPending(s) == {} && s.job.rotDirty == {} && s.job.rotDeleted == {}
    case _ => true
  }

  predicate CleanRun(s: State, steps: seq<Step>)
    requires ValidRun(s, steps)
    decreases steps
  {
    steps == [] || (Clean(s, steps[0]) && CleanRun(Do(s, steps[0]), steps[1..]))
  }

  lemma {:induction false} CleanRunKeepsGap(s: State, steps: seq<Step>)
    requires ValidRun(s, steps) && CleanRun(s, steps)
    ensures s.gapNow == {} ==> Run(s, steps).gapNow == {}
    ensures s.gapNow == {} && s.gap == {} ==> Run(s, steps).gap == {}
    decreases steps
  {
    if steps != [] {
      CleanRunKeepsGap(Do(s, steps[0]), steps[1..]);
    }
  }

  /** In a run that drops no mark, a quiescent restore is exactly the exported store. */
  lemma CleanRunRestoresExactly(start: State, steps: seq<Step>)
    requires Init(start) && start.job.entries == [] && ValidRun(start, steps) && CleanRun(start, steps)
    ensures var s := Run(start, steps);
            s.archive.base.Some? && Quiescent(s) ==> Image(s) == ExportedPart(s.store)
  {
    CleanRunKeepsGap(start, steps);
    RestoreEqualsStore(start, steps);
  }

  /** Whatever went wrong before, a full backup finished after clean steps since its bump closes the gap. */
  lemma FullBackupClosesGap(s: State, steps: seq<Step>)
    requires s.gapNow == {} && ValidRun(s, steps) && CleanRun(s, steps)
    requires var t := Run(s, steps); Enabled(t, Finish(true)) && t.job.full
    ensures Do(Run(s, steps), Finish(true)).gap == {}
  {
    CleanRunKeepsGap(s, steps);
  }

  // ----- Marks survive failed exports and uploads -----

  function DirtyHeld(s: State): set<string> { s.track.liveDirty + s.job.rotDirty }

  function DeletedHeld(s: State): set<string> { s.track.liveDeleted + s.job.rotDeleted }

  /** The only steps that can let go of a held mark, and when they do not. */
  predicate KeepsMarks(s: State, step: Step)
    requires Enabled(s, step)
  {
    match step
    case RotationFails => s.job.rotDirty <= s.track.liveDirty
    case Requeue(ok) => ok || (s.job.rotDirty <= s.track.liveDirty && s.job.rotDeleted <= s.track.liveDeleted)
    case Finish(_) => s.job.rotDirty <= s.track.liveDirty && s.job.rotDeleted <= s.track.liveDeleted
    case Crash => s.job.rotDirty <= s.track.liveDirty && s.job.rotDeleted <= s.track.liveDeleted
    case _ => true
  }

  predicate KeepsMarksAll(s: State, steps: seq<Step>)
    requires ValidRun(s, steps)
    decreases steps
  {
    steps == [] || (KeepsMarks(s, steps[0]) && KeepsMarksAll(Do(s, steps[0]), steps[1..]))
  }

  lemma KeepsMarksExactly(s: State, step: Step)
    requires Inv(s) && Enabled(s, step)
    ensures KeepsMarks(s, step) <==>
            DirtyHeld(s) <= DirtyHeld(Do(s, step)) && DeletedHeld(s) <= DeletedHeld(Do(s, step))
  {
    hide Execute, TouchedKeys, SilentKeys, Image, Target, KeyInv;
    assert RotationShape(s);
  }

  /** Any number of runs that requeue lose no mark, whatever the writers, their hooks and the exports do. */
  lemma {:induction false} FailedRunsKeepMarks(s: State, steps: seq<Step>)
    requires Inv(s) && ValidRun(s, steps) && KeepsMarksAll(s, steps)
    ensures DirtyHeld(s) <= DirtyHeld(Run(s, steps)) && DeletedHeld(s) <= DeletedHeld(Run(s, steps))
    decreases steps
  {
    if steps != [] {
      StepKeeps(s, steps[0]);
      KeepsMarksExactly(s, steps[0]);
      FailedRunsKeepMarks(Do(s, steps[0]), steps[1..]);
    }
  }

  /** The backup that is ready for upload has the key's value; an incremental has an entry for it. */
  predicate InBackup(s: State, k: string) {
    Agrees(s, Target(s), k) && (!s.job.full ==> k in EntryKeys(s.job.entries))
  }

  /**
   The next backup covers the union: a key marked at any time before, by whichever run it was
   requeued, is in the backup with its present value, or it was marked again or waits for a hook
   (or its mark was dropped after the bump). An emptied set or hash needs a deleted mark for that.
   */
  lemma NextBackupCoversHeld(s: State, steps: seq<Step>, k: string)
    requires Inv(s) && ValidRun(s, steps) && KeepsMarksAll(s, steps) && IsExportedKey(k)
    requires ExportDone(Run(s, steps))
    ensures var u := Run(s, steps);
            && (k in DirtyHeld(s) && k in u.store ==> Covered(u, k) || k in u.gapNow || InBackup(u, k))
            && (k in DeletedHeld(s) && k !in u.store ==> Covered(u, k) || k in u.gapNow || u.job.full || InBackup(u, k))
            && (u.job.full ==> Covered(u, k) || k in u.gapNow || InBackup(u, k))
            && (!u.job.full ==> Image(Do(u, Upload)) == Target(u))
  {
    FailedRunsKeepMarks(s, steps);
    RunKeeps(s, steps);
    var u := Run(s, steps);
    assert KeyInv(u, k);
    UploadImage(u);
  }

  // ----- What is forgotten stays forgotten until a full backup -----

  /** Neither a tracking set nor a hook will lead a later backup to the key as it is now. */
  ghost predicate NoMarkFor(s: State, k: string) {
    !Covered(s, k) && !InRotated(s, k)
  }

  predicate NotBeingExported(s: State, k: string) {
    s.job.full || !(s.job.phase == Dumping || s.job.phase == Tombstoning) ||
    (&& (s.job.phase == Dumping && k in s.store ==> k !in s.job.todo && !BeingRead(s, k))
     && (s.job.phase == Tombstoning && k !in s.store ==> k !in s.job.todo)
     && Get(Target(s), k) == Get(Image(s), k))
  }

  /** The restored value is wrong and nothing will lead an incremental backup to the key. */
  ghost predicate Forgotten(s: State, k: string) {
    s.archive.base.Some? && !Agrees(s, Image(s), k) && NoMarkFor(s, k) && NotBeingExported(s, k)
  }

  predicate SameAt(s: State, s': State, k: string) {
    Get(s'.store, k) == Get(s.store, k) && Get(Image(s'), k) == Get(Image(s), k)
  }

  predicate LeavesAlone(s: State, step: Step, k: string)
    requires Enabled(s, step)
  {
    match step
    case Write(_, c) =>
      k !in TouchedKeys(c).dirty && k !in TouchedKeys(c).deleted && Get(Execute(s.store, c).after, k) == Get(s.store, k)
    case Finish(ok) => !(ok && s.job.full)
    case _ => true
  }

  predicate LeavesAloneAll(s: State, steps: seq<Step>, k: string)
    requires ValidRun(s, steps)
    decreases steps
  {
    steps == [] || (LeavesAlone(s, steps[0], k) && LeavesAloneAll(Do(s, steps[0]), steps[1..], k))
  }

  lemma HookAddsNoPending(s: State, step: Step, k: string)
    requires Enabled(s, step) && LeavesAlone(s, step, k) && IsHook(step)
    ensures PendingDirty(Do(s, step), k) ==> PendingDirty(s, k)
    ensures PendingDeleted(Do(s, step), k) ==> PendingDeleted(s, k)
  {
    var s' := Do(s, step);
    OthersPend(s', s, step.w, k);
    assert PendsDirty(s', step.w, k) ==> PendsDirty(s, step.w, k);
    assert PendsDeleted(s', step.w, k) ==> PendsDeleted(s, step.w, k);
  }

  lemma HookForgets(s: State, step: Step, k: string)
    requires Forgotten(s, k) && Enabled(s, step) && LeavesAlone(s, step, k) && IsHook(step)
    ensures Forgotten(Do(s, step), k) && SameAt(s, Do(s, step), k)
  {
    var s' := Do(s, step);
    assert s'.archive == s.archive && Get(s'.store, k) == Get(s.store, k);
    assert Image(s') == Image(s) && Target(s') == Target(s);
    assert k in s'.store <==> k in s.store;
    HookAddsNoPending(s, step, k);
    assert k in s'.track.liveDirty ==> k in s.track.liveDirty || PendsDirty(s, step.w, k);
    assert k in s'.track.liveDeleted ==> k in s.track.liveDeleted || PendsDeleted(s, step.w, k);
    assert NoMarkFor(s', k);
    assert NotBeingExported(s', k);
  }

  lemma ExportForgets(s: State, step: Step, k: string)
    requires Forgotten(s, k) && Enabled(s, step) && IsExport(step)
    ensures Forgotten(Do(s, step), k) && SameAt(s, Do(s, step), k)
  {
    var s' := Do(s, step);
    assert s'.archive == s.archive && s'.store == s.store && Image(s') == Image(s);
    SamePending(s', s, k);
    if |s'.job.entries| == |s.job.entries| + 1 && step != BeginExport {
      AppendEntry(if s.job.full then map[] else Image(s), s.job.entries, s'.job.entries[|s.job.entries|]);
    }
    assert NotBeingExported(s', k);
  }

  lemma RunForgets(s: State, step: Step, k: string)
    requires Inv(s) && Forgotten(s, k) && Enabled(s, step) && LeavesAlone(s, step, k) && !IsHook(step) &&
              !IsExport(step)
    ensures Forgotten(Do(s, step), k) && SameAt(s, Do(s, step), k)
  {
    var s' := Do(s, step);
    if step == Upload { UploadImage(s); } else { JobStepFrame(s, step); }
    assert s'.store == s.store;
    if step != Crash { SamePending(s', s, k); }
    assert NoMarkFor(s', k);
    assert s'.archive.base == s.archive.base;
    assert Get(Image(s'), k) == Get(Image(s), k);
  }

  lemma StepForgets(s: State, step: Step, k: string)
    requires Inv(s) && Forgotten(s, k) && Enabled(s, step) && LeavesAlone(s, step, k)
    ensures Forgotten(Do(s, step), k) && SameAt(s, Do(s, step), k)
  {
    if IsHook(step) { HookForgets(s, step, k); }
    else if IsExport(step) { ExportForgets(s, step, k); }
    else { RunForgets(s, step, k); }
  }

  /** Over any run that neither touches the key again nor finishes a full backup, the restored value
      stays the wrong one. */
  lemma {:induction false} ForgottenUntilFull(s: State, steps: seq<Step>, k: string)
    requires Inv(s) && Forgotten(s, k) && ValidRun(s, steps) && LeavesAloneAll(s, steps, k)
    ensures Forgotten(Run(s, steps), k) && SameAt(s, Run(s, steps), k)
    decreases steps
  {
    if steps != [] {
      StepForgets(s, steps[0], k);
      StepKeeps(s, steps[0]);
      ForgottenUntilFull(Do(s, steps[0]), steps[1..], k);
    }
  }

  /** From a quiescent state, one command leaves a key forgotten exactly when it changes it silently. */
  lemma SilentChangeExact(s: State, w: nat, c: Command, k: string)
    requires Inv(s) && Quiescent(s) && s.archive.base.Some? && IsExportedKey(k) && Agrees(s, Image(s), k)
    requires Enabled(s, Write(w, c))
    ensures Forgotten(Do(s, Write(w, c)), k) <==> k in SilentKeys(s.store, c)
  {
    var s' := Do(s, Write(w, c));
    SilentKeysExact(s.store, c, k);
    assert s'.writers[w].dirty == TouchedKeys(c).dirty && s'.writers[w].deleted == TouchedKeys(c).deleted;
    assert forall v :: v in s'.writers <==> v == w;
    assert PendsDirty(s', w, k) <==> k in TouchedKeys(c).dirty;
    assert PendsDeleted(s', w, k) <==> k in TouchedKeys(c).deleted;
    assert Image(s') == Image(s);
  }

  // ----- What a failed rotation does -----

  /**
   A failed rotation newly forgets exactly the changed keys that it renamed away, that are not
   marked again, and that no hook is about to mark; it leaves the cache calling them marked.
   */
  lemma FailedRotationExact(s: State, k: string)
    requires Inv(s) && Enabled(s, RotationFails) && s.archive.base.Some?
    ensures var s' := Do(s, RotationFails);
            && (NoMarkFor(s', k) && !NoMarkFor(s, k) <==>
                  k in s.store && k in s.job.rotDirty && k !in s.track.liveDirty && !PendingDirty(s, k))
            && (Forgotten(s', k) && !Forgotten(s, k) <==>
                  !Agrees(s, Image(s), k) && k in s.store && k in s.job.rotDirty && k !in s.track.liveDirty &&
                      !PendingDirty(s, k))
            && s'.track == s.track
  {
    var s' := Do(s, RotationFails);
    assert Image(s') == Image(s);
    SamePending(s, s', k);
    SamePending(s', s, k);
  }

  /** The cache calls the key marked although no set holds it and no hook is about to add it. */
  predicate Stranded(s: State, k: string) {
    && IsMarked(s.track.dirtyMarks, s.track.gen, k)
    && k !in s.track.liveDirty && k !in s.job.rotDirty
    && forall w :: w in s.writers && s.writers[w].stage == Checked ==> k !in s.writers[w].dirty
  }

  /** In a reachable state these are the marked keys a failed rotation has lost, none waiting for its SADD. */
  lemma StrandedExactly(start: State, steps: seq<Step>, k: string)
    requires Init(start) && ValidRun(start, steps) && IsExportedKey(k)
    ensures var s := Run(start, steps);
            IsMarked(s.track.dirtyMarks, s.track.gen, k) && BeforeBump(s) ==>
              (Stranded(s, k) <==> k in s.lost && forall w :: AtStage(s, w, Checked) ==> k !in s.writers[w].dirty)
  {
    MarkCacheHidesNoWrite(start, steps, k);
  }

  predicate KeepsStranded(step: Step) {
    step != BumpGeneration && step != Crash
  }

  /** Only the next bump or a restart ends it: until then not even a write of the key with its whole hook does. */
  lemma StepKeepsStranded(s: State, step: Step, k: string)
    requires Stranded(s, k) && Enabled(s, step) && KeepsStranded(step)
    ensures Stranded(Do(s, step), k)
    ensures BeforeBump(s) ==> BeforeBump(Do(s, step)) && Image(Do(s, step)) == Image(s)
  {
    hide Execute, TouchedKeys, SilentKeys, Restored, ApplyEntries, AllPending, FullDue, IsExportedKey;
  }

  lemma {:induction false} StrandedUntilBump(s: State, steps: seq<Step>, k: string)
    requires Stranded(s, k) && BeforeBump(s) && ValidRun(s, steps)
    requires forall i :: 0 <= i < |steps| ==> KeepsStranded(steps[i])
    ensures Stranded(Run(s, steps), k) && BeforeBump(Run(s, steps)) && Image(Run(s, steps)) == Image(s)
    decreases steps
  {
    if steps != [] {
      StepKeepsStranded(s, steps[0], k);
      assert forall i :: 0 <= i < |steps[1..]| ==> steps[1..][i] == steps[i + 1];
      StrandedUntilBump(Do(s, steps[0]), steps[1..], k);
    }
  }

  /**
   The next incremental misses the write: a stranded key is written any number of times, the next
   run reaches its bump with no hook of the key under way, and from there on the restored value is
   the one from before, through that backup's upload and finish, until the key is written again or
   a full backup finishes.
   */
  lemma NextIncrementalMisses(s: State, before: seq<Step>, after: seq<Step>, k: string)
    requires Inv(s) && Stranded(s, k) && BeforeBump(s) && s.archive.base.Some? && ValidRun(s, before)
    requires forall i :: 0 <= i < |before| ==> KeepsStranded(before[i])
    requires Enabled(Run(s, before), BumpGeneration) && !PendingDirty(Run(s, before), k)
    requires k in Run(s, before).store && Get(Run(s, before).store, k) != Get(Image(s), k)
    requires var t := Do(Run(s, before), BumpGeneration); ValidRun(t, after) && LeavesAloneAll(t, after, k)
    ensures var end := Run(Do(Run(s, before), BumpGeneration), after);
            Forgotten(end, k) && Get(Image(end), k) != Get(end.store, k)
  {
    StrandedUntilBump(s, before, k);
    RunKeeps(s, before);
    var m := Run(s, before);
    var t := Do(m, BumpGeneration);
    StepKeeps(m, BumpGeneration);
    BaseStays(s, before);
    SamePending(t, m, k);
    assert Image(t) == Image(m);
    ForgottenUntilFull(t, after, k);
  }

  lemma {:induction false} BaseStays(s: State, steps: seq<Step>)
    requires BeforeBump(s) && ValidRun(s, steps) && forall i :: 0 <= i < |steps| ==> KeepsStranded(steps[i])
    ensures Run(s, steps).archive == s.archive
    decreases steps
  {
    if steps != [] {
      assert forall i :: 0 <= i < |steps[1..]| ==> steps[1..][i] == steps[i + 1];
      BaseStays(Do(s, steps[0]), steps[1..]);
    }
  }

  // ----- Which base an incremental is built on -----

  predicate ClockMonotone(s: State, step: Step) {
    step.StartRun? ==> step.at >= s.now
  }

  predicate ClockMonotoneAll(s: State, steps: seq<Step>)
    requires ValidRun(s, steps)
    decreases steps
  {
    steps == [] || (ClockMonotone(s, steps[0]) && ClockMonotoneAll(Do(s, steps[0]), steps[1..]))
  }

  predicate NewestFull(objects: seq<BackupObject>, end: nat, base: Option<nat>)
    requires end <= |objects|
  {
    base.Some? &&
    (exists j :: 0 <= j < end && objects[j].full && objects[j].id == base.value) &&
    (forall j :: 0 <= j < end && objects[j].full ==> objects[j].id <= base.value)
  }

  predicate BasesNewest(objects: seq<BackupObject>) {
    && (forall i, j :: 0 <= i < j < |objects| ==> objects[i].id < objects[j].id)
    && (forall i :: 0 <= i < |objects| && objects[i].full ==> objects[i].base == Some(objects[i].id))
    && (forall i :: 0 <= i < |objects| && !objects[i].full ==> NewestFull(objects, i, objects[i].base))
  }

  ghost predicate BaseInv(s: State) {
    && BasesNewest(s.archive.objects)
    && (s.archive.base.Some? ==>
          exists j :: 0 <= j < |s.archive.objects| && s.archive.objects[j].full &&
                      s.archive.objects[j].id == s.archive.base.value)
    && (s.job.phase == Uploaded ==>
        |s.archive.objects| > 0 && s.archive.objects[|s.archive.objects| - 1] == ThisObject(s))
    && (s.job.phase != Idle && s.job.full ==> FullDue(s, s.now))
    && (s.job.phase != Idle ==> s.job.startedAt == s.now)
    && (FullDue(s, s.now) || NewestFull(s.archive.objects, |s.archive.objects|, s.archive.base))
    && (s.job.phase != Idle && !s.job.full ==> NewestFull(s.archive.objects, |s.archive.objects|, s.archive.base))
  }

  lemma NewestFullStable(objects: seq<BackupObject>, o: BackupObject, end: nat, base: Option<nat>)
    requires end <= |objects| && NewestFull(objects, end, base)
    ensures NewestFull(objects + [o], end, base)
  {
    var j :| 0 <= j < end && objects[j].full && objects[j].id == base.value;
    assert (objects + [o])[j] == objects[j];
  }

  lemma BasesAfterUpload(objects: seq<BackupObject>, o: BackupObject)
    requires BasesNewest(objects) && (forall i :: 0 <= i < |objects| ==> objects[i].id < o.id)
    requires if o.full then o.base == Some(o.id) else NewestFull(objects, |objects|, o.base)
    ensures BasesNewest(objects + [o])
  {
    var all := objects + [o];
    forall i | 0 <= i < |all| && !all[i].full ensures NewestFull(all, i, all[i].base) {
      NewestFullStable(objects, o, i, all[i].base);
    }
  }

  lemma NewestWithUpload(objects: seq<BackupObject>, o: BackupObject)
    requires !o.full && NewestFull(objects, |objects|, o.base)
    ensures NewestFull(objects + [o], |objects| + 1, o.base)
  {
    var j :| 0 <= j < |objects| && objects[j].full && objects[j].id == o.base.value;
    assert (objects + [o])[j] == objects[j];
  }

  lemma BaseSurvives(objects: seq<BackupObject>, o: BackupObject, id: nat)
    requires exists j :: 0 <= j < |objects| && objects[j].full && objects[j].id == id
    ensures exists j :: 0 <= j < |objects + [o]| && (objects + [o])[j].full && (objects + [o])[j].id == id
  {
    var j :| 0 <= j < |objects| && objects[j].full && objects[j].id == id;
    assert (objects + [o])[j] == objects[j];
  }

  lemma EarlierIds(s: State)
    requires Inv(s) && Enabled(s, Upload)
    ensures forall i :: 0 <= i < |s.archive.objects| ==> s.archive.objects[i].id < s.job.run
  {
    forall i | 0 <= i < |s.archive.objects|
      ensures s.archive.objects[i].id < s.job.run
    {
      assert s.archive.objects[i] in s.archive.objects;
    }
  }

  lemma UploadBase(s: State)
    requires Inv(s) && BaseInv(s) && Enabled(s, Upload)
    ensures BaseInv(Do(s, Upload))
  {
    hide Inv;
    var o := ThisObject(s);
    var objects := s.archive.objects;
    EarlierIds(s);
    if !o.full { NewestWithUpload(objects, o); }
    BasesAfterUpload(objects, o);
    if s.archive.base.Some? { BaseSurvives(objects, o, s.archive.base.value); }
    assert Do(s, Upload) == DoUpload(s);
    hide Do, Enabled, BasesNewest, NewestFull;
  }

  lemma FinishBase(s: State, ok: bool)
    requires Inv(s) && BaseInv(s) && Enabled(s, Finish(ok))
    ensures BaseInv(Do(s, Finish(ok)))
  {
    var objects := s.archive.objects;
    var last := |objects| - 1;
    if s.job.full && ok {
      assert objects[last].full && objects[last].id == s.job.run;
      forall j | 0 <= j < |objects| && objects[j].full ensures objects[j].id <= s.job.run {
        assert objects[j] in objects;
      }
      assert NewestFull(objects, |objects|, Some(s.job.run));
    }
  }

  lemma SameArchive(s: State, step: Step)
    requires Enabled(s, step) && step != Upload && !step.Finish?
    ensures var s' := Do(s, step);
            && s'.archive == s.archive && s'.interval == s.interval
            && (if step.StartRun? then s'.now == step.at && s'.job.phase == Started && s'.job.startedAt == step.at
                                       && s'.job.full == FullDue(s, step.at)
                else && s'.now == s.now && (s'.job.phase == Uploaded ==> s'.job == s.job)
                     && (s'.job.phase != Idle ==>
                         s.job.phase != Idle && s'.job.full == s.job.full && s'.job.startedAt == s.job.startedAt))
  {
    hide Execute, TouchedKeys, SilentKeys, AllPending, FullDue;
  }

  lemma SameArchiveBase(s: State, step: Step)
    requires BaseInv(s) && Enabled(s, step) && ClockMonotone(s, step) && step != Upload && !step.Finish?
    ensures BaseInv(Do(s, step))
  {
    SameArchive(s, step);
    hide Do, Enabled, BasesNewest, NewestFull;
  }

  lemma StepBase(s: State, step: Step)
    requires Inv(s) && BaseInv(s) && Enabled(s, step) && ClockMonotone(s, step)
    ensures BaseInv(Do(s, step))
  {
    match step
    case Upload => UploadBase(s);
    case Finish(ok) => FinishBase(s, ok);
    case _ => SameArchiveBase(s, step);
  }

  /** With a clock that never goes back, every incremental is built on the newest full backup
      uploaded before it, finished or not. */
  lemma {:induction false} IncrementalsHaveNewestBase(s: State, steps: seq<Step>)
    requires Inv(s) && BaseInv(s) && ValidRun(s, steps) && ClockMonotoneAll(s, steps)
    ensures BasesNewest(Run(s, steps).archive.objects)
    decreases steps
  {
    if steps != [] {
      StepBase(s, steps[0]);
      StepKeeps(s, steps[0]);
      IncrementalsHaveNewestBase(Do(s, steps[0]), steps[1..]);
    }
  }

  lemma NewestBaseFromStart(start: State, steps: seq<Step>)
    requires Init(start) && ValidRun(start, steps) && ClockMonotoneAll(start, steps)
    ensures BasesNewest(Run(start, steps).archive.objects)
  {
    InitHolds(start);
    IncrementalsHaveNewestBase(start, steps);
  }

  // ----- Which kind of backup a run makes -----

  lemma {:induction false} RunLast(start: State, steps: seq<Step>)
    requires steps != [] && ValidRun(start, steps)
    ensures var init := steps[..|steps| - 1];
            && ValidRun(start, init) && Enabled(Run(start, init), steps[|steps| - 1])
            && Run(start, steps) == Do(Run(start, init), steps[|steps| - 1])
    decreases |steps|
  {
    if |steps| == 1 {
      assert steps[..0] == [] && steps[1..] == [];
      assert Run(start, steps) == Run(Do(start, steps[0]), []);
    } else {
      RunLast(Do(start, steps[0]), steps[1..]);
      var init := steps[..|steps| - 1];
      assert steps[1..][..|steps| - 2] == init[1..];
      assert init[0] == steps[0] && steps[1..][|steps| - 2] == steps[|steps| - 1];
      assert ValidRun(start, init) && Run(start, init) == Run(Do(start, steps[0]), init[1..]);
    }
  }

  /** When the newest run began. */
  function LastStart(steps: seq<Step>): int {
    if steps == [] then 0
    else if steps[|steps| - 1].StartRun? then steps[|steps| - 1].at
    else LastStart(steps[..|steps| - 1])
  }

  /** When the run began whose full backup was the last to finish. */
  function LastFullStart(start: State, steps: seq<Step>): Option<int>
    requires ValidRun(start, steps)
  {
    if steps == [] then None
    else
      RunLast(start, steps);
      var init := steps[..|steps| - 1];
      if steps[|steps| - 1] == Finish(true) && Run(start, init).job.full then Some(LastStart(init))
      else LastFullStart(start, init)
  }

  lemma StepTimes(s: State, step: Step)
    requires Enabled(s, step)
    ensures var s' := Do(s, step);
            && s'.interval == s.interval
            && (if step == Finish(true) && s.job.full then s'.archive.base.Some? && s'.archive.baseAt == s.job.startedAt
                else s'.archive.base == s.archive.base && s'.archive.baseAt == s.archive.baseAt)
            && (step == Finish(true) ==> s.job.phase != Idle)
            && (s'.job.phase != Idle ==>
                  if step.StartRun? then s'.job.startedAt == step.at
                  else s.job.phase != Idle && s'.job.startedAt == s.job.startedAt)
  {
    hide Execute, TouchedKeys, SilentKeys, AllPending, FullDue;
  }

  lemma {:induction false} BaseTimes(start: State, steps: seq<Step>)
    requires Init(start) && ValidRun(start, steps)
    ensures var s := Run(start, steps);
            && (LastFullStart(start, steps) == if s.archive.base == None then None else Some(s.archive.baseAt))
            && (s.job.phase != Idle ==> s.job.startedAt == LastStart(steps)) && s.interval == start.interval
    decreases |steps|
  {
    if steps != [] {
      RunLast(start, steps);
      hide Run, ValidRun, Do, Enabled;
      BaseTimes(start, steps[..|steps| - 1]);
      StepTimes(Run(start, steps[..|steps| - 1]), steps[|steps| - 1]);
    }
  }

  /** A run makes an incremental exactly when a full backup has finished before, the interval is
      positive, and less than the interval has passed since that backup began. */
  lemma BackupKindExactly(start: State, steps: seq<Step>, at: int)
    requires Init(start) && ValidRun(start, steps) && Enabled(Run(start, steps), StartRun(at))
    ensures !Do(Run(start, steps), StartRun(at)).job.full <==>
              match LastFullStart(start, steps)
              case None => false
              case Some(began) => start.interval > 0 && at < began + start.interval
  {
    BaseTimes(start, steps);
  }
}
