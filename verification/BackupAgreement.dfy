/**
 What every interleaving keeps: outside the keys still marked, waiting in a hook or in the gap,
 the image restored from object storage agrees with the store.
 */
module BackupAgreement {
  import opened RedisCommands
  import opened BackupProtocol

  // ----- Coverage of one key -----

  predicate PendsDirty(s: State, w: nat, k: string) {
    w in s.writers && (s.writers[w].stage == Applying || s.writers[w].stage == Checked) && k in s.writers[w].dirty
  }

  predicate PendsDeleted(s: State, w: nat, k: string) {
    w in s.writers && s.writers[w].stage != DeletedAdded && k in s.writers[w].deleted
  }

  ghost predicate PendingDirty(s: State, k: string) {
    exists w :: PendsDirty(s, w, k)
  }

  ghost predicate PendingDeleted(s: State, k: string) {
    exists w :: PendsDeleted(s, w, k)
  }

  /** A later backup will look at the key again: a present key needs a dirty mark, an absent one a deleted mark. */
  ghost predicate Covered(s: State, k: string) {
    if k in s.store then k in s.track.liveDirty || PendingDirty(s, k)
    else k in s.track.liveDeleted || PendingDeleted(s, k)
  }

  function Image(s: State): Keyspace {
    if s.archive.base.Some? then Restored(s.archive.objects, s.archive.base.value) else map[]
  }

  /** What the export under way will have added once it is uploaded. */
  function Target(s: State): Keyspace {
    ApplyEntries(if s.job.full then map[] else Image(s), s.job.entries)
  }

  predicate Agrees(s: State, image: Keyspace, k: string) {
    Get(image, k) == Get(s.store, k)
  }

  // ----- The invariant, key by key -----

  predicate BeforeBump(s: State) {
    s.job.phase.Idle? || s.job.phase.Started? || s.job.phase.DirtyRotated? || s.job.phase.DeletedRotated?
  }

  predicate DirtyKept(s: State, k: string) {
    k in s.track.liveDirty || (BeforeBump(s) && (k in s.job.rotDirty || k in s.lost))
  }

  predicate DeletedKept(s: State, k: string) {
    k in s.track.liveDeleted || (BeforeBump(s) && k in s.job.rotDeleted)
  }

  /** The mark cache hides no write, now or when a hook under way records its marks. */
  ghost predicate CacheSound(s: State, k: string) {
    && (IsMarked(s.track.dirtyMarks, s.track.gen, k) ==> DirtyKept(s, k))
    && (IsMarked(s.track.deletedMarks, s.track.gen, k) ==> DeletedKept(s, k))
    && (forall w :: w in s.writers && s.writers[w].gen == s.track.gen ==>
          && (s.writers[w].stage.DirtyAdded? || s.writers[w].stage.DeletedAdded? ==> k in s.writers[w].dirty ==>
              DirtyKept(s, k))
          && (s.writers[w].stage.DeletedAdded? ==> k in s.writers[w].deleted ==> DeletedKept(s, k)))
  }

  predicate RotatedCounts(s: State) {
    s.job.phase != Uploaded || s.job.full
  }

  ghost predicate ImageSound(s: State, k: string) {
    s.archive.base.Some? ==>
      Covered(s, k) || (RotatedCounts(s) && InRotated(s, k)) || k in s.gap || Agrees(s, Image(s), k)
  }

  /** A dropped mark excuses the export, before the bump only if the key was not marked otherwise. */
  predicate RunGap(s: State, k: string) {
    k in s.gapNow || (!s.job.full && k in s.gap && !InRotated(s, k))
  }

  function EntryKeys(es: seq<Entry>): set<string> {
    set e | e in es :: e.key
  }

  /** The export has the key's value, and an incremental has it for a key that was marked. */
  predicate Exported(s: State, k: string) {
    Agrees(s, Target(s), k) && (!s.job.full && InRotated(s, k) ==> k in EntryKeys(s.job.entries))
  }

  predicate StillToExport(s: State, k: string) {
    if s.job.phase == Dumping then
      if k in s.store then k in s.job.todo else !s.job.full && k in s.job.rotDeleted
    else s.job.phase == Tombstoning && k !in s.store && k in s.job.todo
  }

  predicate BeingRead(s: State, k: string) {
    s.job.reading.Some? && s.job.reading.value.key == k && k in s.store
  }

  predicate ExportUnderWay(s: State) {
    s.job.phase == Dumping || s.job.phase == Tombstoning || (s.job.phase == Uploaded && s.job.full)
  }

  ghost predicate ExportSound(s: State, k: string) {
    ExportUnderWay(s) ==>
      && (Covered(s, k) || RunGap(s, k) || StillToExport(s, k) || BeingRead(s, k) || Exported(s, k))
      && (BeingRead(s, k) ==> Covered(s, k) || k in s.gapNow || s.job.reading.value.value == Some(s.store[k]))
  }

  ghost predicate KeyInv(s: State, k: string) {
    CacheSound(s, k) && ImageSound(s, k) && ExportSound(s, k)
  }

  predicate HooksShape(s: State) {
    && s.gapNow <= s.gap
    && s.lost <= s.gap && s.lost !! s.track.liveDirty && s.lost !! s.job.rotDirty && (!BeforeBump(s) ==> s.lost == {})
    && (forall w :: w in s.writers ==> s.writers[w].gen <= s.track.gen)
  }

  predicate RotationShape(s: State) {
    && (s.job.phase == Idle || s.job.phase == Started ==> s.job.rotDirty == {} && s.job.rotDeleted == {})
    && (s.job.phase == DirtyRotated ==> s.job.rotDeleted == {})
    && (s.job.phase != Dumping ==> s.job.reading == None)
    && (s.job.phase == Uploaded ==> s.job.todo == {})
    && (s.job.phase != Idle && !s.job.full ==> s.archive.base.Some?)
  }

  predicate ObjectsShape(s: State) {
    && (forall o :: o in s.archive.objects ==> o.id <= s.job.run && o.base.Some? && o.base.value <= o.id)
    && (s.archive.base.Some? ==> s.archive.base.value <= s.job.run)
    && (s.job.phase != Idle && s.job.phase != Uploaded ==> forall o :: o in s.archive.objects ==> o.id < s.job.run)
    && (s.job.phase != Idle && s.archive.base.Some? ==> s.archive.base.value < s.job.run)
    && (s.job.phase == Uploaded && s.job.full ==> Restored(s.archive.objects, s.job.run) == Target(s))
  }

  predicate Shape(s: State) {
    HooksShape(s) && RotationShape(s) && ObjectsShape(s)
  }

  ghost predicate Inv(s: State) {
    Shape(s) && forall k :: IsExportedKey(k) ==> KeyInv(s, k)
  }

  // ----- Lemmas about restoring -----

  lemma AppendEntry(s: Keyspace, es: seq<Entry>, e: Entry)
    ensures ApplyEntries(s, es + [e]) == ApplyEntry(ApplyEntries(s, es), e)
  {
    assert (es + [e])[..|es|] == es;
  }

  lemma AppendObject(objects: seq<BackupObject>, o: BackupObject, base: nat)
    ensures Restored(objects + [o], base) ==
            if o.base == Some(base) then ApplyEntries(Restored(objects, base), o.entries) else Restored(objects, base)
  {
    assert (objects + [o])[..|objects|] == objects;
  }

  lemma {:induction false} NothingBuiltOn(objects: seq<BackupObject>, base: nat)
    requires forall i :: 0 <= i < |objects| ==> objects[i].base != Some(base)
    ensures Restored(objects, base) == map[]
  {
    if objects != [] { NothingBuiltOn(objects[..|objects| - 1], base); }
  }

  // ----- Each step keeps the invariant -----

  lemma InitHolds(s: State)
    requires Init(s)
    ensures Inv(s)
  {
  }

  /** Moving one writer leaves what the others still have to mark. */
  lemma OthersPend(s: State, s': State, w: nat, k: string)
    requires forall v :: v in s.writers && v != w ==> v in s'.writers && s'.writers[v] == s.writers[v]
    ensures PendingDirty(s, k) ==> PendsDirty(s, w, k) || PendingDirty(s', k)
    ensures PendingDeleted(s, k) ==> PendsDeleted(s, w, k) || PendingDeleted(s', k)
  {
    if v :| PendsDirty(s, v, k) && v != w { assert PendsDirty(s', v, k); }
    if v :| PendsDeleted(s, v, k) && v != w { assert PendsDeleted(s', v, k); }
  }

  lemma SamePending(s: State, s': State, k: string)
    requires s.writers == s'.writers
    ensures PendingDirty(s, k) ==> PendingDirty(s', k)
    ensures PendingDeleted(s, k) ==> PendingDeleted(s', k)
  {
    if v :| PendsDirty(s, v, k) { assert PendsDirty(s', v, k); }
    if v :| PendsDeleted(s, v, k) { assert PendsDeleted(s', v, k); }
  }

  /** What a write does to coverage: a key it changed is covered or in the gap. */
  lemma WriteCovers(s: State, w: nat, c: Command, k: string)
    requires Enabled(s, Write(w, c)) && IsExportedKey(k)
    ensures var s' := Do(s, Write(w, c));
            if Get(s.store, k) == Get(s'.store, k) then Covered(s, k) ==> Covered(s', k)
            else Covered(s', k) || k in SilentKeys(s.store, c)
  {
    var s' := Do(s, Write(w, c));
    OthersPend(s, s', w, k);
    SilentKeysExact(s.store, c, k);
    assert k in s'.writers[w].dirty ==> PendsDirty(s', w, k);
    assert k in s'.writers[w].deleted ==> PendsDeleted(s', w, k);
  }

  lemma WriteKey(s: State, w: nat, c: Command, k: string)
    requires Inv(s) && Enabled(s, Write(w, c)) && IsExportedKey(k)
    ensures KeyInv(Do(s, Write(w, c)), k)
  {
    var s' := Do(s, Write(w, c));
    assert KeyInv(s, k);
    WriteCovers(s, w, c, k);
    assert Covered(s', k) || k in s'.gapNow || (Covered(s, k) == Covered(s', k) && Get(s.store, k) == Get(s'.store, k));
    var silent := SilentKeys(s.store, c);
    assert s'.gap == s.gap + silent && s'.gapNow == s.gapNow + silent;
    assert CacheSound(s', k);
    assert ImageSound(s', k);
    assert ExportSound(s', k);
  }

  lemma CheckKey(s: State, w: nat, k: string)
    requires Inv(s) && Enabled(s, CheckMarks(w)) && IsExportedKey(k)
    ensures KeyInv(Do(s, CheckMarks(w)), k)
  {
    var s' := Do(s, CheckMarks(w));
    assert KeyInv(s, k);
    OthersPend(s, s', w, k);
    assert k in s'.writers[w].dirty ==> PendsDirty(s', w, k);
    assert k in s'.writers[w].deleted ==> PendsDeleted(s', w, k);
  }

  lemma AddDirtyKey(s: State, w: nat, ok: bool, k: string)
    requires Inv(s) && Enabled(s, AddDirty(w, ok)) && IsExportedKey(k)
    ensures KeyInv(Do(s, AddDirty(w, ok)), k)
  {
    var s' := Do(s, AddDirty(w, ok));
    assert KeyInv(s, k);
    OthersPend(s, s', w, k);
    assert k in s'.writers[w].deleted ==> PendsDeleted(s', w, k);
  }

  lemma AddDeletedKey(s: State, w: nat, ok: bool, k: string)
    requires Inv(s) && Enabled(s, AddDeleted(w, ok)) && IsExportedKey(k)
    ensures KeyInv(Do(s, AddDeleted(w, ok)), k)
  {
    var s' := Do(s, AddDeleted(w, ok));
    assert KeyInv(s, k);
    OthersPend(s, s', w, k);
  }

  /** Steps of a hook touch neither the run nor the images. */
  lemma CoverageCarries(s: State, s': State, k: string)
    requires s' == s.(writers := s'.writers, track := s'.track)
    requires Covered(s, k) ==> Covered(s', k)
    ensures ImageSound(s, k) ==> ImageSound(s', k)
    ensures ExportSound(s, k) ==> ExportSound(s', k)
  {
    assert Image(s) == Image(s') && Target(s) == Target(s');
  }

  lemma RecordKey(s: State, w: nat, k: string)
    requires Inv(s) && Enabled(s, RecordMarks(w)) && IsExportedKey(k)
    ensures KeyInv(Do(s, RecordMarks(w)), k)
  {
    var s' := Do(s, RecordMarks(w));
    assert KeyInv(s, k);
    OthersPend(s, s', w, k);
    assert DirtyKept(s, k) == DirtyKept(s', k) && DeletedKept(s, k) == DeletedKept(s', k);
    assert forall v :: v in s'.writers ==> v in s.writers && s'.writers[v] == s.writers[v];
    assert IsMarked(s'.track.dirtyMarks, s'.track.gen, k) ==> DirtyKept(s, k);
    assert IsMarked(s'.track.deletedMarks, s'.track.gen, k) ==> DeletedKept(s, k);
    assert CacheSound(s', k);
    CoverageCarries(s, s', k);
  }

  predicate IsRotation(step: Step) {
    step.StartRun? || step.RotateDirty? || step.RotateDeleted? || step.RotationFails? || step.BumpGeneration?
  }

  lemma RotationKey(s: State, step: Step, k: string)
    requires Inv(s) && Enabled(s, step) && IsRotation(step) && IsExportedKey(k)
    ensures KeyInv(Do(s, step), k)
  {
    var s' := Do(s, step);
    assert KeyInv(s, k);
    SamePending(s, s', k);
  }

  predicate IsExport(step: Step) {
    step.BeginExport? || step.DumpKey? || step.EmitDump? || step.BeginTombstones? || step.Tombstone?
  }

  /** These add no entry, or start the list again. */
  lemma PlanKey(s: State, step: Step, k: string)
    requires Inv(s) && Enabled(s, step) && IsExportedKey(k)
    requires step.BeginExport? || step.DumpKey? || step.BeginTombstones?
    ensures KeyInv(Do(s, step), k)
  {
    var s' := Do(s, step);
    assert KeyInv(s, k);
    SamePending(s, s', k);
    assert CacheSound(s', k);
    assert ImageSound(s', k);
  }

  lemma KeysWith(es: seq<Entry>, e: Entry)
    ensures EntryKeys(es + [e]) == EntryKeys(es) + {e.key}
  {
    assert forall d :: d in es + [e] <==> d in es || d == e;
  }

  /** The key of the DUMP is written out under its value, unless it was absent or is gone by now. */
  lemma EmitTarget(s: State, k: string)
    requires Enabled(s, EmitDump)
    ensures var s', r := Do(s, EmitDump), s.job.reading.value;
            var emitted := k == r.key && r.value.Some? && k in s.store;
            && Get(Target(s'), k) == (if emitted then r.value else Get(Target(s), k))
            && (k in EntryKeys(s'.job.entries) <==> k in EntryKeys(s.job.entries) || emitted)
  {
    var r := s.job.reading.value;
    if r.value.Some? && r.key in s.store {
      var e := KeyEntry(r.key, r.value.value);
      AppendEntry(if s.job.full then map[] else Image(s), s.job.entries, e);
      KeysWith(s.job.entries, e);
      hide EntryKeys, ApplyEntries, Restored;
      assert Target(Do(s, EmitDump)) == Target(s)[r.key := r.value.value];
    }
  }

  lemma EmitKey(s: State, k: string)
    requires Inv(s) && Enabled(s, EmitDump) && IsExportedKey(k)
    ensures KeyInv(Do(s, EmitDump), k)
  {
    var s' := Do(s, EmitDump);
    assert KeyInv(s, k);
    SamePending(s, s', k);
    EmitTarget(s, k);
    hide ApplyEntries, Restored, EntryKeys, Target;
    assert CacheSound(s', k);
    assert ImageSound(s', k);
  }

  lemma TombstoneTarget(s: State, key: string, k: string)
    requires Enabled(s, Tombstone(key))
    ensures var s' := Do(s, Tombstone(key));
            && Get(Target(s'), k) == (if k == key && k !in s.store then None else Get(Target(s), k))
            && (k in EntryKeys(s'.job.entries) <==> k in EntryKeys(s.job.entries) || (k == key && k !in s.store))
  {
    var before := if s.job.full then map[] else Image(s);
    AppendEntry(before, s.job.entries, DeleteEntry(key));
    KeysWith(s.job.entries, DeleteEntry(key));
    hide EntryKeys, ApplyEntries, Restored;
    assert key !in s.store ==> Target(Do(s, Tombstone(key))) == Target(s) - {key};
  }

  lemma TombstoneKey(s: State, key: string, k: string)
    requires Inv(s) && Enabled(s, Tombstone(key)) && IsExportedKey(k)
    ensures KeyInv(Do(s, Tombstone(key)), k)
  {
    var s' := Do(s, Tombstone(key));
    assert KeyInv(s, k);
    SamePending(s, s', k);
    TombstoneTarget(s, key, k);
    hide ApplyEntries, Restored, EntryKeys, Target;
    assert CacheSound(s', k);
    assert ImageSound(s', k);
  }

  lemma ExportKey(s: State, step: Step, k: string)
    requires Inv(s) && Enabled(s, step) && IsExport(step) && IsExportedKey(k)
    ensures KeyInv(Do(s, step), k)
  {
    match step
    case EmitDump => EmitKey(s, k);
    case Tombstone(key) => TombstoneKey(s, key, k);
    case _ => PlanKey(s, step, k);
  }

  lemma UploadImage(s: State)
    requires Shape(s) && Enabled(s, Upload)
    ensures var s' := Do(s, Upload);
            if s.job.full then Image(s') == Image(s) && Restored(s'.archive.objects, s.job.run) == Target(s)
            else Image(s') == Target(s)
  {
    if s.job.full { NothingBuiltOn(s.archive.objects, s.job.run); }
    AppendObject(s.archive.objects, ThisObject(s), s.job.run);
    if s.archive.base.Some? { AppendObject(s.archive.objects, ThisObject(s), s.archive.base.value); }
  }

  lemma UploadKey(s: State, k: string)
    requires Inv(s) && Enabled(s, Upload) && IsExportedKey(k)
    ensures KeyInv(Do(s, Upload), k)
  {
    var s' := Do(s, Upload);
    assert KeyInv(s, k);
    SamePending(s, s', k);
    UploadImage(s);
  }

  lemma RequeueKey(s: State, ok: bool, k: string)
    requires Inv(s) && Enabled(s, Requeue(ok)) && IsExportedKey(k)
    ensures KeyInv(Do(s, Requeue(ok)), k)
  {
    var s' := Do(s, Requeue(ok));
    assert KeyInv(s, k);
    SamePending(s, s', k);
  }

  lemma FinishKey(s: State, ok: bool, k: string)
    requires Inv(s) && Enabled(s, Finish(ok)) && IsExportedKey(k)
    ensures KeyInv(Do(s, Finish(ok)), k)
  {
    var s' := Do(s, Finish(ok));
    assert KeyInv(s, k);
    SamePending(s, s', k);
  }

  lemma CrashKey(s: State, k: string)
    requires Inv(s) && IsExportedKey(k)
    ensures KeyInv(Do(s, Crash), k)
  {
    var s' := Do(s, Crash);
    assert KeyInv(s, k);
    assert PendingDirty(s, k) || PendingDeleted(s, k) ==> k in s'.gap;
  }

  lemma StepKey(s: State, step: Step, k: string)
    requires Inv(s) && Enabled(s, step) && IsExportedKey(k)
    ensures KeyInv(Do(s, step), k)
  {
    match step
    case Write(w, c) => WriteKey(s, w, c, k);
    case CheckMarks(w) => CheckKey(s, w, k);
    case AddDirty(w, ok) => AddDirtyKey(s, w, ok, k);
    case AddDeleted(w, ok) => AddDeletedKey(s, w, ok, k);
    case RecordMarks(w) => RecordKey(s, w, k);
    case Upload => UploadKey(s, k);
    case Requeue(ok) => RequeueKey(s, ok, k);
    case Finish(ok) => FinishKey(s, ok, k);
    case Crash => CrashKey(s, k);
    case _ =>
      if IsRotation(step) { RotationKey(s, step, k); } else { ExportKey(s, step, k); }
  }

  predicate IsHook(step: Step) {
    step.Write? || step.CheckMarks? || step.AddDirty? || step.AddDeleted? || step.RecordMarks?
  }

  lemma HookShape(s: State, step: Step)
    requires Shape(s) && Enabled(s, step) && IsHook(step)
    ensures Shape(Do(s, step))
  {
    var s' := Do(s, step);
    assert HooksShape(s');
    assert RotationShape(s') && s'.archive == s.archive && s'.job.entries == s.job.entries;
    assert Target(s) == Target(s');
  }

  lemma UploadShape(s: State)
    requires Shape(s) && Enabled(s, Upload)
    ensures Shape(Do(s, Upload))
  {
    UploadImage(s);
  }

  lemma JobStepFrame(s: State, step: Step)
    requires Enabled(s, step) && !IsHook(step) && step != Upload
    ensures var s' := Do(s, step);
            && s'.archive.objects == s.archive.objects && s'.job.run >= s.job.run && s'.job.phase != Uploaded
            && (s'.archive.base == s.archive.base || (s'.archive.base == Some(s.job.run) && s'.job.phase == Idle))
            && (s'.job.phase != Idle && s.job.phase != Idle ==> s'.job.run == s.job.run && s.job.phase != Uploaded)
            && (s'.job.phase != Idle && s.job.phase == Idle ==> s'.job.run == s.job.run + 1)
  {
  }

  lemma JobKeepsHooks(s: State, step: Step)
    requires Shape(s) && Enabled(s, step) && !IsHook(step) && step != Upload
    ensures HooksShape(Do(s, step))
  {
    hide Execute, TouchedKeys, SilentKeys, Restored, ApplyEntries, AllPending, FullDue;
  }

  lemma JobKeepsRotation(s: State, step: Step)
    requires Shape(s) && Enabled(s, step) && !IsHook(step) && step != Upload
    ensures RotationShape(Do(s, step))
  {
    hide Execute, TouchedKeys, SilentKeys, Restored, ApplyEntries, AllPending;
  }

  lemma RunShape(s: State, step: Step)
    requires Shape(s) && Enabled(s, step) && !IsHook(step)
    ensures Shape(Do(s, step))
  {
    if step == Upload {
      UploadShape(s);
    } else {
      JobKeepsHooks(s, step);
      JobKeepsRotation(s, step);
      JobStepFrame(s, step);
    }
  }

  lemma StepShape(s: State, step: Step)
    requires Shape(s) && Enabled(s, step)
    ensures Shape(Do(s, step))
  {
    if IsHook(step) { HookShape(s, step); } else { RunShape(s, step); }
  }

  lemma StepKeeps(s: State, step: Step)
    requires Inv(s) && Enabled(s, step)
    ensures Inv(Do(s, step))
  {
    StepShape(s, step);
    forall k | IsExportedKey(k) ensures KeyInv(Do(s, step), k) {
      StepKey(s, step, k);
    }
  }

  lemma {:induction false} RunKeeps(s: State, steps: seq<Step>)
    requires Inv(s) && ValidRun(s, steps)
    ensures Inv(Run(s, steps))
    decreases steps
  {
    if steps != [] {
      StepKeeps(s, steps[0]);
      RunKeeps(Do(s, steps[0]), steps[1..]);
    }
  }
}
