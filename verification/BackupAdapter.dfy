/**
 The adapter and the backup job as sequential code over mutable fields. Every method extends a
 valid run of the protocol that ends in the adapter's own state, so what the protocol keeps over
 all runs holds of the code. Boolean parameters decide whether a Redis or storage call fails.
 */
module BackupAdapter {
  import opened RedisCommands
  import opened BackupProtocol
  import opened BackupAgreement
  import opened BackupTheorems
  import opened ExportedKeys

  lemma MarkOneMore(marks: map<string, nat>, keys: set<string>, key: string, gen: nat)
    ensures Mark(marks, keys, gen)[key := gen] == Mark(marks, keys + {key}, gen)
  {
  }

  class Adapter {
    // Redis: application keys, tracking sets, the run's rotated sets, base bookkeeping.
    var rdb: Keyspace
    var dirty: set<string>
    var deleted: set<string>
    var rotatedDirty: set<string>
    var rotatedDeleted: set<string>
    var baseFullKey: Option<nat>
    var baseFullAt: int
    // The store's mark cache; generation 0 means not initialised yet.
    var trackGen: nat
    var dirtyMarked: map<string, nat>
    var deletedMarked: map<string, nat>
    // Object storage and the number of runs started.
    var objects: seq<BackupObject>
    var runs: nat
    const fullEvery: int
    // The protocol run the code has taken so far.
    ghost var start: State
    ghost var steps: seq<Step>
    ghost var at: State

    function Tracked(): Tracking
      reads this
    {
      Tracking(dirty, deleted, if trackGen == 0 then 1 else trackGen, dirtyMarked, deletedMarked)
    }

    ghost predicate Matches()
      reads this
    {
      && at.store == rdb && at.track == Tracked()
      && at.job.rotDirty == rotatedDirty && at.job.rotDeleted == rotatedDeleted
      && at.archive == Archive(baseFullKey, baseFullAt, objects)
      && at.job.run == runs && at.interval == fullEvery
    }

    ghost predicate OnProtocol()
      reads this`start, this`steps, this`at
    {
      Init(start) && start.job.entries == [] && ValidRun(start, steps) && at == Run(start, steps)
    }

    predicate NothingRotated()
      reads this`rotatedDirty, this`rotatedDeleted
    {
      rotatedDirty == {} && rotatedDeleted == {}
    }

    /** No step taken so far dropped a mark. */
    ghost predicate NothingDropped()
      reads this`start, this`steps
    {
      ValidRun(start, steps) && CleanRun(start, steps)
    }

    lemma QuiescentRestore()
      requires Valid() && baseFullKey.Some? && dirty == deleted == {} && NothingDropped()
      ensures Restored(objects, baseFullKey.value) == ExportedPart(rdb)
    {
      CleanRunRestoresExactly(start, steps);
    }

    /** An incremental run always has a base: no base means a full backup is due. */
    lemma BaseKnown()
      requires OnProtocol() && Matches() && at.job.phase != Idle && !at.job.full
      ensures baseFullKey.Some?
    {
      InitHolds(start);
      RunKeeps(start, steps);
    }

    /** Between calls: on the protocol, with no hook and no backup run under way. */
    ghost predicate Valid()
      reads this
    {
      OnProtocol() && Matches() && at.writers == map[] && at.job.phase == Idle && NothingRotated()
    }

    ghost predicate InRun(phase: Phase)
      reads this
    {
      OnProtocol() && Matches() && at.writers == map[] && at.job.phase == phase
    }

    ghost method Take(step: Step)
      requires OnProtocol() && Enabled(at, step)
      modifies this`steps, this`at
      ensures OnProtocol() && at == Do(old(at), step) && steps == old(steps) + [step]
    {
      RunAppend(start, steps, step);
      at := Do(at, step);
      steps := steps + [step];
    }

    constructor (store: Keyspace, interval: int)
      ensures Valid() && rdb == store && objects == [] && fullEvery == interval
    {
      rdb, dirty, deleted, rotatedDirty, rotatedDeleted := store, {}, {}, {}, {};
      baseFullKey, baseFullAt := None, 0;
      trackGen, dirtyMarked, deletedMarked := 0, map[], map[];
      objects, runs, fullEvery := [], 0, interval;
      start := State(store, Tracking({}, {}, 1, map[], map[]), map[],
                     Job(Idle, false, 0, 0, {}, {}, {}, None, []), Archive(None, 0, []), 0, interval, {}, {}, {});
      steps := [];
      at := State(store, Tracking({}, {}, 1, map[], map[]), map[],
                  Job(Idle, false, 0, 0, {}, {}, {}, None, []), Archive(None, 0, []), 0, interval, {}, {}, {});
    }

    // ----- The mark cache -----

    method EnsureTrackingState()
      modifies this`trackGen
      ensures trackGen == (if old(trackGen) == 0 then 1 else old(trackGen)) && Tracked() == old(Tracked())
    {
      if trackGen == 0 { trackGen := 1; }
    }

    method UnmarkedTrackingKeys(keys: set<string>, gone: set<string>)
      returns (gen: nat, newDirty: set<string>, newDeleted: set<string>)
      modifies this`trackGen
      ensures gen == trackGen == Tracked().gen && Tracked() == old(Tracked())
      ensures newDirty == set k | k in keys && !IsMarked(dirtyMarked, gen, k)
      ensures newDeleted == set k | k in gone && !IsMarked(deletedMarked, gen, k)
    {
      EnsureTrackingState();
      newDirty, newDeleted := {}, {};
      var left := keys;
      while left != {}
        invariant left <= keys
        invariant newDirty == set k | k in keys - left && !IsMarked(dirtyMarked, trackGen, k)
      {
        var key :| key in left;
        left := left - {key};
        if !IsMarked(dirtyMarked, trackGen, key) { newDirty := newDirty + {key}; }
      }
      left := gone;
      while left != {}
        invariant left <= gone
        invariant newDeleted == set k | k in gone - left && !IsMarked(deletedMarked, trackGen, k)
      {
        var key :| key in left;
        left := left - {key};
        if !IsMarked(deletedMarked, trackGen, key) { newDeleted := newDeleted + {key}; }
      }
      gen := trackGen;
    }

    method MarkTrackingKeys(gen: nat, keys: set<string>, gone: set<string>)
      modifies this`trackGen, this`dirtyMarked, this`deletedMarked
      ensures trackGen == old(Tracked().gen)
      ensures if gen != trackGen then dirtyMarked == old(dirtyMarked) && deletedMarked == old(deletedMarked)
              else && dirtyMarked == Mark(old(dirtyMarked), keys, gen)
                   && deletedMarked == Mark(old(deletedMarked), gone, gen)
    {
      if keys == {} && gone == {} {
        EnsureTrackingState();
        assert Mark(dirtyMarked, {}, gen) == dirtyMarked && Mark(deletedMarked, {}, gen) == deletedMarked;
        return;
      }
      EnsureTrackingState();
      if trackGen != gen { return; }
      dirtyMarked := MarkAll(dirtyMarked, keys, gen);
      deletedMarked := MarkAll(deletedMarked, gone, gen);
    }

    static method MarkAll(marks: map<string, nat>, keys: set<string>, gen: nat) returns (r: map<string, nat>)
      ensures r == Mark(marks, keys, gen)
    {
      r := marks;
      var left := keys;
      while left != {}
        invariant left <= keys && r == Mark(marks, keys - left, gen)
      {
        var key :| key in left;
        MarkOneMore(marks, keys - left, key, gen);
        assert keys - left + {key} == keys - (left - {key});
        left := left - {key};
        r := r[key := gen];
      }
    }

    method RotateTrackingGeneration()
      modifies this`trackGen, this`dirtyMarked, this`deletedMarked
      ensures trackGen == old(Tracked().gen) + 1 && dirtyMarked == map[] && deletedMarked == map[]
    {
      EnsureTrackingState();
      trackGen := trackGen + 1;
      dirtyMarked, deletedMarked := map[], map[];
    }

    // ----- A command and its hook -----

    ghost predicate OneWriter(w: nat, stage: Stage)
      reads this
    {
      OnProtocol() && Matches() && at.writers.Keys == {w} && at.writers[w].stage == stage
    }

    method CheckAgainstCache(ghost w: nat, keys: set<string>, gone: set<string>)
      returns (gen: nat, newDirty: set<string>, newDeleted: set<string>)
      requires OneWriter(w, Applying) && at.writers[w].dirty == keys && at.writers[w].deleted == gone
      modifies this`trackGen, this`steps, this`at
      ensures OneWriter(w, Checked) && at.writers[w] == Writer(Checked, gen, newDirty, newDeleted)
      ensures old(steps) <= steps && at.job == old(at.job) && gen == trackGen
    {
      hide OnProtocol;
      gen, newDirty, newDeleted := UnmarkedTrackingKeys(keys, gone);
      Take(CheckMarks(w));
    }

    /** SADD of the dirty keys; a failure is only logged and the keys are not recorded as marked. */
    method AddToDirty(ghost w: nat, keys: set<string>, ok: bool) returns (marked: set<string>)
      requires OneWriter(w, Checked) && at.writers[w].dirty == keys
      modifies this`dirty, this`steps, this`at
      ensures OneWriter(w, DirtyAdded) && at.writers[w] == old(at.writers[w]).(stage := DirtyAdded, dirty := marked)
      ensures old(steps) <= steps && at.job == old(at.job) && (ok ==> marked == keys) && (!ok ==> marked == {})
    {
      hide OnProtocol;
      marked := keys;
      if keys != {} {
        if ok { dirty := dirty + keys; } else { marked := {}; }
      }
      Take(AddDirty(w, ok));
      assert dirty == old(dirty) + marked;
    }

    method AddToDeleted(ghost w: nat, keys: set<string>, ok: bool) returns (marked: set<string>)
      requires OneWriter(w, DirtyAdded) && at.writers[w].deleted == keys
      modifies this`deleted, this`steps, this`at
      ensures OneWriter(w, DeletedAdded) &&
                at.writers[w] == old(at.writers[w]).(stage := DeletedAdded, deleted := marked)
      ensures old(steps) <= steps && at.job == old(at.job) && (ok ==> marked == keys) && (!ok ==> marked == {})
    {
      hide OnProtocol;
      marked := keys;
      if keys != {} {
        if ok { deleted := deleted + keys; } else { marked := {}; }
      }
      Take(AddDeleted(w, ok));
      assert deleted == old(deleted) + marked;
    }

    method RecordMarked(ghost w: nat, gen: nat, keys: set<string>, gone: set<string>)
      requires OneWriter(w, DeletedAdded) && at.writers[w] == Writer(DeletedAdded, gen, keys, gone)
      modifies this`trackGen, this`dirtyMarked, this`deletedMarked, this`steps, this`at
      ensures OnProtocol() && Matches() && at.writers == map[]
      ensures old(steps) <= steps && at.job == old(at.job)
    {
      hide OnProtocol;
      MarkTrackingKeys(gen, keys, gone);
      Take(RecordMarks(w));
    }

    method RecordBackupTracking(ghost w: nat, keys: set<string>, gone: set<string>, addsDirty: bool, addsDeleted: bool)
      requires OneWriter(w, Applying) && at.writers[w].dirty == keys && at.writers[w].deleted == gone
      modifies this`dirty, this`deleted, this`trackGen, this`dirtyMarked, this`deletedMarked, this`steps, this`at
      ensures OnProtocol() && Matches() && at.writers == map[]
      ensures old(steps) <= steps && at.job == old(at.job)
    {
      hide OnProtocol;
      var gen, newDirty, newDeleted := CheckAgainstCache(w, keys, gone);
      newDirty := AddToDirty(w, newDirty, addsDirty);
      newDeleted := AddToDeleted(w, newDeleted, addsDeleted);
      RecordMarked(w, gen, newDirty, newDeleted);
    }

    method Apply(c: Command, after: Keyspace)
      requires Valid() && Execute(rdb, c) == Applied(after)
      modifies this`rdb, this`steps, this`at
      ensures OneWriter(0, Applying) && old(steps) <= steps && at.job == old(at.job) && rdb == after
      ensures at.writers[0].dirty == TouchedKeys(c).dirty && at.writers[0].deleted == TouchedKeys(c).deleted
    {
      hide OnProtocol, TouchedKeys, SilentKeys, AllPending, ThisObject;
      rdb := after;
      Take(Write(0, c));
    }

    /** The process hook: a command that fails is not tracked. */
    method Process(c: Command, addsDirty: bool, addsDeleted: bool) returns (ok: bool)
      requires Valid()
      modifies this
      ensures Valid() && start == old(start) && old(steps) <= steps
      ensures ok == Execute(old(rdb), c).Applied?
      ensures rdb == if ok then Execute(old(rdb), c).after else old(rdb)
    {
      hide OnProtocol;
      var reply := Execute(rdb, c);
      match reply
      case Failed => ok := false;
      case Applied(after) =>
        ok := true;
        Apply(c, after);
        var touched := TouchedKeys(c);
        RecordBackupTracking(0, touched.dirty, touched.deleted, addsDirty, addsDeleted);
    }

    // ----- One backup run -----

    method RenameDirty()
      requires InRun(Started) && NothingRotated()
      modifies this`dirty, this`rotatedDirty, this`steps, this`at
      ensures InRun(DirtyRotated) && old(steps) <= steps && at == DoRotateDirty(old(at)) && dirty == {}
    {
      hide OnProtocol;
      rotatedDirty, dirty := dirty, {};
      Take(RotateDirty);
    }

    method RenameDeleted()
      requires InRun(DirtyRotated)
      modifies this`deleted, this`rotatedDeleted, this`steps, this`at
      ensures InRun(DeletedRotated) && old(steps) <= steps && at == DoRotateDeleted(old(at)) && deleted == {}
    {
      hide OnProtocol;
      rotatedDeleted, deleted := deleted, {};
      Take(RotateDeleted);
    }

    /** The attempt is dropped with whatever it renamed away; the caller gets no token. */
    method AbandonRotation()
      requires InRun(Started) || InRun(DirtyRotated)
      modifies this`rotatedDirty, this`rotatedDeleted, this`steps, this`at
      ensures Valid() && old(steps) <= steps
    {
      hide OnProtocol;
      rotatedDirty, rotatedDeleted := {}, {};
      Take(RotationFails);
    }

    method BumpAfterRotation()
      requires InRun(DeletedRotated)
      modifies this`trackGen, this`dirtyMarked, this`deletedMarked, this`steps, this`at
      ensures InRun(Rotated) && old(steps) <= steps && at == DoBump(old(at))
    {
      hide OnProtocol;
      RotateTrackingGeneration();
      Take(BumpGeneration);
    }

    method RotateBackupTracking(renamesDirty: bool, renamesDeleted: bool) returns (ok: bool)
      requires InRun(Started) && NothingRotated()
      modifies this`dirty, this`deleted, this`rotatedDirty, this`rotatedDeleted
      modifies this`trackGen, this`dirtyMarked, this`deletedMarked, this`steps, this`at
      ensures old(steps) <= steps && ok == (renamesDirty && renamesDeleted)
      ensures if ok then InRun(Rotated) && dirty == deleted == {} && at.job.full == old(at.job.full) &&
                at.job.startedAt == old(at.job.startedAt)
              else Valid()
    {
      hide OnProtocol;
      if !renamesDirty {
        AbandonRotation();
        return false;
      }
      RenameDirty();
      if !renamesDeleted {
        AbandonRotation();
        return false;
      }
      RenameDeleted();
      BumpAfterRotation();
      return true;
    }

    method DumpOne(key: string, sofar: seq<Entry>) returns (entries: seq<Entry>)
      requires InRun(Dumping) && at.job.reading == None && at.job.entries == sofar
      requires IsExportedKey(key) && key in at.job.todo
      modifies this`steps, this`at
      ensures InRun(Dumping) && old(steps) <= steps
      ensures at.job == old(at.job).(todo := old(at.job.todo) - {key}, entries := entries)
      ensures entries == if key in rdb then sofar + [KeyEntry(key, rdb[key])] else sofar
    {
      hide OnProtocol, Execute, TouchedKeys, SilentKeys, AllPending, ThisObject, IsExportedKey;
      entries := sofar;
      Take(DumpKey(key));
      if key in rdb {
        entries := entries + [KeyEntry(key, rdb[key])];
      }
      Take(EmitDump);
    }

    /** DUMP and PTTL every key of the batch, in any order. */
    method WriteBackupBatch(keys: set<string>, sofar: seq<Entry>) returns (entries: seq<Entry>)
      requires InRun(Dumping) && at.job.reading == None && at.job.entries == sofar && at.job.todo == keys
      requires forall k :: k in keys ==> IsExportedKey(k)
      modifies this`steps, this`at
      ensures InRun(Dumping) && at.job.reading == None && at.job.entries == entries && at.job.todo == {}
      ensures forall e :: e in entries <==>
                e in sofar || (e.KeyEntry? && e.key in keys && Get(rdb, e.key) == Some(e.value))
      ensures old(steps) <= steps && at.job.full == old(at.job.full) && at.job.startedAt == old(at.job.startedAt)
    {
      hide OnProtocol;
      entries := sofar;
      var left := keys;
      while left != {}
        invariant left <= keys
        invariant InRun(Dumping) && at.job.reading == None && at.job.entries == entries && at.job.todo == left
        invariant forall e :: e in entries <==>
                    e in sofar || (e.KeyEntry? && e.key in keys - left && Get(rdb, e.key) == Some(e.value))
        invariant old(steps) <= steps && at.job.full == old(at.job.full) && at.job.startedAt == old(at.job.startedAt)
      {
        var key :| key in left;
        left := left - {key};
        entries := DumpOne(key, entries);
      }
    }

    method WriteTombstones(keys: set<string>, sofar: seq<Entry>) returns (entries: seq<Entry>)
      requires InRun(Tombstoning) && at.job.entries == sofar && at.job.todo == keys && at.job.reading == None
      modifies this`steps, this`at
      ensures InRun(Tombstoning) && at.job.entries == entries && at.job.todo == {} && at.job.reading == None
      ensures forall e :: e in entries <==> e in sofar || (e.DeleteEntry? && e.key in keys && e.key !in rdb)
      ensures old(steps) <= steps && at.job.full == old(at.job.full) && at.job.startedAt == old(at.job.startedAt)
    {
      hide OnProtocol;
      entries := sofar;
      var left := keys;
      while left != {}
        invariant left <= keys
        invariant InRun(Tombstoning) && at.job.entries == entries && at.job.todo == left && at.job.reading == None
        invariant forall e :: e in entries <==> e in sofar || (e.DeleteEntry? && e.key in keys - left && e.key !in rdb)
        invariant old(steps) <= steps && at.job.full == old(at.job.full) && at.job.startedAt == old(at.job.startedAt)
      {
        var key :| key in left;
        left := left - {key};
        if key !in rdb {
          entries := entries + [DeleteEntry(key)];
        }
        Take(Tombstone(key));
      }
    }

    ghost method BeginDumping(full: bool)
      requires InRun(Rotated) && at.job.full == full
      modifies this`steps, this`at
      ensures InRun(Dumping) && old(steps) <= steps
      ensures at.job == old(at.job).(phase := Dumping, entries := [], reading := None,
                                     todo := ExportedOf(if full then rdb.Keys else rotatedDirty))
    {
      hide OnProtocol, Execute, TouchedKeys, SilentKeys, AllPending, ThisObject;
      Take(BeginExport);
    }

    ghost method EndDumping()
      requires InRun(Dumping) && !at.job.full && at.job.todo == {} && at.job.reading == None
      modifies this`steps, this`at
      ensures InRun(Tombstoning) && old(steps) <= steps
      ensures at.job == old(at.job).(phase := Tombstoning, todo := ExportedOf(rotatedDeleted))
    {
      hide OnProtocol, Execute, TouchedKeys, SilentKeys, AllPending, ThisObject;
      Take(BeginTombstones);
    }

    method WriteBackup(full: bool) returns (entries: seq<Entry>)
      requires InRun(Rotated) && at.job.full == full
      modifies this`steps, this`at
      ensures OnProtocol() && Matches() && at.writers == map[] && ExportDone(at) && at.job.entries == entries
      ensures at.job.full == full && at.job.startedAt == old(at.job.startedAt)
      ensures forall k, v :: KeyEntry(k, v) in entries <==>
                               IsExportedKey(k) && Get(rdb, k) == Some(v) && (full || k in rotatedDirty)
      ensures forall k :: DeleteEntry(k) in entries <==>
                            !full && IsExportedKey(k) && k in rotatedDeleted && k !in rdb
      ensures forall e :: e in entries ==>
                            && !("imsub:oauth:" <= e.key) && !("imsub:backup:" <= e.key)
                            && !("imsub:cleanup_job_lock:" <= e.key) && !("imsub:sub_end_grace_lock:" <= e.key)
      ensures full ==> forall id :: "imsub:user:" + id in rdb ==>
                                      KeyEntry("imsub:user:" + id, rdb["imsub:user:" + id]) in entries
      ensures old(steps) <= steps
    {
      hide OnProtocol, IsExportedKey;
      NamedKeys();
      BeginDumping(full);
      if full {
        entries := WriteBackupBatch(ExportedOf(rdb.Keys), []);
      } else {
        entries := WriteBackupBatch(ExportedOf(rotatedDirty), []);
        EndDumping();
        entries := WriteTombstones(ExportedOf(rotatedDeleted), entries);
      }
    }

    method RequeueBackupTracking(ok: bool)
      requires OnProtocol() && Matches() && at.writers == map[] && Exporting(at)
      modifies this`dirty, this`deleted, this`rotatedDirty, this`rotatedDeleted, this`steps, this`at
      ensures Valid() && old(steps) <= steps
      ensures ok ==> dirty == old(dirty + rotatedDirty) && deleted == old(deleted + rotatedDeleted)
    {
      hide OnProtocol;
      if ok {
        dirty, deleted := dirty + rotatedDirty, deleted + rotatedDeleted;
      }
      rotatedDirty, rotatedDeleted := {}, {};
      Take(Requeue(ok));
    }

    method FinishBackup(full: bool, createdAt: int, ok: bool)
      requires InRun(Uploaded) && at.job.full == full && at.job.startedAt == createdAt
      modifies this`baseFullKey, this`baseFullAt, this`rotatedDirty, this`rotatedDeleted, this`steps, this`at
      ensures Valid() && old(steps) <= steps
      ensures if full && ok then baseFullKey == Some(runs) && baseFullAt == createdAt
              else baseFullKey == old(baseFullKey) && baseFullAt == old(baseFullAt)
    {
      hide OnProtocol, Execute, TouchedKeys, SilentKeys, AllPending, ThisObject;
      if full && ok {
        baseFullKey, baseFullAt := Some(runs), createdAt;
      }
      rotatedDirty, rotatedDeleted := {}, {};
      Take(Finish(ok));
    }

    method ShouldCreateFullBackup(now: int) returns (full: bool)
      requires Matches()
      ensures full == FullDue(at, now)
      ensures full <==> fullEvery <= 0 || baseFullKey == None || now >= baseFullAt + fullEvery
    {
      if fullEvery <= 0 { return true; }
      match baseFullKey
      case None => return true;
      case Some(_) => return !(now < baseFullAt + fullEvery);
    }

    method BeginRun(now: int) returns (full: bool)
      requires Valid()
      modifies this`runs, this`steps, this`at
      ensures InRun(Started) && NothingRotated() && old(steps) <= steps
      ensures at.job.full == full == FullDue(old(at), now) && at.job.startedAt == now
    {
      hide OnProtocol;
      full := ShouldCreateFullBackup(now);
      runs := runs + 1;
      Take(StartRun(now));
    }

    method UploadObject(full: bool, entries: seq<Entry>)
      requires OnProtocol() && Matches() && at.writers == map[] && ExportDone(at)
      requires at.job.full == full && at.job.entries == entries
      modifies this`objects, this`steps, this`at
      ensures InRun(Uploaded) && old(steps) <= steps && at.job == old(at.job).(phase := Uploaded)
      ensures objects == old(objects) + [BackupObject(runs, full, if full then Some(runs) else baseFullKey, entries)]
    {
      hide OnProtocol;
      objects := objects + [BackupObject(runs, full, if full then Some(runs) else baseFullKey, entries)];
      Take(Upload);
    }

    /** From rotated sets to an uploaded object; anything short of that requeues the marks. */
    method ExportAndUpload(full: bool, exports: bool, uploads: bool, requeues: bool) returns (uploaded: bool)
      requires InRun(Rotated) && at.job.full == full && (!full ==> baseFullKey.Some?)
      modifies this`dirty, this`deleted, this`rotatedDirty, this`rotatedDeleted, this`objects, this`steps, this`at
      ensures old(steps) <= steps && uploaded == (exports && uploads)
      ensures if uploaded then InRun(Uploaded) && at.job.full == full && at.job.startedAt == old(at.job.startedAt)
                               && dirty == old(dirty) && deleted == old(deleted)
              else Valid()
    {
      hide OnProtocol;
      var entries := WriteBackup(full);
      if !exports || !uploads {
        RequeueBackupTracking(requeues);
        return false;
      }
      UploadObject(full, entries);
      return true;
    }

    /** One scheduled run. With every call succeeding it leaves a base, no mark and no rotated set,
        and if no step so far dropped a mark, restoring gives back exactly the exported keys. */
    method RunBackup(now: int, renamesDirty: bool, renamesDeleted: bool, exports: bool,
                     uploads: bool, requeues: bool, finishes: bool) returns (ok: bool)
      requires Valid()
      modifies this`dirty, this`deleted, this`rotatedDirty, this`rotatedDeleted, this`baseFullKey, this`baseFullAt
      modifies this`trackGen, this`dirtyMarked, this`deletedMarked, this`objects, this`runs, this`steps, this`at
      ensures Valid() && old(steps) <= steps
      ensures ok == (renamesDirty && renamesDeleted && exports && uploads && finishes)
      ensures ok ==> baseFullKey.Some? && dirty == deleted == {}
      ensures ok && NothingDropped() ==> Restored(objects, baseFullKey.value) == ExportedPart(rdb)
    {
      hide OnProtocol, Matches, NothingDropped, Restored, FullDue, Image, ExportedPart;
      var full := BeginRun(now);
      if !full { BaseKnown(); }
      var rotated := RotateBackupTracking(renamesDirty, renamesDeleted);
      if !rotated { return false; }
      var uploaded := ExportAndUpload(full, exports, uploads, requeues);
      if !uploaded { return false; }
      FinishBackup(full, now, finishes);
      if !finishes { return false; }
      if NothingDropped() { QuiescentRestore(); }
      return true;
    }
  }
}
