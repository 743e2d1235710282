/**
 Incremental backup as a state machine. Any number of writers run their tracking hooks one
 Redis round trip at a time, interleaved with one backup run that rotates the marks, exports,
 uploads and then finishes or requeues. Every way the running system can drop a mark is a step.
 */
module BackupProtocol {
  import opened RedisCommands

  // ----- Backup objects and restoring them -----

  datatype Entry = KeyEntry(key: string, value: Value) | DeleteEntry(key: string)

  /** `base` is the manifest's base key: the object itself for a full backup. */
  datatype BackupObject = BackupObject(id: nat, full: bool, base: Option<nat>, entries: seq<Entry>)

  function ApplyEntry(s: Keyspace, e: Entry): Keyspace {
    match e
    case KeyEntry(key, value) => s[key := value]
    case DeleteEntry(key) => s - {key}
  }

  /** Restoring one object: its entries in order, each replacing or deleting a key. */
  function ApplyEntries(s: Keyspace, es: seq<Entry>): Keyspace {
    if es == [] then s else ApplyEntry(ApplyEntries(s, es[..|es| - 1]), es[|es| - 1])
  }

  /** Restoring, into an empty keyspace and in upload order, every object built on `base`. */
  function Restored(objects: seq<BackupObject>, base: nat): Keyspace {
    if objects == [] then map[]
    else
      var before := Restored(objects[..|objects| - 1], base);
      var o := objects[|objects| - 1];
      if o.base == Some(base) then ApplyEntries(before, o.entries) else before
  }

  // ----- States -----

  /** Where a writer is: still sending commands, or between two steps of its tracking hook. */
  datatype Stage = Applying | Checked | DirtyAdded | DeletedAdded

  datatype Writer = Writer(stage: Stage, gen: nat, dirty: set<string>, deleted: set<string>)

  datatype Phase = Idle | Started | DirtyRotated | DeletedRotated | Rotated | Dumping | Tombstoning | Uploaded

  /** A DUMP whose PTTL has not been answered yet. */
  datatype Reading = Reading(key: string, value: Option<Value>)

  /** The live tracking sets and the in-memory cache of keys already marked. */
  datatype Tracking = Tracking(
    liveDirty: set<string>, liveDeleted: set<string>,
    gen: nat, dirtyMarks: map<string, nat>, deletedMarks: map<string, nat>)

  /** The backup run: its rotated sets, what it still has to export, and what it has written. */
  datatype Job = Job(
    phase: Phase, full: bool, run: nat, startedAt: int,
    rotDirty: set<string>, rotDeleted: set<string>,
    todo: set<string>, reading: Option<Reading>, entries: seq<Entry>)

  /** The uploaded objects in upload order, and the last finished full backup. */
  datatype Archive = Archive(base: Option<nat>, baseAt: int, objects: seq<BackupObject>)

  datatype State = State(
    store: Keyspace, track: Tracking, writers: map<nat, Writer>, job: Job, archive: Archive,
    now: int, interval: int,
    // History: keys whose change may have left no mark since the base was exported, and since the
    // current run's generation bump; and dirty marks of this generation that a failed rotation
    // renamed away and no SADD has put back.
    gap: set<string>, gapNow: set<string>, lost: set<string>)

  predicate Init(s: State) {
    && s.track.liveDirty == s.track.liveDeleted == s.job.rotDirty == s.job.rotDeleted == {}
    && s.track.gen == 1 && s.track.dirtyMarks == s.track.deletedMarks == map[]
    && s.writers == map[]
    && s.job.phase == Idle && s.job.run == 0
    && s.archive.base == None && s.archive.objects == []
    && s.job.reading == None
    && s.gap == s.gapNow == s.lost == {}
  }

  datatype Step =
    | Write(w: nat, command: Command)
    | CheckMarks(w: nat)
    | AddDirty(w: nat, ok: bool)
    | AddDeleted(w: nat, ok: bool)
    | RecordMarks(w: nat)
    | StartRun(at: int)
    | RotateDirty
    | RotateDeleted
    | RotationFails
    | BumpGeneration
    | BeginExport
    | DumpKey(key: string)
    | EmitDump
    | BeginTombstones
    | Tombstone(key: string)
    | Upload
    | Requeue(ok: bool)
    | Finish(ok: bool)
    | Crash

  // ----- Enabled steps -----

  predicate AtStage(s: State, w: nat, stage: Stage) {
    w in s.writers && s.writers[w].stage == stage
  }

  predicate Exporting(s: State) {
    s.job.phase == Rotated || s.job.phase == Dumping || s.job.phase == Tombstoning
  }

  predicate ExportDone(s: State) {
    && s.job.todo == {} && s.job.reading == None
    && s.job.phase == if s.job.full then Dumping else Tombstoning
  }

  predicate Enabled(s: State, step: Step) {
    match step
    case Write(w, c) => (w in s.writers ==> s.writers[w].stage == Applying) && Execute(s.store, c).Applied?
    case CheckMarks(w) => AtStage(s, w, Applying)
    case AddDirty(w, _) => AtStage(s, w, Checked)
    case AddDeleted(w, _) => AtStage(s, w, DirtyAdded)
    case RecordMarks(w) => AtStage(s, w, DeletedAdded)
    case StartRun(_) => s.job.phase == Idle
    case RotateDirty => s.job.phase == Started
    case RotateDeleted => s.job.phase == DirtyRotated
    case RotationFails => s.job.phase == Started || s.job.phase == DirtyRotated
    case BumpGeneration => s.job.phase == DeletedRotated
    case BeginExport => s.job.phase == Rotated
    case DumpKey(k) => s.job.phase == Dumping && s.job.reading == None && IsExportedKey(k) &&
        (!s.job.full ==> k in s.job.todo)
    case EmitDump => s.job.phase == Dumping && s.job.reading.Some?
    case BeginTombstones => s.job.phase == Dumping && !s.job.full && s.job.todo == {} && s.job.reading == None
    case Tombstone(k) => s.job.phase == Tombstoning && k in s.job.todo
    case Upload => ExportDone(s)
    case Requeue(_) => Exporting(s)
    case Finish(_) => s.job.phase == Uploaded
    case Crash => true
  }

  // ----- Effects of the writers' steps -----

  function WriterOf(s: State, w: nat): Writer {
    if w in s.writers then s.writers[w] else Writer(Applying, 0, {}, {})
  }

  /** The command takes effect and its touched keys wait for the hook. A full scan owes only keys
      that stay present throughout. */
  function DoWrite(s: State, w: nat, c: Command): State
    requires Enabled(s, Write(w, c))
  {
    var after := Execute(s.store, c).after;
    var t := TouchedKeys(c);
    var writer := WriterOf(s, w);
    var silent := SilentKeys(s.store, c);
    s.(store := after,
       writers := s.writers[w := writer.(dirty := writer.dirty + t.dirty, deleted := writer.deleted + t.deleted)],
       job := if s.job.full && s.job.phase == Dumping then s.job.(todo := s.job.todo * after.Keys) else s.job,
       gap := s.gap + silent, gapNow := s.gapNow + silent)
  }

  predicate IsMarked(marks: map<string, nat>, gen: nat, k: string) {
    k in marks && marks[k] == gen
  }

  function DoCheck(s: State, w: nat): State
    requires Enabled(s, CheckMarks(w))
  {
    var writer := s.writers[w];
    s.(writers := s.writers[w := Writer(Checked, s.track.gen,
         set k | k in writer.dirty && !IsMarked(s.track.dirtyMarks, s.track.gen, k),
         set k | k in writer.deleted && !IsMarked(s.track.deletedMarks, s.track.gen, k))])
  }

  function DoAddDirty(s: State, w: nat, ok: bool): State
    requires Enabled(s, AddDirty(w, ok))
  {
    var writer := s.writers[w];
    if ok then
      s.(track := s.track.(liveDirty := s.track.liveDirty + writer.dirty),
         writers := s.writers[w := writer.(stage := DirtyAdded)], lost := s.lost - writer.dirty)
    else
      s.(writers := s.writers[w := writer.(stage := DirtyAdded, dirty := {})],
         gap := s.gap + writer.dirty, gapNow := s.gapNow + writer.dirty)
  }

  function DoAddDeleted(s: State, w: nat, ok: bool): State
    requires Enabled(s, AddDeleted(w, ok))
  {
    var writer := s.writers[w];
    if ok then
      s.(track := s.track.(liveDeleted := s.track.liveDeleted + writer.deleted),
         writers := s.writers[w := writer.(stage := DeletedAdded)])
    else
      s.(writers := s.writers[w := writer.(stage := DeletedAdded, deleted := {})],
         gap := s.gap + writer.deleted, gapNow := s.gapNow + writer.deleted)
  }

  function Mark(marks: map<string, nat>, keys: set<string>, gen: nat): (r: map<string, nat>)
    ensures forall k :: IsMarked(r, gen, k) <==> k in keys || IsMarked(marks, gen, k)
  {
    marks + map k | k in keys :: gen
  }

  function DoRecord(s: State, w: nat): State
    requires Enabled(s, RecordMarks(w))
  {
    var writer := s.writers[w];
    s.(writers := s.writers - {w},
       track := if writer.gen != s.track.gen then s.track
                else s.track.(dirtyMarks := Mark(s.track.dirtyMarks, writer.dirty, s.track.gen),
                              deletedMarks := Mark(s.track.deletedMarks, writer.deleted, s.track.gen)))
  }

  // ----- Effects of the backup run's steps -----

  predicate FullDue(s: State, at: int) {
    s.interval <= 0 || s.archive.base.None? || at >= s.archive.baseAt + s.interval
  }

  function DoStart(s: State, at: int): State {
    s.(now := at, job := s.job.(phase := Started, full := FullDue(s, at), run := s.job.run + 1, startedAt := at))
  }

  function DoRotateDirty(s: State): State {
    s.(job := s.job.(phase := DirtyRotated, rotDirty := s.track.liveDirty), track := s.track.(liveDirty := {}))
  }

  function DoRotateDeleted(s: State): State {
    s.(job := s.job.(phase := DeletedRotated, rotDeleted := s.track.liveDeleted), track := s.track.(liveDeleted := {}))
  }

  function DoBump(s: State): State {
    s.(job := s.job.(phase := Rotated),
       track := s.track.(gen := s.track.gen + 1, dirtyMarks := map[], deletedMarks := map[]),
       gapNow := {}, lost := {})
  }

  function EndJob(j: Job): Job {
    j.(phase := Idle, rotDirty := {}, rotDeleted := {}, reading := None)
  }

  /** No token is returned, so nothing requeues what was already renamed away. */
  function DoRotationFails(s: State): State {
    s.(job := EndJob(s.job), gap := s.gap + s.job.rotDirty, lost := s.lost + (s.job.rotDirty - s.track.liveDirty))
  }

  function DoBeginExport(s: State): State {
    s.(job := s.job.(phase := Dumping, entries := [], reading := None,
         todo := ExportedOf(if s.job.full then s.store.Keys else s.job.rotDirty)))
  }

  function DoDump(s: State, k: string): State {
    s.(job := s.job.(reading := Some(Reading(k, Get(s.store, k))), todo := s.job.todo - {k}))
  }

  /** The key is written out unless it was absent at the DUMP or gone by the PTTL. */
  function DoEmit(s: State): State
    requires Enabled(s, EmitDump)
  {
    var r := s.job.reading.value;
    s.(job := s.job.(reading := None,
         entries := if r.value.Some? && r.key in s.store then s.job.entries + [KeyEntry(r.key, r.value.value)]
                    else s.job.entries))
  }

  function DoBeginTombstones(s: State): State {
    s.(job := s.job.(phase := Tombstoning, todo := ExportedOf(s.job.rotDeleted)))
  }

  function DoTombstone(s: State, k: string): State {
    s.(job := s.job.(todo := s.job.todo - {k},
         entries := if k in s.store then s.job.entries else s.job.entries + [DeleteEntry(k)]))
  }

  function ThisObject(s: State): BackupObject {
    BackupObject(s.job.run, s.job.full, if s.job.full then Some(s.job.run) else s.archive.base, s.job.entries)
  }

  /** A key present and marked dirty, or absent and marked deleted, when the marks were renamed away. */
  predicate InRotated(s: State, k: string) {
    if k in s.store then k in s.job.rotDirty else k in s.job.rotDeleted
  }

  /** An incremental makes up for every dropped mark of a key that was marked again before its bump. */
  function DoUpload(s: State): State {
    s.(job := s.job.(phase := Uploaded), archive := s.archive.(objects := s.archive.objects + [ThisObject(s)]),
       gap := if s.job.full then s.gap else set k | k in s.gap && (k in s.gapNow || !InRotated(s, k)))
  }

  function DoRequeue(s: State, ok: bool): State {
    if ok then
      s.(job := EndJob(s.job),
         track := s.track.(liveDirty := s.track.liveDirty + s.job.rotDirty,
                           liveDeleted := s.track.liveDeleted + s.job.rotDeleted))
    else
      s.(job := EndJob(s.job), gap := s.gap + s.job.rotDirty + s.job.rotDeleted)
  }

  function DoFinish(s: State, ok: bool): State {
    if !s.job.full then
      s.(job := EndJob(s.job))
    else if ok then
      s.(job := EndJob(s.job), archive := s.archive.(base := Some(s.job.run), baseAt := s.job.startedAt),
          gap := s.gapNow)
    else
      // The finish transaction of an uploaded full backup failed: its rotated sets are orphaned.
      s.(job := EndJob(s.job), gap := s.gap + s.job.rotDirty + s.job.rotDeleted)
  }

  function AllPending(s: State): set<string> {
    (set w, k | w in s.writers && k in s.writers[w].dirty :: k) +
    (set w, k | w in s.writers && k in s.writers[w].deleted :: k)
  }

  /** The process dies: hooks under way, the mark cache and the run's token are gone. */
  function DoCrash(s: State): State {
    s.(job := EndJob(s.job), writers := map[],
       track := s.track.(gen := 1, dirtyMarks := map[], deletedMarks := map[]),
       gap := s.gap + AllPending(s) + s.job.rotDirty + s.job.rotDeleted, lost := {})
  }

  function Do(s: State, step: Step): State
    requires Enabled(s, step)
  {
    match step
    case Write(w, c) => DoWrite(s, w, c)
    case CheckMarks(w) => DoCheck(s, w)
    case AddDirty(w, ok) => DoAddDirty(s, w, ok)
    case AddDeleted(w, ok) => DoAddDeleted(s, w, ok)
    case RecordMarks(w) => DoRecord(s, w)
    case StartRun(at) => DoStart(s, at)
    case RotateDirty => DoRotateDirty(s)
    case RotateDeleted => DoRotateDeleted(s)
    case RotationFails => DoRotationFails(s)
    case BumpGeneration => DoBump(s)
    case BeginExport => DoBeginExport(s)
    case DumpKey(k) => DoDump(s, k)
    case EmitDump => DoEmit(s)
    case BeginTombstones => DoBeginTombstones(s)
    case Tombstone(k) => DoTombstone(s, k)
    case Upload => DoUpload(s)
    case Requeue(ok) => DoRequeue(s, ok)
    case Finish(ok) => DoFinish(s, ok)
    case Crash => DoCrash(s)
  }

  // ----- Runs -----

  predicate ValidRun(s: State, steps: seq<Step>)
    decreases steps
  {
    steps == [] || (Enabled(s, steps[0]) && ValidRun(Do(s, steps[0]), steps[1..]))
  }

  function Run(s: State, steps: seq<Step>): State
    requires ValidRun(s, steps)
    decreases steps
  {
    if steps == [] then s else Run(Do(s, steps[0]), steps[1..])
  }

  lemma {:induction false} RunAppend(s: State, steps: seq<Step>, step: Step)
    requires ValidRun(s, steps) && Enabled(Run(s, steps), step)
    ensures ValidRun(s, steps + [step]) && Run(s, steps + [step]) == Do(Run(s, steps), step)
    decreases steps
  {
    if steps == [] {
      assert ValidRun(Do(s, step), []);
      assert (steps + [step])[1..] == [];
    } else {
      RunAppend(Do(s, steps[0]), steps[1..], step);
      assert (steps + [step])[1..] == steps[1..] + [step];
    }
  }
}
