/**
 Concrete runs: a full backup, then a change the incremental misses.
 */
module BackupExamples {
  import opened RedisCommands
  import opened BackupProtocol
  import opened BackupAgreement
  import opened BackupTheorems

  ghost predicate Reaches(start: State, s: State) {
    exists steps :: ValidRun(start, steps) && Run(start, steps) == s
  }

  lemma ReachesSelf(s: State)
    ensures Reaches(s, s)
  {
    assert ValidRun(s, []) && Run(s, []) == s;
  }

  lemma ReachesNext(start: State, s: State, step: Step)
    requires Reaches(start, s) && Enabled(s, step)
    ensures Reaches(start, Do(s, step))
  {
    var steps :| ValidRun(start, steps) && Run(start, steps) == s;
    RunAppend(start, steps, step);
  }

  /** A store holding one exported key, and no backup yet. */
  function OneKey(k: string, v: Value): State {
    State(map[k := v], Tracking({}, {}, 1, map[], map[]), map[],
          Job(Idle, false, 0, 0, {}, {}, {}, None, []), Archive(None, 0, []), 0, 10, {}, {}, {})
  }

  /** The state after a full backup of that store. */
  function OneKeySaved(k: string, v: Value): State {
    State(map[k := v], Tracking({}, {}, 2, map[], map[]), map[],
          Job(Idle, true, 1, 0, {}, {}, {}, None, [KeyEntry(k, v)]),
          Archive(Some(1), 0, [BackupObject(1, true, Some(1), [KeyEntry(k, v)])]), 0, 10, {}, {}, {})
  }

  lemma RestoredOne(k: string, v: Value)
    ensures Restored([BackupObject(1, true, Some(1), [KeyEntry(k, v)])], 1) == map[k := v]
  {
    var o := BackupObject(1, true, Some(1), [KeyEntry(k, v)]);
    assert [o][..0] == [] && o.entries[..0] == [];
    assert ApplyEntries(map[], o.entries) == map[k := v];
  }

  lemma FullBackupOfOneKey(k: string, v: Value)
    requires IsExportedKey(k)
    ensures Init(OneKey(k, v)) && Reaches(OneKey(k, v), OneKeySaved(k, v))
    ensures Image(OneKeySaved(k, v)) == map[k := v]
  {
    hide Reaches;
    var s := OneKey(k, v);
    ReachesSelf(s);
    ReachesNext(s, s, StartRun(0));
    var s1 := DoStart(s, 0);
    ReachesNext(s, s1, RotateDirty);
    var s2 := DoRotateDirty(s1);
    ReachesNext(s, s2, RotateDeleted);
    var s3 := DoRotateDeleted(s2);
    ReachesNext(s, s3, BumpGeneration);
    var s4 := DoBump(s3);
    ReachesNext(s, s4, BeginExport);
    var s5 := DoBeginExport(s4);
    assert s5.job.todo == {k};
    ReachesNext(s, s5, DumpKey(k));
    var s6 := DoDump(s5, k);
    ReachesNext(s, s6, EmitDump);
    var s7 := DoEmit(s6);
    assert s7.job.entries == [KeyEntry(k, v)] && s7.job.todo == {};
    ReachesNext(s, s7, Upload);
    var s8 := DoUpload(s7);
    ReachesNext(s, s8, Finish(true));
    assert DoFinish(s8, true) == OneKeySaved(k, v);
    RestoredOne(k, v);
  }

  /** SREM of a set's last member after a full backup: the key is gone from the store but comes back
      with every restore, whatever else runs, until a full backup finishes or the key is written again. */
  lemma EmptiedSetComesBack(k: string, m: string, steps: seq<Step>)
    requires IsExportedKey(k)
    requires var s := OneKeySaved(k, Members({m}));
             && Enabled(s, Write(0, SetRemove(k, {m})))
             && ValidRun(Do(s, Write(0, SetRemove(k, {m}))), steps)
             && LeavesAloneAll(Do(s, Write(0, SetRemove(k, {m}))), steps, k)
    ensures var s := OneKeySaved(k, Members({m}));
            var end := Run(Do(s, Write(0, SetRemove(k, {m}))), steps);
            Reaches(OneKey(k, Members({m})), s) && k !in Do(s, Write(0, SetRemove(k, {m}))).store &&
                !Agrees(end, Image(end), k)
  {
    var start := OneKey(k, Members({m}));
    var s := OneKeySaved(k, Members({m}));
    FullBackupOfOneKey(k, Members({m}));
    InitHolds(start);
    var before :| ValidRun(start, before) && Run(start, before) == s;
    RunKeeps(start, before);
    SilentChangeExact(s, 0, SetRemove(k, {m}), k);
    StepKeeps(s, Write(0, SetRemove(k, {m})));
    ForgottenUntilFull(Do(s, Write(0, SetRemove(k, {m}))), steps, k);
  }

  /** A viewer linked by the script after a full backup is missing from the users set that later
      incrementals restore. */
  lemma LinkedViewerIsMissing(telegramID: string, twitchID: string, profile: map<string, string>, steps: seq<Step>)
    requires telegramID != "0"
    requires var s := OneKeySaved(USERS_KEY, Members({"0"}));
             var link := Write(0, LinkScript(telegramID, twitchID, profile));
             Enabled(s, link) && ValidRun(Do(s, link), steps) && LeavesAloneAll(Do(s, link), steps, USERS_KEY)
    ensures var s := OneKeySaved(USERS_KEY, Members({"0"}));
            var link := Write(0, LinkScript(telegramID, twitchID, profile));
            var end := Run(Do(s, link), steps);
            Reaches(OneKey(USERS_KEY, Members({"0"})), s) && telegramID in MembersAt(Do(s, link).store, USERS_KEY) &&
                !Agrees(end, Image(end), USERS_KEY)
  {
    hide Inv, Forgotten, Run, ValidRun, LeavesAloneAll, Restored;
    var start := OneKey(USERS_KEY, Members({"0"}));
    var s := OneKeySaved(USERS_KEY, Members({"0"}));
    var link := Write(0, LinkScript(telegramID, twitchID, profile));
    assert IsExportedKey(USERS_KEY);
    FullBackupOfOneKey(USERS_KEY, Members({"0"}));
    InitHolds(start);
    var before :| ValidRun(start, before) && Run(start, before) == s;
    RunKeeps(start, before);
    SilentChangeExact(s, 0, link.command, USERS_KEY);
    StepKeeps(s, link);
    ForgottenUntilFull(Do(s, link), steps, USERS_KEY);
  }

  /** A write of `k` and the first half of its hook: the key goes on only if the cache does not know it. */
  lemma WriteAndCheck(start: State, s: State, k: string, v: string)
    requires IsExportedKey(k) && Reaches(start, s) && s.writers == map[] && !(s.job.full && s.job.phase == Dumping)
    ensures var unmarked := if IsMarked(s.track.dirtyMarks, s.track.gen, k) then {} else {k};
            Reaches(start, s.(store := s.store[k := Text(v)],
                writers := map[0 := Writer(Checked, s.track.gen, unmarked, {})]))
  {
    hide Reaches;
    var none: set<string> := {};
    assert ExportedOf({k}) == {k} && none + {k} == {k} && none + none == none && s.gap + none == s.gap &&
        s.gapNow + none == s.gapNow;
    var s1 := s.(store := s.store[k := Text(v)], writers := map[0 := Writer(Applying, 0, {k}, {})]);
    assert Do(s, Write(0, SetText(k, v))) == s1;
    ReachesNext(start, s, Write(0, SetText(k, v)));
    ReachesNext(start, s1, CheckMarks(0));
    var unmarked := if IsMarked(s.track.dirtyMarks, s.track.gen, k) then {} else {k};
    assert DoCheck(s1, 0).writers[0].dirty == unmarked && DoCheck(s1, 0).writers[0].deleted == {};
    assert DoCheck(s1, 0).writers == map[0 := Writer(Checked, s.track.gen, unmarked, {})];
  }

  /** The second half, every call succeeding. */
  lemma AddAndRecord(start: State, s: State, keys: set<string>)
    requires Reaches(start, s) && s.writers == map[0 := Writer(Checked, s.track.gen, keys, {})]
    ensures Reaches(start, s.(writers := map[], lost := s.lost - keys,
                              track := s.track.(liveDirty := s.track.liveDirty + keys,
                                  dirtyMarks := Mark(s.track.dirtyMarks, keys, s.track.gen))))
  {
    hide Reaches;
    var none: set<string> := {};
    assert s.track.liveDeleted + none == s.track.liveDeleted &&
        Mark(s.track.deletedMarks, none, s.track.gen) == s.track.deletedMarks;
    ReachesNext(start, s, AddDirty(0, true));
    var s1 := DoAddDirty(s, 0, true);
    ReachesNext(start, s1, AddDeleted(0, true));
    var s2 := DoAddDeleted(s1, 0, true);
    ReachesNext(start, s2, RecordMarks(0));
    assert s2.writers - {0} == map[];
  }

  /** After the full backup of value `a`, a marked write and a rotation that fails; the value is now `c`. */
  function HiddenWrite(k: string, a: string, c: string): State {
    State(map[k := Text(c)], Tracking({}, {}, 2, map[k := 2], map[]), map[],
          Job(Idle, false, 2, 0, {}, {}, {}, None, [KeyEntry(k, Text(a))]),
          Archive(Some(1), 0, [BackupObject(1, true, Some(1), [KeyEntry(k, Text(a))])]), 0, 10, {k}, {}, {k})
  }

  lemma RotationLosesMark(k: string, a: string, b: string)
    requires IsExportedKey(k)
    ensures Reaches(OneKey(k, Text(a)), HiddenWrite(k, a, b))
  {
    var start, s := OneKey(k, Text(a)), OneKeySaved(k, Text(a));
    FullBackupOfOneKey(k, Text(a));
    hide Reaches, FullDue, IsExportedKey;
    WriteAndCheck(start, s, k, b);
    AddAndRecord(start, s.(store := map[k := Text(b)], writers := map[0 := Writer(Checked, 2, {k}, {})]), {k});
    var s1 := s.(store := map[k := Text(b)], track := Tracking({k}, {}, 2, map[k := 2], map[]));
    StartIncremental(start, s1);
    var s2 := s1.(job := s1.job.(phase := Started, full := false, run := 2));
    ReachesNext(start, s2, RotateDirty);
    ReachesNext(start, DoRotateDirty(s2), RotationFails);
    assert DoRotationFails(DoRotateDirty(s2)) == HiddenWrite(k, a, b);
  }

  /** The second write goes through its whole hook without an error and leaves no mark: the cache skips it. */
  lemma FailedRotationHidesWrite(k: string, a: string, b: string, c: string)
    requires IsExportedKey(k)
    ensures var end := HiddenWrite(k, a, c);
            && Reaches(OneKey(k, Text(a)), HiddenWrite(k, a, b)) && Reaches(HiddenWrite(k, a, b), end)
            && IsMarked(end.track.dirtyMarks, end.track.gen, k) && Stranded(end, k) && (c != a ==> Forgotten(end, k))
  {
    var s, end := HiddenWrite(k, a, b), HiddenWrite(k, a, c);
    RotationLosesMark(k, a, b);
    ReachesSelf(s);
    WriteAndCheck(s, s, k, c);
    AddAndRecord(s, s.(store := map[k := Text(c)], writers := map[0 := Writer(Checked, 2, {}, {})]), {});
    assert s.(store := map[k := Text(c)]) == end;
    hide Reaches, Forgotten, Stranded;
    HiddenIsForgotten(k, a, c);
  }

  lemma HiddenIsForgotten(k: string, a: string, c: string)
    ensures Stranded(HiddenWrite(k, a, c), k) && (c != a ==> Forgotten(HiddenWrite(k, a, c), k))
  {
    RestoredOne(k, Text(a));
    hide Restored;
    assert Get(Image(HiddenWrite(k, a, c)), k) == Some(Text(a));
  }

  lemma StartIncremental(start: State, s: State)
    requires Reaches(start, s) && s.job.phase == Idle && s.now == 0 && s.interval == 10 && s.archive.base.Some? &&
              s.archive.baseAt == 0
    ensures Reaches(start, s.(job := s.job.(phase := Started, full := false, run := s.job.run + 1, startedAt := 0)))
  {
    assert Do(s, StartRun(0)) ==
        s.(job := s.job.(phase := Started, full := false, run := s.job.run + 1, startedAt := 0));
    ReachesNext(start, s, StartRun(0));
  }

  /** Nor does the next incremental have it, or anything else short of a full backup or one more write. */
  lemma HiddenWriteStaysMissing(k: string, a: string, c: string, steps: seq<Step>)
    requires IsExportedKey(k) && c != a && ValidRun(HiddenWrite(k, a, c), steps) &&
              LeavesAloneAll(HiddenWrite(k, a, c), steps, k)
    ensures var end := Run(HiddenWrite(k, a, c), steps);
            Get(end.store, k) == Some(Text(c)) && Get(Image(end), k) == Some(Text(a))
  {
    var start, s := OneKey(k, Text(a)), HiddenWrite(k, a, c);
    RotationLosesMark(k, a, c);
    FailedRotationHidesWrite(k, a, c, c);
    InitHolds(start);
    var before :| ValidRun(start, before) && Run(start, before) == s;
    RunKeeps(start, before);
    ForgottenUntilFull(s, steps, k);
  }

  /** A run in which the next incremental is uploaded and finished, empty, and nothing is left marked. */
  lemma EmptyIncrementalFinishes(k: string, a: string, c: string)
    requires IsExportedKey(k) && c != a
    ensures exists end :: && Reaches(HiddenWrite(k, a, c), end)
                          && end.archive.objects == HiddenWrite(k, a, c).archive.objects +
                              [BackupObject(3, false, Some(1), [])]
                          && Quiescent(end) && Get(end.store, k) == Some(Text(c)) && Get(Image(end), k) == Some(Text(a))
  {
    var s := HiddenWrite(k, a, c);
    hide Reaches, FullDue, IsExportedKey, Restored;
    ReachesSelf(s);
    StartIncremental(s, s);
    var s1 := s.(job := s.job.(phase := Started, run := 3));
    ReachesNext(s, s1, RotateDirty);
    var s2 := DoRotateDirty(s1);
    ReachesNext(s, s2, RotateDeleted);
    var s3 := DoRotateDeleted(s2);
    ReachesNext(s, s3, BumpGeneration);
    var s4 := DoBump(s3);
    ReachesNext(s, s4, BeginExport);
    var s5 := DoBeginExport(s4);
    assert s5.job.todo == {};
    ReachesNext(s, s5, BeginTombstones);
    var s6 := DoBeginTombstones(s5);
    assert s6.job.todo == {};
    ReachesNext(s, s6, Upload);
    var s7 := DoUpload(s6);
    ReachesNext(s, s7, Finish(true));
    var end := DoFinish(s7, true);
    AppendObject(s.archive.objects, BackupObject(3, false, Some(1), []), 1);
    RestoredOne(k, Text(a));
    assert Image(end) == map[k := Text(a)];
  }
}
