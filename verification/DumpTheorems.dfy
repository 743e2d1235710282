/** What a rebuilt member set is worth, over every run of the dump protocol. */
module DumpTheorems {
  import opened RedisCommands
  import opened DumpConvergence

  /** The start: no dump, nobody between the two steps, and `stale` is exactly today's drift. */
  ghost predicate Start(s: State) {
    && s.handling == [] && s.dump == None
    && s.stale == Changed(ApplyAll(s.dest, s.queue), s.upstream)
    && forall m :: QueueTrue(s, m)
  }

  /** The set the store will hold once the events under way have arrived. */
  function Arriving(s: State): set<string> {
    ApplyAll(s.dest, s.queue)
  }

  lemma StartHolds(s: State)
    requires Start(s)
    ensures Inv(s)
  {
    forall m
      ensures Sound(s, m)
    {
      ApplyAllMember(s.dest, s.queue, m);
      assert QueueTrue(s, m);
    }
  }

  /** Whatever the interleaving, the store is right about every member not counted as stale. */
  lemma AgreesOutsideStale(start: State, steps: seq<Step>)
    requires Start(start) && ValidRun(start, steps)
    ensures forall m :: m !in Run(start, steps).stale ==>
              (m in Arriving(Run(start, steps)) <==> m in Run(start, steps).upstream)
  {
    StartHolds(start);
    RunKeeps(start, steps);
    var s := Run(start, steps);
    forall m | m !in s.stale
      ensures m in Arriving(s) <==> m in s.upstream
    {
      assert Sound(s, m);
      ApplyAllMember(s.dest, s.queue, m);
    }
  }

  // ----- Runs without a race -----

  /**
   Steps that cannot spoil the dump under way: no event is lost, none is between its two steps when
   a journal is opened or taken, none that the replay would overrule arrives before the replay, and
   nothing else writes the set once the dump has been renamed onto it.
   */
  predicate Benign(s: State, step: Step)
    requires Enabled(s, step)
  {
    match step
    case Lose => false
    case Begin => s.handling == []
    case Take => s.handling == []
    case Deliver => In(s, Taken) ==> LastOp(s.dump.value.log, s.queue[0].member) != Some(!s.queue[0].add)
    case Overwrite(_) => !In(s, Renamed) && !In(s, Taken)
    case Replay(done) => done == 2
    case _ => true
  }

  predicate BenignRun(s: State, steps: seq<Step>)
    requires ValidRun(s, steps)
    decreases |steps|
  {
    steps == [] || (Benign(s, steps[0]) && BenignRun(Do(s, steps[0]), steps[1..]))
  }

  /** No member is at risk in the dump under way. */
  predicate Unspoiled(s: State) {
    s.dump.Some? ==> s.staleNow == {}
  }

  lemma {:induction false} BenignEndsClean(s: State, steps: seq<Step>)
    requires Unspoiled(s) && ValidRun(s, steps) && BenignRun(s, steps)
    requires steps != [] && steps[|steps| - 1] == Replay(2)
    ensures Run(s, steps).stale == {}
    decreases |steps|
  {
    var t := Do(s, steps[0]);
    if |steps| == 1 {
      assert Run(s, steps) == Run(t, []);
    } else {
      UnspoiledKept(s, steps[0]);
      assert steps[1..][|steps| - 2] == steps[|steps| - 1];
      BenignEndsClean(t, steps[1..]);
    }
  }

  lemma UnspoiledKept(s: State, step: Step)
    requires Unspoiled(s) && Enabled(s, step) && Benign(s, step)
    ensures Unspoiled(Do(s, step))
  {
    assert s.dump.Some? ==> In(s, Reading) || In(s, Renamed) || In(s, Taken);
  }

  /**
   Self-healing: however far the stored set had drifted, a dump that ends without a race leaves
   exactly the upstream set, up to events that are still on their way.
   */
  lemma CleanDumpConverges(start: State, before: seq<Step>, steps: seq<Step>)
    requires Start(start) && ValidRun(start, before) && ValidRun(Run(start, before), steps)
    requires |steps| >= 2 && steps[0] == Begin && steps[|steps| - 1] == Replay(2)
    requires BenignRun(Run(start, before), steps)
    ensures var end := Run(Run(start, before), steps);
            Arriving(end) == end.upstream && (end.queue == [] ==> end.dest == end.upstream)
  {
    StartHolds(start);
    RunKeeps(start, before);
    var s := Run(start, before);
    RunKeeps(s, steps);
    var t, end := Do(s, Begin), Run(s, steps);
    assert Unspoiled(t);
    assert steps[1..][|steps| - 2] == steps[|steps| - 1];
    BenignEndsClean(t, steps[1..]);
    forall m
      ensures m in Arriving(end) <==> m in end.upstream
    {
      assert Sound(end, m);
      ApplyAllMember(end.dest, end.queue, m);
    }
    assert end.queue == [] ==> Arriving(end) == end.dest;
  }

  // ----- Runs whose only race is with the replay -----

  /** As `Benign`, but events may also arrive between the take and the replay, whatever they say. */
  predicate RacesReplay(s: State, step: Step)
    requires Enabled(s, step)
  {
    match step
    case Lose => false
    case Begin => s.handling == []
    case Take => s.handling == []
    case Overwrite(_) => !In(s, Renamed) && !In(s, Taken)
    case Replay(done) => done == 2
    case _ => true
  }

  predicate RacesReplayAll(s: State, steps: seq<Step>)
    requires ValidRun(s, steps)
    decreases |steps|
  {
    steps == [] || (RacesReplay(s, steps[0]) && RacesReplayAll(Do(s, steps[0]), steps[1..]))
  }

  function NextOpposed(s: State, step: Step, sofar: set<string>): set<string>
    requires Enabled(s, step)
  {
    match step
    case Begin => {}
    case Deliver =>
      var e := s.queue[0];
      if In(s, Taken) && LastOp(s.dump.value.log, e.member) == Some(!e.add) then sofar + {e.member}
      else sofar - {e.member}
    case _ => sofar
  }

  /**
   The members whose last event since the newest dump began came after its take and says the opposite
   of its journal: something the run's steps tell without a look at the upstream set.
   */
  function Opposed(s: State, steps: seq<Step>, sofar: set<string>): set<string>
    requires ValidRun(s, steps)
    decreases |steps|
  {
    if steps == [] then sofar else Opposed(Do(s, steps[0]), steps[1..], NextOpposed(s, steps[0], sofar))
  }

  predicate Contradicts(log: seq<Entry>, dest: set<string>, m: string) {
    LastOp(log, m).Some? && LastOp(log, m).value != (m in dest)
  }

  /** Exactly the opposed members are at risk in the dump under way, and the stored set is still right about them. */
  predicate OnlyOpposed(s: State, opposed: set<string>) {
    s.dump.Some? ==>
      && s.staleNow == opposed
      && (opposed != {} ==> In(s, Taken))
      && forall m :: m in opposed ==> m !in s.stale && Contradicts(s.dump.value.log, s.dest, m)
  }

  lemma OpposedStep(s: State, step: Step, sofar: set<string>)
    requires OnlyOpposed(s, sofar) && Enabled(s, step) && RacesReplay(s, step)
    ensures OnlyOpposed(Do(s, step), NextOpposed(s, step, sofar))
  {
    hide LastOp, ApplyAll;
    assert s.dump.Some? ==> In(s, Reading) || In(s, Renamed) || In(s, Taken);
  }

  /** The store is right about the member, once what is on its way has arrived. */
  predicate Right(s: State, m: string) {
    m in Arriving(s) <==> m in s.upstream
  }

  /** What the replay makes of one member. */
  lemma OpposedMember(s: State, opposed: set<string>, m: string)
    requires Sound(s, m) && OnlyOpposed(s, opposed) && In(s, Taken)
    ensures Right(DoReplay(s, 2), m) <==> m !in opposed || m in MembersOf(s.queue)
  {
    var log := s.dump.value.log;
    ReplayIsApplyAll(s.dest, log);
    ApplyAllMember(s.dest, log, m);
    ApplyAllMember(ApplyAll(s.dest, log), s.queue, m);
    LastOpMember(s.queue, m);
    hide LastOp, ApplyAll;
  }

  lemma {:induction false} OpposedAtReplay(s: State, steps: seq<Step>, sofar: set<string>)
    requires Inv(s) && OnlyOpposed(s, sofar) && ValidRun(s, steps) && RacesReplayAll(s, steps)
    requires steps != [] && steps[|steps| - 1] == Replay(2)
    ensures var end := Run(s, steps);
            forall m :: Right(end, m) <==> m !in Opposed(s, steps, sofar) || m in MembersOf(end.queue)
    decreases |steps|
  {
    var t := Do(s, steps[0]);
    if |steps| == 1 {
      assert Run(s, steps) == Run(t, []) && Opposed(s, steps, sofar) == Opposed(t, [], sofar);
      assert steps[1..] == [] && steps[0] == Replay(2);
      assert t == DoReplay(s, 2) && NextOpposed(s, steps[0], sofar) == sofar;
      forall m
        ensures Right(t, m) <==> m !in sofar || m in MembersOf(t.queue)
      {
        assert Sound(s, m);
        OpposedMember(s, sofar, m);
      }
    } else {
      hide Right, MembersOf;
      OpposedStep(s, steps[0], sofar);
      StepKeeps(s, steps[0]);
      assert steps[1..][|steps| - 2] == steps[|steps| - 1];
      OpposedAtReplay(t, steps[1..], NextOpposed(s, steps[0], sofar));
      assert Run(s, steps) == Run(t, steps[1..]);
      assert Opposed(s, steps, sofar) == Opposed(t, steps[1..], NextOpposed(s, steps[0], sofar));
      hide Right, Run, Opposed, MembersOf, Inv;
    }
  }

  lemma BeginUnopposed(s: State)
    requires s.handling == []
    ensures OnlyOpposed(Do(s, Begin), {})
  {
    assert Do(s, Begin).staleNow == {};
  }

  lemma RightEverywhere(s: State, opposed: set<string>)
    requires forall m :: Right(s, m) <==> m !in opposed || m in MembersOf(s.queue)
    ensures Arriving(s) == s.upstream <==> opposed <= MembersOf(s.queue)
  {
    if opposed <= MembersOf(s.queue) {
      forall m
        ensures m in Arriving(s) <==> m in s.upstream
      {
        assert Right(s, m);
      }
    } else {
      var m :| m in opposed && m !in MembersOf(s.queue);
      assert !Right(s, m);
    }
  }

  /**
   Exactly when a dump raced by events ends right: it leaves the upstream set, up to events on their
   way, if and only if nobody's last event came between take and replay against the journal, except
   members about whom another event is still to arrive.
   */
  lemma RacedDumpExact(start: State, before: seq<Step>, steps: seq<Step>)
    requires Start(start) && ValidRun(start, before) && ValidRun(Run(start, before), steps)
    requires |steps| >= 2 && steps[0] == Begin && steps[|steps| - 1] == Replay(2)
    requires RacesReplayAll(Run(start, before), steps)
    ensures var s := Run(start, before);
            var end := Run(s, steps);
            Arriving(end) == end.upstream <==> Opposed(s, steps, {}) <= MembersOf(end.queue)
  {
    StartHolds(start);
    RunKeeps(start, before);
    var s := Run(start, before);
    var t := Do(s, Begin);
    StepKeeps(s, Begin);
    assert RacesReplay(s, Begin);
    BeginUnopposed(s);
    assert steps[1..][|steps| - 2] == steps[|steps| - 1];
    OpposedAtReplay(t, steps[1..], {});
    assert Run(s, steps) == Run(t, steps[1..]) && Opposed(s, steps, {}) == Opposed(t, steps[1..], {});
    RightEverywhere(Run(s, steps), Opposed(s, steps, {}));
  }

  // ----- The two windows the code leaves open, exactly -----

  /** An event between `take` and the replay survives unless the journal says the opposite. */
  lemma RacedReplayExact(s: State)
    requires Inv(s) && In(s, Taken) && Enabled(s, Deliver)
    requires s.queue[0].member !in MembersOf(s.queue[1..])
    ensures var e, end := s.queue[0], DoReplay(DoRecord(DoDeliver(s)), 2);
            (e.member in end.dest <==> e.member in end.upstream) <==>
            LastOp(s.dump.value.log, e.member) != Some(!e.add)
  {
    var e, log := s.queue[0], s.dump.value.log;
    var end := DoReplay(DoRecord(DoDeliver(s)), 2);
    assert Sound(s, e.member);
    DeliverKeepsStore(s, e.member);
    LastOpMember(s.queue[1..], e.member);
    ReplayIsApplyAll(DoDeliver(s).dest, log);
    ApplyAllMember(DoDeliver(s).dest, log, e.member);
  }

  /** An event applied but not yet recorded at `take` survives unless dump and journal disagree with it. */
  lemma UnrecordedExact(s: State)
    requires Inv(s) && In(s, Renamed) && |s.handling| == 1 && s.handling[0].member !in s.staleNow
    requires s.handling[0].member !in MembersOf(s.queue)
    ensures var e, end := s.handling[0], DoReplay(DoRecord(DoTake(s)), 2);
            (e.member in end.dest <==> e.member in end.upstream) <==>
            Settle(LastOp(s.dump.value.log, e.member), e.member in s.dest) == e.add
  {
    var e, log := s.handling[0], s.dump.value.log;
    assert Sound(s, e.member);
    LastOpMember(s.queue, e.member);
    LastOpConcat(log + s.handling, s.queue, e.member);
    LastOpConcat(log, s.handling, e.member);
    OneHandled(s, e.member);
    ReplayIsApplyAll(s.dest, log);
    ApplyAllMember(s.dest, log, e.member);
  }

  const JOIN := Entry("ann", true)
  const LEAVE := Entry("ann", false)

  /** Nobody subscribed and nothing under way. */
  const EMPTY := State({}, [], {}, [], None, {}, {})

  /** The dump has taken its journal, which holds ann's subscription, when ann's leaving arrives. */
  const RACING := State({}, [LEAVE], {}, [], Some(Dump(Taken, {}, {}, [JOIN])), {"ann"}, {})

  lemma EmptyStarts()
    ensures Start(EMPTY)
  {
    assert ApplyAll({}, []) == {};
    forall m
      ensures QueueTrue(EMPTY, m)
    {
    }
  }

  lemma RacingReached()
    returns (steps: seq<Step>)
    ensures ValidRun(EMPTY, steps) && Run(EMPTY, steps) == RACING
  {
    var s1 := State({}, [], {}, [], Some(Dump(Reading, {}, {}, [])), {}, {});
    var s2 := State({"ann"}, [JOIN], {}, [], Some(Dump(Reading, {}, {}, [])), {}, {});
    var s3 := State({"ann"}, [], {"ann"}, [JOIN], Some(Dump(Reading, {}, {}, [])), {}, {});
    var s4 := State({"ann"}, [], {"ann"}, [], Some(Dump(Reading, {}, {}, [JOIN])), {}, {});
    var s5 := State({"ann"}, [], {}, [], Some(Dump(Renamed, {}, {}, [JOIN])), {"ann"}, {});
    var s6 := State({"ann"}, [], {}, [], Some(Dump(Taken, {}, {}, [JOIN])), {"ann"}, {});
    assert Do(EMPTY, Begin) == s1;
    var none: set<string> := {};
    assert none - {"ann"} == none && none + {"ann"} == {"ann"};
    assert Do(s1, Change(JOIN)) == s2;
    assert Do(s2, Deliver) == s3;
    assert Do(s3, Record) == s4;
    assert MembersOf([JOIN]) == {"ann"} && Do(s4, RenameTmp) == s5;
    assert Do(s5, Take) == s6;
    assert Do(s6, Change(LEAVE)) == RACING;
    var tail := Then(s4, RenameTmp, Then(s5, Take, Then(s6, Change(LEAVE), [])));
    steps := Then(EMPTY, Begin, Then(s1, Change(JOIN), Then(s2, Deliver, Then(s3, Record, tail))));
  }

  lemma RacingSpoils()
    returns (steps: seq<Step>)
    ensures ValidRun(RACING, steps)
    ensures Run(RACING, steps) == State({}, [], {"ann"}, [], None, {"ann"}, {"ann"})
  {
    LastOpOne(JOIN, "ann");
    var t1 := State({}, [], {}, [LEAVE], RACING.dump, {}, {"ann"});
    var t2 := t1.(handling := []);
    var t3 := State({}, [], {"ann"}, [], None, {"ann"}, {"ann"});
    assert Do(RACING, Deliver) == t1;
    assert Do(t1, Record) == t2;
    NetIsLastOperation([JOIN]);
    assert MembersOf([JOIN]) == {"ann"};
    assert Net([JOIN], true) == {"ann"} && Net([JOIN], false) == {};
    assert Do(t2, Replay(2)) == t3;
    steps := Then(RACING, Deliver, Then(t1, Record, Then(t2, Replay(2), [])));
  }

  /** A viewer who subscribes during a dump and leaves just before its replay stays a subscriber. */
  lemma RacedLeaverStays()
    returns (steps: seq<Step>)
    ensures Start(EMPTY) && ValidRun(EMPTY, steps)
    ensures var end := Run(EMPTY, steps);
            end.queue == [] && end.handling == [] && end.dump == None && "ann" in end.dest && "ann" !in end.upstream
  {
    EmptyStarts();
    var before := RacingReached();
    var after := RacingSpoils();
    RunConcat(EMPTY, before, after);
    steps := before + after;
  }

  lemma {:induction false} RunConcat(s: State, a: seq<Step>, b: seq<Step>)
    requires ValidRun(s, a) && ValidRun(Run(s, a), b)
    ensures ValidRun(s, a + b) && Run(s, a + b) == Run(Run(s, a), b)
    decreases |a|
  {
    if a == [] {
      assert a + b == b;
    } else {
      assert (a + b)[1..] == a[1..] + b;
      RunConcat(Do(s, a[0]), a[1..], b);
    }
  }

  function Then(s: State, step: Step, rest: seq<Step>): (steps: seq<Step>)
    requires Enabled(s, step) && ValidRun(Do(s, step), rest)
    ensures ValidRun(s, steps) && Run(s, steps) == Run(Do(s, step), rest)
  {
    assert ([step] + rest)[1..] == rest;
    [step] + rest
  }
}
