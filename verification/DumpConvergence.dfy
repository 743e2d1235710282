/**
 Rebuilding one member set from the upstream pages while its live events keep arriving: the upstream
 set, the events on their way, the stored set, the event handler caught between its two steps, and
 the dump with its journal. Every step of code and environment is a step here.
 */
module DumpConvergence {
  import opened RedisCommands

  // ----- Event logs -----

  datatype Entry = Entry(member: string, add: bool)

  function ApplyOne(s: set<string>, e: Entry): set<string> {
    if e.add then s + {e.member} else s - {e.member}
  }

  function ApplyAll(s: set<string>, log: seq<Entry>): set<string> {
    if log == [] then s else ApplyOne(ApplyAll(s, log[..|log| - 1]), log[|log| - 1])
  }

  function LastOp(log: seq<Entry>, m: string): Option<bool> {
    if log == [] then None
    else if log[|log| - 1].member == m then Some(log[|log| - 1].add)
    else LastOp(log[..|log| - 1], m)
  }

  function MembersOf(log: seq<Entry>): set<string> {
    set e | e in log :: e.member
  }

  /** What `take` returns as a set: the members whose last operation was `add`. */
  function Net(log: seq<Entry>, add: bool): set<string> {
    set m | m in MembersOf(log) && LastOp(log, m) == Some(add)
  }

  function Settle(op: Option<bool>, otherwise: bool): bool {
    match op case Some(b) => b case None => otherwise
  }

  lemma {:induction false} ApplyAllMember(s: set<string>, log: seq<Entry>, m: string)
    ensures m in ApplyAll(s, log) <==> Settle(LastOp(log, m), m in s)
  {
    if log != [] {
      ApplyAllMember(s, log[..|log| - 1], m);
    }
  }

  lemma {:induction false} LastOpConcat(a: seq<Entry>, b: seq<Entry>, m: string)
    ensures LastOp(a + b, m) == if LastOp(b, m).Some? then LastOp(b, m) else LastOp(a, m)
  {
    if b == [] {
      assert a + b == a;
    } else {
      assert (a + b)[..|a + b| - 1] == a + b[..|b| - 1];
      LastOpConcat(a, b[..|b| - 1], m);
    }
  }

  lemma {:induction false} LastOpMember(log: seq<Entry>, m: string)
    ensures LastOp(log, m).Some? <==> m in MembersOf(log)
  {
    if log != [] {
      LastOpMember(log[..|log| - 1], m);
      assert log == log[..|log| - 1] + [log[|log| - 1]];
    }
  }

  lemma NetIsLastOperation(log: seq<Entry>)
    ensures Net(log, true) !! Net(log, false)
    ensures Net(log, true) + Net(log, false) == MembersOf(log)
    ensures forall m, b :: m in Net(log, b) <==> LastOp(log, m) == Some(b)
  {
    forall m
      ensures m in MembersOf(log) <==> LastOp(log, m) == Some(true) || LastOp(log, m) == Some(false)
    {
      LastOpMember(log, m);
      assert LastOp(log, m).Some? ==> LastOp(log, m).value == true || LastOp(log, m).value == false;
    }
  }

  /** The log's last word on a member is to add or to remove it. */
  ghost predicate LastSays(log: seq<Entry>, m: string, add: bool) {
    exists i :: 0 <= i < |log| && log[i] == Entry(m, add) && forall j :: i < j < |log| ==> log[j].member != m
  }

  lemma {:induction false} LastOpExactly(log: seq<Entry>, m: string)
    ensures forall b :: LastOp(log, m) == Some(b) <==> LastSays(log, m, b)
    ensures LastOp(log, m) == None <==> forall e :: e in log ==> e.member != m
  {
    if log != [] {
      var init, last := log[..|log| - 1], log[|log| - 1];
      assert log == init + [last];
      LastOpExactly(init, m);
      if last.member != m {
        SaidBefore(init, last, m);
      } else {
        assert LastSays(log, m, last.add) by { assert log[|log| - 1] == Entry(m, last.add); }
        assert !LastSays(log, m, !last.add);
      }
    }
  }

  lemma SaidBefore(init: seq<Entry>, last: Entry, m: string)
    requires last.member != m
    ensures forall b :: LastSays(init + [last], m, b) <==> LastSays(init, m, b)
  {
    var log := init + [last];
    forall b
      ensures LastSays(log, m, b) <==> LastSays(init, m, b)
    {
      if LastSays(init, m, b) {
        var i :| 0 <= i < |init| && init[i] == Entry(m, b) && forall j :: i < j < |init| ==> init[j].member != m;
        assert log[i] == Entry(m, b) && forall j :: i < j < |log| ==> log[j].member != m;
      }
      if LastSays(log, m, b) {
        var i :| 0 <= i < |log| && log[i] == Entry(m, b) && forall j :: i < j < |log| ==> log[j].member != m;
        assert init[i] == Entry(m, b) && forall j :: i < j < |init| ==> init[j] == log[j];
      }
    }
  }

  /** A replayed set, member by member. */
  lemma ReplayedExactly(dest: set<string>, log: seq<Entry>, done: nat)
    ensures forall m :: m in Replayed(dest, log, done) <==>
              if done >= 2 && LastSays(log, m, false) then false
              else (done >= 1 && LastSays(log, m, true)) || m in dest
  {
    forall m
      ensures m in Net(log, true) <==> LastSays(log, m, true)
      ensures m in Net(log, false) <==> LastSays(log, m, false)
    {
      NetIsLastOperation(log);
      LastOpExactly(log, m);
    }
    hide Net, LastSays;
  }

  /** Events applied one by one leave what each member's last event says. */
  lemma ApplyAllExactly(s: set<string>, log: seq<Entry>, m: string)
    ensures m in ApplyAll(s, log) <==> LastSays(log, m, true) || (m in s && !LastSays(log, m, false))
  {
    ApplyAllMember(s, log, m);
    LastOpExactly(log, m);
    hide LastSays;
    if LastOp(log, m).Some? { assert LastOp(log, m) == Some(true) || LastOp(log, m) == Some(false); }
  }

  /** One SADD and one SREM replay the whole log, in either order. */
  lemma ReplayIsApplyAll(s: set<string>, log: seq<Entry>)
    ensures s + Net(log, true) - Net(log, false) == ApplyAll(s, log)
    ensures s - Net(log, false) + Net(log, true) == ApplyAll(s, log)
  {
    NetIsLastOperation(log);
    forall m
      ensures m in ApplyAll(s, log) <==> m in s + Net(log, true) - Net(log, false)
    {
      ApplyAllMember(s, log, m);
      LastOpMember(log, m);
    }
  }

  // ----- The state machine -----

  datatype Phase = Reading | Renamed | Taken

  /** `owed`: upstream members present all along that no page has returned yet. */
  datatype Dump = Dump(phase: Phase, tmp: set<string>, owed: set<string>, log: seq<Entry>)

  /**
   `handling` is an event applied to the set and not recorded yet. `stale` and `staleNow` are
   bookkeeping: members the stored set, or the set the dump will leave, may be wrong about.
   */
  datatype State = State(
    upstream: set<string>,
    queue: seq<Entry>,
    dest: set<string>,
    handling: seq<Entry>,
    dump: Option<Dump>,
    stale: set<string>,
    staleNow: set<string>)

  datatype Step =
    | Change(e: Entry)
    | Deliver
    | Record
    | Lose
    | Begin
    | ReadPage(ids: set<string>)
    | RenameTmp
    | Take
    | Replay(done: nat)
    | Discard
    | Overwrite(content: set<string>)

  predicate In(s: State, phase: Phase) {
    s.dump.Some? && s.dump.value.phase == phase
  }

  predicate Enabled(s: State, step: Step) {
    match step
    case Change(_) => true
    case Deliver => s.queue != [] && s.handling == []
    case Record => s.handling != []
    case Lose => s.queue != []
    case Begin => true
    case ReadPage(ids) => In(s, Reading) && ids <= s.upstream
    case RenameTmp => In(s, Reading) && s.dump.value.owed == {}
    case Take => In(s, Renamed)
    case Replay(done) => In(s, Taken) && done <= 2
    case Discard => In(s, Reading)
    case Overwrite(_) => true
  }

  function Changed(a: set<string>, b: set<string>): set<string> {
    (a - b) + (b - a)
  }

  function DoChange(s: State, e: Entry): State {
    s.(upstream := ApplyOne(s.upstream, e), queue := s.queue + [e],
       dump := match s.dump
               case None => None
               case Some(d) => Some(d.(owed := d.owed - {e.member})))
  }

  /** After `take` the journal no longer hears events, so its replay may overrule this one. */
  function DoDeliver(s: State): State
    requires Enabled(s, Deliver)
  {
    var e := s.queue[0];
    var overruled := In(s, Taken) && LastOp(s.dump.value.log, e.member) == Some(!e.add);
    s.(queue := s.queue[1..], dest := ApplyOne(s.dest, e), handling := [e],
       stale := s.stale - {e.member},
       staleNow := if overruled then s.staleNow + {e.member} else s.staleNow - {e.member})
  }

  function DoRecord(s: State): State {
    s.(handling := [],
       dump := match s.dump
               case None => None
               case Some(d) => Some(if d.phase == Taken then d else d.(log := d.log + s.handling)))
  }

  function DoLose(s: State): State
    requires Enabled(s, Lose)
  {
    var m := s.queue[0].member;
    s.(queue := s.queue[1..], stale := s.stale + {m}, staleNow := s.staleNow + {m})
  }

  /**
   A new dump supersedes the one in flight, whose late finalize then only overwrites the set. The
   new journal may start with an event whose successor was lost before the dump began.
   */
  function DoBegin(s: State): State {
    var misled := set e | e in s.handling && LastOp(s.queue, e.member) == None &&
        e.add != (e.member in s.upstream) :: e.member;
    s.(dump := Some(Dump(Reading, {}, s.upstream, [])), staleNow := misled)
  }

  function DoReadPage(s: State, ids: set<string>): State
    requires In(s, Reading)
  {
    var d := s.dump.value;
    s.(dump := Some(d.(tmp := d.tmp + ids, owed := d.owed - ids)))
  }

  function DoRename(s: State): State
    requires In(s, Reading)
  {
    var d := s.dump.value;
    s.(dest := d.tmp, dump := Some(d.(phase := Renamed)),
       stale := s.staleNow + MembersOf(d.log + s.handling))
  }

  /** An event applied but not recorded is outside the journal from here on. */
  function DoTake(s: State): State
    requires In(s, Renamed)
  {
    var d := s.dump.value;
    var missed := set e | e in s.handling && (e.member in ApplyAll(s.dest, d.log)) != e.add :: e.member;
    s.(dump := Some(d.(phase := Taken)), staleNow := s.staleNow + missed)
  }

  /** The replay is a plain pipeline: SADD, then SREM; a failure leaves the commands before it. */
  function Replayed(dest: set<string>, log: seq<Entry>, done: nat): set<string> {
    var added := if done >= 1 then dest + Net(log, true) else dest;
    if done >= 2 then added - Net(log, false) else added
  }

  function DoReplay(s: State, done: nat): State
    requires In(s, Taken)
  {
    var log := s.dump.value.log;
    s.(dest := Replayed(s.dest, log, done),
       dump := None,
       stale := s.staleNow + (if done >= 1 then {} else Net(log, true)) + if done >= 2 then {} else Net(log, false))
  }

  /** Anything else that replaces the set: a superseded dump finalizing late, a restore. */
  function DoOverwrite(s: State, content: set<string>): State {
    var spoiled := if In(s, Renamed) || In(s, Taken) then Changed(s.dest, content) else {};
    s.(dest := content, stale := s.stale + Changed(s.dest, content), staleNow := s.staleNow + spoiled)
  }

  function Do(s: State, step: Step): State
    requires Enabled(s, step)
  {
    match step
    case Change(e) => DoChange(s, e)
    case Deliver => DoDeliver(s)
    case Record => DoRecord(s)
    case Lose => DoLose(s)
    case Begin => DoBegin(s)
    case ReadPage(ids) => DoReadPage(s, ids)
    case RenameTmp => DoRename(s)
    case Take => DoTake(s)
    case Replay(done) => DoReplay(s, done)
    case Discard => s.(dump := None)
    case Overwrite(content) => DoOverwrite(s, content)
  }

  predicate ValidRun(s: State, steps: seq<Step>)
    decreases |steps|
  {
    steps == [] || (Enabled(s, steps[0]) && ValidRun(Do(s, steps[0]), steps[1..]))
  }

  function Run(s: State, steps: seq<Step>): State
    requires ValidRun(s, steps)
    decreases |steps|
  {
    if steps == [] then s else Run(Do(s, steps[0]), steps[1..])
  }

  // ----- What holds in every reachable state -----

  /** Whether `m` will be stored once the events in `pend` have been applied to `base`. */
  predicate Predicts(pend: seq<Entry>, base: set<string>, m: string, actual: bool) {
    Settle(LastOp(pend, m), m in base) == actual
  }

  predicate QueueTrue(s: State, m: string) {
    Predicts(s.queue, s.upstream, m, m in s.upstream)
  }

  predicate StoreSound(s: State, m: string) {
    m !in s.stale ==> Predicts(s.queue, s.dest, m, m in s.upstream)
  }

  function DumpBase(s: State): set<string>
    requires s.dump.Some?
  {
    match s.dump.value.phase
    case Reading => s.dump.value.tmp + s.dump.value.owed
    case Renamed => s.dest
    case Taken => ApplyAll(s.dest, s.dump.value.log)
  }

  function DumpPending(s: State): seq<Entry>
    requires s.dump.Some?
  {
    if s.dump.value.phase == Taken then s.queue else s.dump.value.log + s.handling + s.queue
  }

  predicate DumpSound(s: State, m: string) {
    s.dump.Some? && m !in s.staleNow ==> Predicts(DumpPending(s), DumpBase(s), m, m in s.upstream)
  }

  predicate Sound(s: State, m: string) {
    |s.handling| <= 1 && QueueTrue(s, m) && StoreSound(s, m) && DumpSound(s, m)
  }

  ghost predicate Inv(s: State) {
    forall m :: Sound(s, m)
  }

  lemma LastOpOne(e: Entry, m: string)
    ensures LastOp([e], m) == if e.member == m then Some(e.add) else None
  {
    assert [e][..0] == [];
  }

  /** Appending an event to both the prediction and the fact keeps them equal. */
  lemma PredictsChanged(pend: seq<Entry>, e: Entry, base: set<string>, base': set<string>, m: string, actual: bool)
    requires Predicts(pend, base, m, actual) && (m == e.member || (m in base <==> m in base'))
    ensures Predicts(pend + [e], base', m, if e.member == m then e.add else actual)
  {
    LastOpConcat(pend, [e], m);
    LastOpOne(e, m);
  }

  lemma ChangeKeeps(s: State, e: Entry, m: string)
    requires Sound(s, m)
    ensures Sound(DoChange(s, e), m)
  {
    hide LastOp, ApplyAll;
    var t := DoChange(s, e);
    PredictsChanged(s.queue, e, s.upstream, t.upstream, m, m in s.upstream);
    if m !in s.stale {
      PredictsChanged(s.queue, e, s.dest, s.dest, m, m in s.upstream);
    }
    if s.dump.Some? && m !in s.staleNow {
      PredictsChanged(DumpPending(s), e, DumpBase(s), DumpBase(t), m, m in s.upstream);
      assert DumpPending(t) == DumpPending(s) + [e];
    }
  }

  lemma DeliverKeepsStore(s: State, m: string)
    requires Enabled(s, Deliver) && Sound(s, m)
    ensures QueueTrue(DoDeliver(s), m) && StoreSound(DoDeliver(s), m)
    ensures m == s.queue[0].member ==> Settle(LastOp(s.queue[1..], m), s.queue[0].add) == (m in s.upstream)
    ensures m != s.queue[0].member ==> LastOp(s.queue, m) == LastOp(s.queue[1..], m)
  {
    var rest, e := s.queue[1..], s.queue[0];
    assert s.queue == [e] + rest;
    LastOpConcat([e], rest, m);
    LastOpOne(e, m);
  }

  lemma DeliverKeepsTaken(s: State, m: string)
    requires Enabled(s, Deliver) && Sound(s, m) && In(s, Taken)
    ensures DumpSound(DoDeliver(s), m)
  {
    DeliverKeepsStore(s, m);
    ApplyAllMember(s.dest, s.dump.value.log, m);
    ApplyAllMember(DoDeliver(s).dest, s.dump.value.log, m);
    hide ApplyAll, LastOp;
  }

  lemma DeliverKeepsOpen(s: State, m: string)
    requires Enabled(s, Deliver) && Sound(s, m) && s.dump.Some? && s.dump.value.phase != Taken
    ensures DumpSound(DoDeliver(s), m)
  {
    DeliverKeepsStore(s, m);
    var t, e, log := DoDeliver(s), s.queue[0], s.dump.value.log;
    assert log + s.handling + s.queue == log + [e] + t.queue;
    assert DumpPending(s) == DumpPending(t);
    LastOpConcat(log + [e], t.queue, m);
    LastOpConcat(log, [e], m);
    LastOpOne(e, m);
    hide LastOp;
  }

  /** The delivered event is the last word on its member unless a later one is queued. */
  lemma DeliverKeeps(s: State, m: string)
    requires Enabled(s, Deliver) && Sound(s, m)
    ensures Sound(DoDeliver(s), m)
  {
    DeliverKeepsStore(s, m);
    if In(s, Taken) { DeliverKeepsTaken(s, m); } else if s.dump.Some? { DeliverKeepsOpen(s, m); }
    hide LastOp;
  }

  lemma RecordKeeps(s: State, m: string)
    requires Enabled(s, Record) && Sound(s, m)
    ensures Sound(DoRecord(s), m)
  {
    var t := DoRecord(s);
    if s.dump.Some? && s.dump.value.phase != Taken {
      assert t.dump.value.log + t.handling == s.dump.value.log + s.handling;
      assert DumpPending(t) == DumpPending(s);
    }
  }

  lemma LoseKeeps(s: State, m: string)
    requires Enabled(s, Lose) && Sound(s, m)
    ensures Sound(DoLose(s), m)
  {
    var t, e := DoLose(s), s.queue[0];
    assert s.queue == [e] + t.queue;
    LastOpConcat([e], t.queue, m);
    LastOpOne(e, m);
    if s.dump.Some? && s.dump.value.phase != Taken {
      LastOpConcat(s.dump.value.log + s.handling, s.queue, m);
      LastOpConcat(s.dump.value.log + s.handling, t.queue, m);
    }
  }

  lemma OneHandled(s: State, m: string)
    requires |s.handling| <= 1
    ensures LastOp(s.handling, m) == if s.handling != [] && s.handling[0].member == m then Some(s.handling[0].add)
              else None
    ensures forall e :: e in s.handling <==> s.handling == [e]
  {
    if s.handling != [] {
      assert s.handling == [s.handling[0]];
      LastOpOne(s.handling[0], m);
    }
  }

  lemma BeginKeeps(s: State, m: string)
    requires Enabled(s, Begin) && Sound(s, m)
    ensures Sound(DoBegin(s), m)
  {
    assert DumpPending(DoBegin(s)) == s.handling + s.queue;
    LastOpConcat(s.handling, s.queue, m);
    OneHandled(s, m);
  }

  lemma ReadPageKeeps(s: State, ids: set<string>, m: string)
    requires Enabled(s, ReadPage(ids)) && Sound(s, m)
    ensures Sound(DoReadPage(s, ids), m)
  {
    assert DumpPending(DoReadPage(s, ids)) == DumpPending(s);
  }

  lemma RenameKeeps(s: State, m: string)
    requires Enabled(s, RenameTmp) && Sound(s, m)
    ensures Sound(DoRename(s), m)
  {
    var t, log := DoRename(s), s.dump.value.log;
    assert DumpPending(t) == DumpPending(s);
    LastOpConcat(log + s.handling, s.queue, m);
    LastOpMember(log + s.handling, m);
  }

  lemma TakeKeeps(s: State, m: string)
    requires Enabled(s, Take) && Sound(s, m)
    ensures Sound(DoTake(s), m)
  {
    var t, log := DoTake(s), s.dump.value.log;
    LastOpConcat(log + s.handling, s.queue, m);
    LastOpConcat(log, s.handling, m);
    LastOpConcat(s.handling, s.queue, m);
    ApplyAllMember(s.dest, log, m);
    OneHandled(s, m);
  }

  lemma ReplayKeeps(s: State, done: nat, m: string)
    requires Enabled(s, Replay(done)) && Sound(s, m)
    ensures Sound(DoReplay(s, done), m)
  {
    var log := s.dump.value.log;
    ReplayIsApplyAll(s.dest, log);
    NetIsLastOperation(log);
    ApplyAllMember(s.dest, log, m);
  }

  lemma OverwriteKeeps(s: State, content: set<string>, m: string)
    requires Sound(s, m)
    ensures Sound(DoOverwrite(s, content), m)
  {
    var t := DoOverwrite(s, content);
    if s.dump.Some? {
      assert DumpPending(t) == DumpPending(s);
      ApplyAllMember(s.dest, s.dump.value.log, m);
      ApplyAllMember(content, s.dump.value.log, m);
    }
  }

  lemma StepKeeps(s: State, step: Step)
    requires Inv(s) && Enabled(s, step)
    ensures Inv(Do(s, step))
  {
    forall m
      ensures Sound(Do(s, step), m)
    {
      assert Sound(s, m);
      match step
      case Change(e) => ChangeKeeps(s, e, m);
      case Deliver => DeliverKeeps(s, m);
      case Record => RecordKeeps(s, m);
      case Lose => LoseKeeps(s, m);
      case Begin => BeginKeeps(s, m);
      case ReadPage(ids) => ReadPageKeeps(s, ids, m);
      case RenameTmp => RenameKeeps(s, m);
      case Take => TakeKeeps(s, m);
      case Replay(done) => ReplayKeeps(s, done, m);
      case Discard =>
      case Overwrite(content) => OverwriteKeeps(s, content, m);
    }
  }

  lemma {:induction false} RunKeeps(s: State, steps: seq<Step>)
    requires Inv(s) && ValidRun(s, steps)
    ensures Inv(Run(s, steps))
    decreases |steps|
  {
    if steps != [] {
      StepKeeps(s, steps[0]);
      RunKeeps(Do(s, steps[0]), steps[1..]);
    }
  }
}
