/**
 Background removal of members: a job keeps its remaining targets, a pass kicks the first few of
 them, and failed targets go back to the front until their attempts run out.
 */
module CleanupJob {
  import opened RedisCommands

  datatype Target = Target(chat: int, user: int, attempts: nat, maxAttempts: nat)

  datatype Status = Pending | Done | Exhausted

  datatype Job = Job(status: Status, total: int, succeeded: int, targets: seq<Target>)

  const MAX_TARGETS_PER_RUN := 50
  const MAX_ATTEMPTS := 3

  /** What one pass meets: who is a god, and which kicks (by position) fail. */
  datatype Pass = Pass(gods: set<int>, fails: nat -> bool)

  datatype Outcome = God | Kicked | GivenUp | Retried

  function OutcomeAt(ts: seq<Target>, pass: Pass, i: nat): Outcome
    requires i < |ts|
  {
    if ts[i].user in pass.gods then God
    else if !pass.fails(i) then Kicked
    else if ts[i].attempts + 1 >= ts[i].maxAttempts then GivenUp
    else Retried
  }

  function CountOf(ts: seq<Target>, pass: Pass, n: nat, o: Outcome): nat
    requires n <= |ts|
  {
    if n == 0 then 0 else CountOf(ts, pass, n - 1, o) + if OutcomeAt(ts, pass, n - 1) == o then 1 else 0
  }

  /** The targets among the first `n` that will be tried again. */
  function Retries(ts: seq<Target>, pass: Pass, n: nat): seq<Target>
    requires n <= |ts|
  {
    if n == 0 then []
    else Retries(ts, pass, n - 1) +
         if OutcomeAt(ts, pass, n - 1) == Retried then [ts[n - 1].(attempts := ts[n - 1].attempts + 1)] else []
  }

  /** A limit that is not positive, or beyond the targets, means all of them. */
  function Limit(maxTargets: int, n: nat): nat {
    if maxTargets <= 0 || maxTargets > n then n else maxTargets
  }

  function Remaining(ts: seq<Target>, pass: Pass, maxTargets: int): seq<Target> {
    Retries(ts, pass, Limit(maxTargets, |ts|)) + ts[Limit(maxTargets, |ts|)..]
  }

  function GivenUpIn(ts: seq<Target>, pass: Pass, maxTargets: int): nat {
    CountOf(ts, pass, Limit(maxTargets, |ts|), GivenUp)
  }

  // ----- Work left, in kicks -----

  /** How many kicks a target can still cost: at least one, even past its last attempt. */
  function Budget(t: Target): nat {
    if t.attempts + 1 < t.maxAttempts then t.maxAttempts - t.attempts else 1
  }

  /** The budget of the targets about one member of one chat, or of all targets. */
  function BudgetOf(ts: seq<Target>, who: Option<(int, int)>): nat {
    if ts == [] then 0
    else BudgetOf(ts[..|ts| - 1], who) + if Concerns(ts[|ts| - 1], who) then Budget(ts[|ts| - 1]) else 0
  }

  predicate Concerns(t: Target, who: Option<(int, int)>) {
    who == None || who == Some((t.chat, t.user))
  }

  /** Kick calls of a pass about `who`: everyone it reaches who is not a god. */
  function KicksOf(ts: seq<Target>, pass: Pass, n: nat, who: Option<(int, int)>): nat
    requires n <= |ts|
  {
    if n == 0 then 0
    else KicksOf(ts, pass, n - 1, who) +
         if OutcomeAt(ts, pass, n - 1) != God && Concerns(ts[n - 1], who) then 1 else 0
  }

  lemma {:induction false} BudgetConcat(a: seq<Target>, b: seq<Target>, who: Option<(int, int)>)
    ensures BudgetOf(a + b, who) == BudgetOf(a, who) + BudgetOf(b, who)
  {
    if b == [] {
      assert a + b == a;
    } else {
      assert (a + b)[..|a + b| - 1] == a + b[..|b| - 1];
      BudgetConcat(a, b[..|b| - 1], who);
    }
  }

  lemma BudgetOfOne(t: Target, who: Option<(int, int)>)
    ensures BudgetOf([t], who) == if Concerns(t, who) then Budget(t) else 0
  {
    assert [t][..0] == [];
  }

  lemma {:induction false} OutcomesAddUp(ts: seq<Target>, pass: Pass, n: nat)
    requires n <= |ts|
    ensures n == CountOf(ts, pass, n, God) + CountOf(ts, pass, n, Kicked) + CountOf(ts, pass, n, GivenUp) +
              |Retries(ts, pass, n)|
  {
    if n > 0 {
      OutcomesAddUp(ts, pass, n - 1);
    }
  }

  /** Each kick of a pass is paid for by its target's budget. */
  lemma {:induction false} KicksArePaid(ts: seq<Target>, pass: Pass, n: nat, who: Option<(int, int)>)
    requires n <= |ts|
    ensures KicksOf(ts, pass, n, who) + BudgetOf(Retries(ts, pass, n), who) <= BudgetOf(ts[..n], who)
  {
    if n > 0 {
      KicksArePaid(ts, pass, n - 1, who);
      assert ts[..n][..n - 1] == ts[..n - 1];
      var t := ts[n - 1];
      if OutcomeAt(ts, pass, n - 1) == Retried {
        var again := t.(attempts := t.attempts + 1);
        BudgetConcat(Retries(ts, pass, n - 1), [again], who);
        BudgetOfOne(again, who);
      } else {
        assert Retries(ts, pass, n) == Retries(ts, pass, n - 1);
      }
    }
  }

  /** Every target a pass reaches lowers the total budget, gods included. */
  lemma {:induction false} PassLowersBudget(ts: seq<Target>, pass: Pass, n: nat)
    requires n <= |ts|
    ensures n + BudgetOf(Retries(ts, pass, n), None) <= BudgetOf(ts[..n], None)
  {
    if n > 0 {
      PassLowersBudget(ts, pass, n - 1);
      assert ts[..n][..n - 1] == ts[..n - 1];
      var t := ts[n - 1];
      if OutcomeAt(ts, pass, n - 1) == Retried {
        var again := t.(attempts := t.attempts + 1);
        BudgetConcat(Retries(ts, pass, n - 1), [again], None);
        BudgetOfOne(again, None);
      } else {
        assert Retries(ts, pass, n) == Retries(ts, pass, n - 1);
      }
    }
  }

  // ----- One pass over a job -----

  function AfterPass(job: Job, pass: Pass, maxTargets: int): Job {
    var limit := Limit(maxTargets, |job.targets|);
    var left := Remaining(job.targets, pass, maxTargets);
    Job(if left != [] then job.status else if GivenUpIn(job.targets, pass, maxTargets) > 0 then Exhausted else Done,
        job.total - CountOf(job.targets, pass, limit, God),
        job.succeeded + CountOf(job.targets, pass, limit, Kicked),
        left)
  }

  // ----- One pass without its own names -----

  /** The positions below `n` with this outcome. */
  ghost function At(ts: seq<Target>, pass: Pass, n: nat, o: Outcome): set<nat>
    requires n <= |ts|
  {
    set i: nat | i < n && OutcomeAt(ts, pass, i) == o
  }

  lemma {:induction false} CountIsSize(ts: seq<Target>, pass: Pass, n: nat, o: Outcome)
    requires n <= |ts|
    ensures CountOf(ts, pass, n, o) == |At(ts, pass, n, o)|
  {
    hide OutcomeAt;
    if n == 0 {
      assert At(ts, pass, 0, o) == {};
    } else {
      CountIsSize(ts, pass, n - 1, o);
      var before := At(ts, pass, n - 1, o);
      if OutcomeAt(ts, pass, n - 1) == o {
        assert At(ts, pass, n, o) == before + {n - 1};
      } else {
        assert At(ts, pass, n, o) == before;
      }
    }
  }

  function KickedAt(ts: seq<Target>, pass: Pass, n: nat, chat: int, user: int): set<nat>
    requires n <= |ts|
  {
    set i: nat | i < n && ts[i].user !in pass.gods && ts[i].chat == chat && ts[i].user == user
  }

  /** How often a pass kicks one member of one chat. */
  lemma {:induction false} KicksAreSize(ts: seq<Target>, pass: Pass, n: nat, chat: int, user: int)
    requires n <= |ts|
    ensures KicksOf(ts, pass, n, Some((chat, user))) == |KickedAt(ts, pass, n, chat, user)|
  {
    if n == 0 {
      assert KickedAt(ts, pass, 0, chat, user) == {};
    } else {
      KicksAreSize(ts, pass, n - 1, chat, user);
      var before := KickedAt(ts, pass, n - 1, chat, user);
      if ts[n - 1].user !in pass.gods && ts[n - 1].chat == chat && ts[n - 1].user == user {
        assert KickedAt(ts, pass, n, chat, user) == before + {n - 1};
      } else {
        assert KickedAt(ts, pass, n, chat, user) == before;
      }
    }
  }

  predicate TriedAgain(ts: seq<Target>, pass: Pass, i: nat)
    requires i < |ts|
  {
    ts[i].user !in pass.gods && pass.fails(i) && ts[i].attempts + 1 < ts[i].maxAttempts
  }

  /** `ks` are the places of the targets tried again, ascending, and `l` those targets. */
  ghost predicate IndexList(ts: seq<Target>, pass: Pass, n: nat, ks: seq<nat>, l: seq<Target>)
    requires n <= |ts|
  {
    && (forall a :: 0 <= a < |ks| ==> ks[a] < n && TriedAgain(ts, pass, ks[a]))
    && (forall a, b :: 0 <= a < b < |ks| ==> ks[a] < ks[b])
    && (forall i: nat :: i < n && TriedAgain(ts, pass, i) ==> i in ks)
    && |l| == |ks| && forall j :: 0 <= j < |ks| ==> l[j] == ts[ks[j]].(attempts := ts[ks[j]].attempts + 1)
  }

  /** The targets tried again are those whose kick failed with attempts left, in their order. */
  lemma {:induction false} RetriesAre(ts: seq<Target>, pass: Pass, n: nat) returns (ks: seq<nat>)
    requires n <= |ts|
    ensures IndexList(ts, pass, n, ks, Retries(ts, pass, n))
  {
    ks := [];
    if n > 0 {
      assert OutcomeAt(ts, pass, n - 1) == Retried <==> TriedAgain(ts, pass, n - 1);
      var before := RetriesAre(ts, pass, n - 1);
      ks := AppendIndex(ts, pass, n, before);
    }
  }

  lemma AppendIndex(ts: seq<Target>, pass: Pass, n: nat, before: seq<nat>) returns (ks: seq<nat>)
    requires 0 < n <= |ts| && (OutcomeAt(ts, pass, n - 1) == Retried <==> TriedAgain(ts, pass, n - 1))
    requires IndexList(ts, pass, n - 1, before, Retries(ts, pass, n - 1))
    ensures IndexList(ts, pass, n, ks, Retries(ts, pass, n))
  {
    hide OutcomeAt, TriedAgain;
    if OutcomeAt(ts, pass, n - 1) == Retried {
      ks := before + [n - 1];
    } else {
      ks := before;
      assert Retries(ts, pass, n) == Retries(ts, pass, n - 1);
    }
  }

  lemma CountsSpelledOut(ts: seq<Target>, pass: Pass, n: nat)
    requires n <= |ts|
    ensures CountOf(ts, pass, n, God) == |set i: nat | i < n && ts[i].user in pass.gods|
    ensures CountOf(ts, pass, n, Kicked) == |set i: nat | i < n && ts[i].user !in pass.gods && !pass.fails(i)|
    ensures CountOf(ts, pass, n, GivenUp) > 0 <==>
              exists i: nat :: i < n && ts[i].user !in pass.gods && pass.fails(i) &&
                               ts[i].attempts + 1 >= ts[i].maxAttempts
  {
    CountIsSize(ts, pass, n, God);
    CountIsSize(ts, pass, n, Kicked);
    CountIsSize(ts, pass, n, GivenUp);
    assert At(ts, pass, n, God) == set i: nat | i < n && ts[i].user in pass.gods;
    assert At(ts, pass, n, Kicked) == set i: nat | i < n && ts[i].user !in pass.gods && !pass.fails(i);
    if i: nat :| i < n && ts[i].user !in pass.gods && pass.fails(i) && ts[i].attempts + 1 >= ts[i].maxAttempts {
      assert i in At(ts, pass, n, GivenUp);
    } else {
      assert At(ts, pass, n, GivenUp) == {};
    }
  }

  /** What a pass does, from the targets and the pass alone. */
  lemma PassSpelledOut(job: Job, pass: Pass, maxTargets: int) returns (ks: seq<nat>)
    ensures var ts, end := job.targets, AfterPass(job, pass, maxTargets);
            var limit := if maxTargets <= 0 || maxTargets > |ts| then |ts| else maxTargets;
            && Limit(maxTargets, |ts|) == limit
            && job.total - end.total == |set i: nat | i < limit && ts[i].user in pass.gods|
            && end.succeeded - job.succeeded == |set i: nat | i < limit && ts[i].user !in pass.gods && !pass.fails(i)|
            && (forall c, u :: KicksOf(ts, pass, limit, Some((c, u))) == |set i: nat | i < limit &&
                                 ts[i].user !in pass.gods && ts[i].chat == c && ts[i].user == u|)
            && end.status == if end.targets != [] then job.status
                             else if exists i: nat :: i < limit && ts[i].user !in pass.gods && pass.fails(i) &&
                                                      ts[i].attempts + 1 >= ts[i].maxAttempts then Exhausted
                             else Done
    ensures var ts, end := job.targets, AfterPass(job, pass, maxTargets);
            var limit := if maxTargets <= 0 || maxTargets > |ts| then |ts| else maxTargets;
            && (forall a :: 0 <= a < |ks| ==> ks[a] < limit && TriedAgain(ts, pass, ks[a]))
            && (forall a, b :: 0 <= a < b < |ks| ==> ks[a] < ks[b])
            && (forall i: nat :: i < limit && TriedAgain(ts, pass, i) ==> i in ks)
            && |end.targets| == |ks| + |ts| - limit && end.targets[|ks|..] == ts[limit..]
            && forall j :: 0 <= j < |ks| ==> end.targets[j] == ts[ks[j]].(attempts := ts[ks[j]].attempts + 1)
  {
    hide CountOf, Retries, KicksOf, OutcomeAt, TriedAgain;
    var limit := Limit(maxTargets, |job.targets|);
    CountsSpelledOut(job.targets, pass, limit);
    forall c, u {
      KicksAreSize(job.targets, pass, limit, c, u);
    }
    ks := RetriesAre(job.targets, pass, limit);
  }

  /** One pass; the contract speaks of the targets and the pass alone. */
  method ProcessJob(job: Job, pass: Pass, maxTargetsPerRun: int)
    returns (job': Job, done: bool, kicks: multiset<(int, int)>)
    ensures job' == AfterPass(job, pass, maxTargetsPerRun) && done == (job'.targets == [])
    ensures var ts := job.targets;
            var limit := if maxTargetsPerRun <= 0 || maxTargetsPerRun > |ts| then |ts| else maxTargetsPerRun;
            && job.total - job'.total == |set i: nat | i < limit && ts[i].user in pass.gods|
            && job'.succeeded - job.succeeded == |set i: nat | i < limit && ts[i].user !in pass.gods && !pass.fails(i)|
            && (forall c, u :: kicks[(c, u)] == |set i: nat | i < limit &&
                                 ts[i].user !in pass.gods && ts[i].chat == c && ts[i].user == u|)
            && job'.status == if job'.targets != [] then job.status
                              else if exists i: nat :: i < limit && ts[i].user !in pass.gods && pass.fails(i) &&
                                                       ts[i].attempts + 1 >= ts[i].maxAttempts then Exhausted
                              else Done
    ensures var ts := job.targets;
            var limit := if maxTargetsPerRun <= 0 || maxTargetsPerRun > |ts| then |ts| else maxTargetsPerRun;
            exists ks: seq<nat> ::
              && (forall a :: 0 <= a < |ks| ==> ks[a] < limit && TriedAgain(ts, pass, ks[a]))
              && (forall a, b :: 0 <= a < b < |ks| ==> ks[a] < ks[b])
              && (forall i: nat :: i < limit && TriedAgain(ts, pass, i) ==> i in ks)
              && |job'.targets| == |ks| + |ts| - limit && job'.targets[|ks|..] == ts[limit..]
              && forall j :: 0 <= j < |ks| ==> job'.targets[j] == ts[ks[j]].(attempts := ts[ks[j]].attempts + 1)
  {
    hide *;
    job', done, kicks := WalkTargets(job, pass, maxTargetsPerRun);
    ghost var ks := PassSpelledOut(job, pass, maxTargetsPerRun);
  }

  method WalkTargets(job: Job, pass: Pass, maxTargetsPerRun: int)
    returns (job': Job, done: bool, kicks: multiset<(int, int)>)
    ensures forall who :: kicks[who] == KicksOf(job.targets, pass, Limit(maxTargetsPerRun, |job.targets|), Some(who))
    ensures job' == AfterPass(job, pass, maxTargetsPerRun) && done == (job'.targets == [])
  {
    var ts, limit, total := job.targets, Limit(maxTargetsPerRun, |job.targets|), job.total;
    var remaining: seq<Target>, succeeded, permanentFailures := [], 0, 0;
    kicks := multiset{};
    for i := 0 to limit
      invariant remaining == Retries(ts, pass, i)
      invariant total == job.total - CountOf(ts, pass, i, God)
      invariant forall who :: kicks[who] == KicksOf(ts, pass, i, Some(who))
      invariant succeeded == CountOf(ts, pass, i, Kicked) && permanentFailures == CountOf(ts, pass, i, GivenUp)
    {
      var target := ts[i];
      if target.user in pass.gods {
        total := total - 1;
        continue;
      }
      kicks := kicks + multiset{(target.chat, target.user)};
      if pass.fails(i) {
        target := target.(attempts := target.attempts + 1);
        if target.attempts >= target.maxAttempts {
          permanentFailures := permanentFailures + 1;
        } else {
          remaining := remaining + [target];
        }
      } else {
        succeeded := succeeded + 1;
      }
    }
    remaining := remaining + ts[limit..];
    done := remaining == [];
    job' := Job(job.status, total, job.succeeded + succeeded, remaining);
    if done {
      job' := job'.(status := if permanentFailures > 0 then Exhausted else Done);
    }
  }

  lemma PassConserves(job: Job, pass: Pass, maxTargets: int)
    ensures var end := AfterPass(job, pass, maxTargets);
            end.total - end.succeeded - |end.targets| ==
            job.total - job.succeeded - |job.targets| + GivenUpIn(job.targets, pass, maxTargets)
  {
    OutcomesAddUp(job.targets, pass, Limit(maxTargets, |job.targets|));
  }

  lemma PassPays(ts: seq<Target>, pass: Pass, maxTargets: int, who: Option<(int, int)>)
    ensures KicksOf(ts, pass, Limit(maxTargets, |ts|), who) +
              BudgetOf(Remaining(ts, pass, maxTargets), who) <= BudgetOf(ts, who)
    ensures Limit(maxTargets, |ts|) + BudgetOf(Remaining(ts, pass, maxTargets), None) <= BudgetOf(ts, None)
  {
    var n := Limit(maxTargets, |ts|);
    assert ts == ts[..n] + ts[n..];
    BudgetConcat(ts[..n], ts[n..], who);
    BudgetConcat(ts[..n], ts[n..], None);
    BudgetConcat(Retries(ts, pass, n), ts[n..], who);
    BudgetConcat(Retries(ts, pass, n), ts[n..], None);
    KicksArePaid(ts, pass, n, who);
    PassLowersBudget(ts, pass, n);
  }

  // ----- All saved passes of one job -----

  /** A job that is no longer pending is not listed, so further passes leave it alone. */
  function AfterPasses(job: Job, passes: seq<Pass>, maxTargets: int): Job
    decreases |passes|
  {
    if passes == [] || job.status != Pending then job
    else AfterPasses(AfterPass(job, passes[0], maxTargets), passes[1..], maxTargets)
  }

  function GivenUpOver(job: Job, passes: seq<Pass>, maxTargets: int): nat
    decreases |passes|
  {
    if passes == [] || job.status != Pending then 0
    else
      var next := AfterPass(job, passes[0], maxTargets);
      GivenUpIn(job.targets, passes[0], maxTargets) + GivenUpOver(next, passes[1..], maxTargets)
  }

  function KicksOver(job: Job, passes: seq<Pass>, maxTargets: int, who: Option<(int, int)>): nat
    decreases |passes|
  {
    if passes == [] || job.status != Pending then 0
    else KicksOf(job.targets, passes[0], Limit(maxTargets, |job.targets|), who) +
         KicksOver(AfterPass(job, passes[0], maxTargets), passes[1..], maxTargets, who)
  }

  /** A job as it is created. */
  function NewJob(targets: seq<Target>): Job {
    Job(Pending, |targets|, 0, targets)
  }

  lemma {:induction false} PassesConserve(job: Job, passes: seq<Pass>, maxTargets: int)
    ensures var end := AfterPasses(job, passes, maxTargets);
            end.total - end.succeeded - |end.targets| ==
            job.total - job.succeeded - |job.targets| + GivenUpOver(job, passes, maxTargets)
    ensures job.status == Pending || job.targets == [] ==>
              AfterPasses(job, passes, maxTargets).status == Pending ||
                  AfterPasses(job, passes, maxTargets).targets == []
    decreases |passes|
  {
    if passes != [] && job.status == Pending {
      PassConserves(job, passes[0], maxTargets);
      PassesConserve(AfterPass(job, passes[0], maxTargets), passes[1..], maxTargets);
    }
  }

  /** Nobody is lost: every target is removed, still to do, or given up; the final failures are those given up. */
  lemma TargetsAreConserved(targets: seq<Target>, passes: seq<Pass>, maxTargets: int)
    ensures var end := AfterPasses(NewJob(targets), passes, maxTargets);
            && end.total == end.succeeded + GivenUpOver(NewJob(targets), passes, maxTargets) + |end.targets|
            && (end.status != Pending ==> end.total - end.succeeded == GivenUpOver(NewJob(targets), passes, maxTargets))
  {
    PassesConserve(NewJob(targets), passes, maxTargets);
  }

  /** The gods that all passes come across. */
  ghost function GodsReached(job: Job, passes: seq<Pass>, maxTargets: int): nat
    decreases |passes|
  {
    if passes == [] || job.status != Pending then 0
    else
      var ts, pass := job.targets, passes[0];
      |set i: nat | i < |ts| && (maxTargets <= 0 || i < maxTargets) && ts[i].user in pass.gods| +
      GodsReached(AfterPass(job, pass, maxTargets), passes[1..], maxTargets)
  }

  /** The kicks of all passes that did not fail. */
  ghost function KicksThatWorked(job: Job, passes: seq<Pass>, maxTargets: int): nat
    decreases |passes|
  {
    if passes == [] || job.status != Pending then 0
    else
      var ts, pass := job.targets, passes[0];
      |set i: nat | i < |ts| && (maxTargets <= 0 || i < maxTargets) && ts[i].user !in pass.gods && !pass.fails(i)| +
      KicksThatWorked(AfterPass(job, pass, maxTargets), passes[1..], maxTargets)
  }

  lemma PassTotals(job: Job, pass: Pass, maxTargets: int)
    ensures var ts, end := job.targets, AfterPass(job, pass, maxTargets);
            && job.total - end.total ==
               |set i: nat | i < |ts| && (maxTargets <= 0 || i < maxTargets) && ts[i].user in pass.gods|
            && end.succeeded - job.succeeded ==
               |set i: nat | i < |ts| && (maxTargets <= 0 || i < maxTargets) &&
                             ts[i].user !in pass.gods && !pass.fails(i)|
  {
    var ts := job.targets;
    var limit := Limit(maxTargets, |ts|);
    CountsSpelledOut(ts, pass, limit);
    assert (set i: nat | i < limit && ts[i].user in pass.gods) ==
           set i: nat | i < |ts| && (maxTargets <= 0 || i < maxTargets) && ts[i].user in pass.gods;
    assert (set i: nat | i < limit && ts[i].user !in pass.gods && !pass.fails(i)) ==
           set i: nat | i < |ts| && (maxTargets <= 0 || i < maxTargets) && ts[i].user !in pass.gods && !pass.fails(i);
  }

  lemma {:induction false} SuccessesWithinKicks(ts: seq<Target>, pass: Pass, n: nat)
    requires n <= |ts|
    ensures CountOf(ts, pass, n, Kicked) <= KicksOf(ts, pass, n, None)
  {
    if n > 0 { SuccessesWithinKicks(ts, pass, n - 1); }
  }

  /** Over all saved passes the total falls by exactly the gods reached, and a success is a kick that
      did not fail. */
  lemma {:induction false} TotalsExactly(job: Job, passes: seq<Pass>, maxTargets: int)
    ensures var end := AfterPasses(job, passes, maxTargets);
            && job.total - end.total == GodsReached(job, passes, maxTargets)
            && end.succeeded - job.succeeded == KicksThatWorked(job, passes, maxTargets)
            && end.succeeded - job.succeeded <= KicksOver(job, passes, maxTargets, None)
    decreases |passes|
  {
    hide AfterPass, CountOf, KicksOf;
    if passes != [] && job.status == Pending {
      PassTotals(job, passes[0], maxTargets);
      PassSuccesses(job, passes[0], maxTargets);
      TotalsExactly(AfterPass(job, passes[0], maxTargets), passes[1..], maxTargets);
    }
  }

  lemma PassSuccesses(job: Job, pass: Pass, maxTargets: int)
    ensures AfterPass(job, pass, maxTargets).succeeded - job.succeeded <=
            KicksOf(job.targets, pass, Limit(maxTargets, |job.targets|), None)
  {
    SuccessesWithinKicks(job.targets, pass, Limit(maxTargets, |job.targets|));
  }

  lemma {:induction false} KicksStayInBudget(job: Job, passes: seq<Pass>, maxTargets: int, who: Option<(int, int)>)
    ensures KicksOver(job, passes, maxTargets, who) +
              BudgetOf(AfterPasses(job, passes, maxTargets).targets, who) <= BudgetOf(job.targets, who)
    decreases |passes|
  {
    if passes != [] && job.status == Pending {
      PassPays(job.targets, passes[0], maxTargets, who);
      KicksStayInBudget(AfterPass(job, passes[0], maxTargets), passes[1..], maxTargets, who);
    }
  }

  predicate DistinctMembers(ts: seq<Target>) {
    forall i, j :: 0 <= i < j < |ts| ==> (ts[i].chat, ts[i].user) != (ts[j].chat, ts[j].user)
  }

  lemma {:induction false} BudgetOfMember(ts: seq<Target>, who: (int, int), most: nat)
    requires DistinctMembers(ts) && forall t :: t in ts ==> Budget(t) <= most
    ensures BudgetOf(ts, Some(who)) <= most
    ensures (forall t :: t in ts ==> (t.chat, t.user) != who) ==> BudgetOf(ts, Some(who)) == 0
  {
    if ts != [] {
      BudgetOfMember(ts[..|ts| - 1], who, most);
      assert ts[|ts| - 1] in ts;
    }
  }

  // ----- Passes whose save fails -----

  /** One pass as it really went: when its save fails, the next one starts from the job as stored. */
  datatype Try = Try(pass: Pass, saved: bool)

  function AfterTry(job: Job, t: Try, maxTargets: int): Job {
    if t.saved then AfterPass(job, t.pass, maxTargets) else job
  }

  function AfterTries(job: Job, tries: seq<Try>, maxTargets: int): Job
    decreases |tries|
  {
    if tries == [] || job.status != Pending then job
    else AfterTries(AfterTry(job, tries[0], maxTargets), tries[1..], maxTargets)
  }

  function KicksInTries(job: Job, tries: seq<Try>, maxTargets: int, who: Option<(int, int)>): nat
    decreases |tries|
  {
    if tries == [] || job.status != Pending then 0
    else KicksOf(job.targets, tries[0].pass, Limit(maxTargets, |job.targets|), who) +
         KicksInTries(AfterTry(job, tries[0], maxTargets), tries[1..], maxTargets, who)
  }

  function Unsaved(tries: seq<Try>): nat {
    if tries == [] then 0 else Unsaved(tries[1..]) + if tries[0].saved then 0 else 1
  }

  /** The targets about `who`. */
  function Entries(ts: seq<Target>, who: Option<(int, int)>): nat {
    if ts == [] then 0 else Entries(ts[..|ts| - 1], who) + if Concerns(ts[|ts| - 1], who) then 1 else 0
  }

  lemma {:induction false} EntriesConcat(a: seq<Target>, b: seq<Target>, who: Option<(int, int)>)
    ensures Entries(a + b, who) == Entries(a, who) + Entries(b, who)
  {
    if b == [] {
      assert a + b == a;
    } else {
      assert (a + b)[..|a + b| - 1] == a + b[..|b| - 1];
      EntriesConcat(a, b[..|b| - 1], who);
    }
  }

  lemma {:induction false} PassEntries(ts: seq<Target>, pass: Pass, n: nat, who: Option<(int, int)>)
    requires n <= |ts|
    ensures KicksOf(ts, pass, n, who) <= Entries(ts[..n], who)
    ensures Entries(Retries(ts, pass, n), who) <= Entries(ts[..n], who)
  {
    if n > 0 {
      PassEntries(ts, pass, n - 1, who);
      assert ts[..n][..n - 1] == ts[..n - 1];
      var again := ts[n - 1].(attempts := ts[n - 1].attempts + 1);
      EntriesConcat(Retries(ts, pass, n - 1), [again], who);
      assert [again][..0] == [];
      if OutcomeAt(ts, pass, n - 1) != Retried {
        assert Retries(ts, pass, n) == Retries(ts, pass, n - 1);
      }
    }
  }

  /** A pass kicks a target once at most, and leaves no more of them. */
  lemma EntriesShrink(ts: seq<Target>, pass: Pass, maxTargets: int, who: Option<(int, int)>)
    ensures KicksOf(ts, pass, Limit(maxTargets, |ts|), who) <= Entries(ts, who)
    ensures Entries(Remaining(ts, pass, maxTargets), who) <= Entries(ts, who)
  {
    var n := Limit(maxTargets, |ts|);
    assert ts == ts[..n] + ts[n..];
    PassEntries(ts, pass, n, who);
    EntriesConcat(ts[..n], ts[n..], who);
    EntriesConcat(Retries(ts, pass, n), ts[n..], who);
  }

  /** A failed save costs a target at most one more kick, because its pass is done again. */
  lemma {:induction false} TriesStayInBudget(job: Job, tries: seq<Try>, maxTargets: int, who: Option<(int, int)>)
    requires Entries(job.targets, who) <= 1
    ensures KicksInTries(job, tries, maxTargets, who) + BudgetOf(AfterTries(job, tries, maxTargets).targets, who) <=
            BudgetOf(job.targets, who) + Unsaved(tries)
    decreases |tries|
  {
    if tries != [] && job.status == Pending {
      PassPays(job.targets, tries[0].pass, maxTargets, who);
      EntriesShrink(job.targets, tries[0].pass, maxTargets, who);
      TriesStayInBudget(AfterTry(job, tries[0], maxTargets), tries[1..], maxTargets, who);
    }
  }

  lemma {:induction false} OneEntry(ts: seq<Target>, who: (int, int))
    requires DistinctMembers(ts)
    ensures Entries(ts, Some(who)) <= 1
    ensures (forall t :: t in ts ==> (t.chat, t.user) != who) ==> Entries(ts, Some(who)) == 0
  {
    if ts != [] {
      OneEntry(ts[..|ts| - 1], who);
      assert ts[|ts| - 1] in ts;
    }
  }

  /** No member of a chat is kicked more often than the attempts allow and saves fail, together. */
  lemma KicksAreBounded(targets: seq<Target>, tries: seq<Try>, maxTargets: int, who: (int, int), most: nat)
    requires DistinctMembers(targets) && most >= 1 && forall t :: t in targets ==> t.maxAttempts <= most
    ensures KicksInTries(NewJob(targets), tries, maxTargets, Some(who)) <= most + Unsaved(tries)
  {
    BudgetOfMember(targets, who, most);
    OneEntry(targets, who);
    TriesStayInBudget(NewJob(targets), tries, maxTargets, Some(who));
  }

  /** `n` passes in which every kick fails. */
  function Failing(n: nat, saved: bool): (r: seq<Try>)
    ensures |r| == n
  {
    if n == 0 then [] else [Try(FAILING_PASS, saved)] + Failing(n - 1, saved)
  }

  lemma OneKick(t: Target, pass: Pass)
    requires t.user !in pass.gods
    ensures KicksOf([t], pass, 1, Some((t.chat, t.user))) == 1
  {
    assert KicksOf([t], pass, 0, Some((t.chat, t.user))) == 0;
  }

  lemma OneFailure(job: Job, t: Target, pass: Pass, maxTargets: int)
    requires job.targets == [t] && job.status == Pending && pass.gods == {} && pass.fails(0)
    ensures var end := AfterPass(job, pass, maxTargets);
            if t.attempts + 1 < t.maxAttempts
                then end.targets == [t.(attempts := t.attempts + 1)] && end.status == Pending
            else end.status != Pending
  {
    assert Retries([t], pass, 0) == [];
    assert Remaining([t], pass, maxTargets) == Retries([t], pass, 1);
  }

  lemma {:induction false} FailingKicks(job: Job, t: Target, unsaved: nat, maxTargets: int)
    requires job.targets == [t] && job.status == Pending
    ensures var tries := Failing(unsaved, false) + Failing(Budget(t), true);
            && KicksInTries(job, tries, maxTargets, Some((t.chat, t.user))) == Budget(t) + unsaved
            && Unsaved(tries) == unsaved
    decreases unsaved + Budget(t)
  {
    var tries := Failing(unsaved, false) + Failing(Budget(t), true);
    OneKick(t, tries[0].pass);
    if unsaved > 0 {
      assert tries[1..] == Failing(unsaved - 1, false) + Failing(Budget(t), true);
      FailingKicks(job, t, unsaved - 1, maxTargets);
    } else {
      OneFailure(job, t, tries[0].pass, maxTargets);
      assert tries[1..] == Failing(0, false) + Failing(Budget(t) - 1, true);
      var next := AfterPass(job, tries[0].pass, maxTargets);
      if t.attempts + 1 < t.maxAttempts {
        FailingKicks(next, t.(attempts := t.attempts + 1), 0, maxTargets);
      } else {
        assert tries[1..] == [];
      }
    }
  }

  /** The bound is met: a member whose kicks all fail is kicked that often. */
  lemma KicksReachBound(chat: int, user: int, most: nat, unsaved: nat, maxTargets: int)
    requires most >= 1
    ensures var t := Target(chat, user, 0, most);
            exists tries :: Unsaved(tries) == unsaved &&
                            KicksInTries(NewJob([t]), tries, maxTargets, Some((chat, user))) == most + unsaved
  {
    FailingKicks(NewJob([Target(chat, user, 0, most)]), Target(chat, user, 0, most), unsaved, maxTargets);
  }

  // ----- How many passes a job takes -----

  predicate BudgetsAtMost(ts: seq<Target>, most: nat) {
    forall t :: t in ts ==> Budget(t) <= most
  }

  lemma {:induction false} TotalBudget(ts: seq<Target>, most: nat)
    requires BudgetsAtMost(ts, most)
    ensures BudgetOf(ts, None) <= most * |ts|
  {
    if ts != [] {
      assert forall t :: t in ts[..|ts| - 1] ==> t in ts;
      assert ts[|ts| - 1] in ts;
      TotalBudget(ts[..|ts| - 1], most);
    }
  }

  /** A target that is tried again has lost one kick. */
  lemma {:induction false} RetriesShrink(ts: seq<Target>, pass: Pass, n: nat, most: nat)
    requires n <= |ts| && BudgetsAtMost(ts, most)
    ensures |Retries(ts, pass, n)| <= n
    ensures forall t :: t in Retries(ts, pass, n) ==> Budget(t) < most
  {
    if n > 0 {
      RetriesShrink(ts, pass, n - 1, most);
      assert ts[n - 1] in ts;
    }
  }

  lemma RemainingShrinks(ts: seq<Target>, pass: Pass, maxTargets: int, most: nat)
    requires BudgetsAtMost(ts, most)
    ensures BudgetsAtMost(Remaining(ts, pass, maxTargets), most)
    ensures |ts| <= maxTargets && most > 0 ==> BudgetsAtMost(Remaining(ts, pass, maxTargets), most - 1)
    ensures |Remaining(ts, pass, maxTargets)| <= |ts|
  {
    RetriesShrink(ts, pass, Limit(maxTargets, |ts|), most);
  }

  /** The quotient, counted down. */
  function Rounds(budget: nat, limit: nat): nat
    requires limit > 0
  {
    if budget < limit then 0 else 1 + Rounds(budget - limit, limit)
  }

  lemma {:induction false} RoundsFit(budget: nat, limit: nat)
    requires limit > 0
    ensures Rounds(budget, limit) * limit <= budget < Rounds(budget, limit) * limit + limit
  {
    if budget >= limit {
      RoundsFit(budget - limit, limit);
      var n := Rounds(budget - limit, limit);
      assert (1 + n) * limit == limit + n * limit;
    }
  }

  lemma {:induction false} TimesGrow(a: nat, b: nat, limit: nat)
    requires a < b
    ensures a * limit + limit <= b * limit
    decreases b
  {
    assert b * limit == (b - 1) * limit + limit;
    if a < b - 1 {
      TimesGrow(a, b - 1, limit);
    }
  }

  lemma QuotientFits(x: nat, limit: nat)
    requires limit > 0
    ensures (x / limit) * limit <= x < (x / limit) * limit + limit
  {
    assert x == limit * (x / limit) + x % limit;
  }

  lemma RoundsIsQuotient(budget: nat, limit: nat)
    requires limit > 0
    ensures Rounds(budget, limit) == budget / limit
  {
    RoundsFit(budget, limit);
    QuotientFits(budget, limit);
    var n, q: nat := Rounds(budget, limit), budget / limit;
    if n < q {
      TimesGrow(n, q, limit);
    } else if q < n {
      TimesGrow(q, n, limit);
    }
  }

  lemma {:induction false} RoundsGrow(a: nat, b: nat, limit: nat)
    requires limit > 0 && a <= b
    ensures Rounds(a, limit) <= Rounds(b, limit)
    ensures a + limit <= b ==> Rounds(a, limit) + 1 <= Rounds(b, limit)
    decreases b
  {
    if a >= limit {
      RoundsGrow(a - limit, b - limit, limit);
    }
    if a + limit <= b && b - limit >= limit {
      RoundsGrow(a, b - limit, limit);
    }
  }

  /** Full passes lower the budget by the limit; short ones lower every attempt. */
  lemma {:induction false} EndsWithin(job: Job, passes: seq<Pass>, maxTargets: nat, most: nat)
    requires maxTargets > 0 && BudgetsAtMost(job.targets, most) && job.status == Pending
    requires |passes| >= Rounds(BudgetOf(job.targets, None), maxTargets) + most && |passes| >= 1
    ensures AfterPasses(job, passes, maxTargets).status != Pending
    decreases |passes|
  {
    var ts, pass := job.targets, passes[0];
    var next := AfterPass(job, pass, maxTargets);
    PassPays(ts, pass, maxTargets, None);
    RemainingShrinks(ts, pass, maxTargets, most);
    hide Remaining, BudgetOf, GivenUpIn, CountOf, Rounds;
    if next.targets != [] {
      assert next.targets[0] in next.targets && Budget(next.targets[0]) >= 1;
      RoundsGrow(BudgetOf(next.targets, None), BudgetOf(ts, None), maxTargets);
      if |ts| <= maxTargets {
        EndsWithin(next, passes[1..], maxTargets, most - 1);
      } else {
        EndsWithin(next, passes[1..], maxTargets, most);
      }
    }
  }

  /** N targets end in floor(A * N / limit) + A passes, whichever kicks fail. */
  lemma JobEnds(targets: seq<Target>, passes: seq<Pass>, maxTargets: nat, most: nat)
    requires maxTargets > 0 && most >= 1 && forall t :: t in targets ==> t.maxAttempts <= most
    requires |passes| >= most * |targets| / maxTargets + most
    ensures AfterPasses(NewJob(targets), passes, maxTargets).status != Pending
    ensures AfterPasses(NewJob(targets), passes, maxTargets).targets == []
  {
    var all := most * |targets|;
    TotalBudget(targets, most);
    RoundsGrow(BudgetOf(targets, None), all, maxTargets);
    RoundsIsQuotient(all, maxTargets);
    EndsWithin(NewJob(targets), passes, maxTargets, most);
    PassesConserve(NewJob(targets), passes, maxTargets);
  }

  /** Three attempts each and fifty targets a pass. */
  lemma JobEndsInProduction(targets: seq<Target>, passes: seq<Pass>)
    requires forall t :: t in targets ==> t.maxAttempts == MAX_ATTEMPTS
    requires |passes| >= 3 * |targets| / 50 + 3
    ensures AfterPasses(NewJob(targets), passes, MAX_TARGETS_PER_RUN).status != Pending
  {
    JobEnds(targets, passes, MAX_TARGETS_PER_RUN, MAX_ATTEMPTS);
  }

  // ----- When the final status tells the truth -----

  predicate SameBudget(ts: seq<Target>, budget: nat) {
    forall t :: t in ts ==> Budget(t) == budget
  }

  /** The final status says exhausted exactly when some target was given up, in whichever pass. */
  predicate TruthfulStatus(job: Job, passes: seq<Pass>, maxTargets: int) {
    var end := AfterPasses(job, passes, maxTargets);
    end.status != Pending ==> (end.status == Exhausted <==> GivenUpOver(job, passes, maxTargets) > 0)
  }

  /** Targets with equal attempts left are given up together or not at all. */
  lemma {:induction false} GivenUpTogether(ts: seq<Target>, pass: Pass, n: nat, budget: nat)
    requires n <= |ts| && SameBudget(ts, budget)
    ensures budget == 1 ==> Retries(ts, pass, n) == []
    ensures budget > 1 ==> CountOf(ts, pass, n, GivenUp) == 0 && SameBudget(Retries(ts, pass, n), budget - 1)
    ensures |Retries(ts, pass, n)| <= n
  {
    if n > 0 {
      GivenUpTogether(ts, pass, n - 1, budget);
      assert ts[n - 1] in ts;
    }
  }

  /** When every pass reaches all of a fresh job's targets, only the last one can give any up. */
  lemma {:induction false} TruthfulWithinLimit(job: Job, passes: seq<Pass>, maxTargets: int, budget: nat)
    requires job.status == Pending && SameBudget(job.targets, budget) && budget >= 1
    requires maxTargets <= 0 || |job.targets| <= maxTargets
    ensures TruthfulStatus(job, passes, maxTargets)
    decreases |passes|
  {
    if passes != [] {
      var ts, next := job.targets, AfterPass(job, passes[0], maxTargets);
      GivenUpTogether(ts, passes[0], |ts|, budget);
      assert ts[|ts|..] == [];
      if next.targets != [] {
        TruthfulWithinLimit(next, passes[1..], maxTargets, budget - 1);
      }
    }
  }

  const FAILING_PASS := Pass({}, i => true)
  const PASSING_PASS := Pass({}, i => false)

  lemma {:induction false} EverythingFails(ts: seq<Target>, n: nat, budget: nat)
    requires n <= |ts| && SameBudget(ts[..n], budget) && budget >= 1
    ensures budget == 1 ==> CountOf(ts, FAILING_PASS, n, GivenUp) == n && Retries(ts, FAILING_PASS, n) == []
    ensures budget > 1 ==> |Retries(ts, FAILING_PASS, n)| == n && SameBudget(Retries(ts, FAILING_PASS, n), budget - 1)
  {
    if n > 0 {
      assert ts[..n] == ts[..n - 1] + [ts[n - 1]];
      assert forall t :: t in ts[..n - 1] ==> t in ts[..n];
      EverythingFails(ts, n - 1, budget);
      assert ts[n - 1] in ts[..n];
    }
  }

  lemma {:induction false} EverythingPasses(ts: seq<Target>, n: nat)
    requires n <= |ts|
    ensures CountOf(ts, PASSING_PASS, n, GivenUp) == 0 && Retries(ts, PASSING_PASS, n) == []
  {
    if n > 0 {
      EverythingPasses(ts, n - 1);
    }
  }

  lemma {:induction false} EndsDone(job: Job, maxTargets: nat) returns (passes: seq<Pass>)
    requires job.status == Pending && maxTargets > 0
    ensures AfterPasses(job, passes, maxTargets).status == Done
    decreases |job.targets|
  {
    var ts, next := job.targets, AfterPass(job, PASSING_PASS, maxTargets);
    EverythingPasses(ts, Limit(maxTargets, |ts|));
    var rest: seq<Pass> := [];
    if next.targets != [] {
      rest := EndsDone(next, maxTargets);
    }
    passes := [PASSING_PASS] + rest;
    assert passes[1..] == rest;
  }

  /** The first targets fail until they are given up; the others, still waiting, then succeed. */
  lemma {:induction false} EndsDoneRegardless(job: Job, maxTargets: nat, budget: nat) returns (passes: seq<Pass>)
    requires job.status == Pending && 0 < maxTargets < |job.targets|
    requires budget >= 1 && SameBudget(job.targets[..maxTargets], budget)
    ensures AfterPasses(job, passes, maxTargets).status == Done && GivenUpOver(job, passes, maxTargets) > 0
    decreases budget
  {
    var ts, next := job.targets, AfterPass(job, FAILING_PASS, maxTargets);
    EverythingFails(ts, maxTargets, budget);
    var rest: seq<Pass>;
    if budget == 1 {
      rest := EndsDone(next, maxTargets);
    } else {
      assert next.targets[..maxTargets] == Retries(ts, FAILING_PASS, maxTargets);
      rest := EndsDoneRegardless(next, maxTargets, budget - 1);
    }
    passes := [FAILING_PASS] + rest;
    assert passes[1..] == rest;
  }

  /**
   For targets with equal attempts left the final status is truthful over every series of passes
   exactly when one pass reaches them all; with more targets than the limit, failures of earlier
   passes can be forgotten.
   */
  lemma StatusTruthfulExactly(targets: seq<Target>, maxTargets: int, budget: nat)
    requires budget >= 1 && SameBudget(targets, budget)
    ensures (forall passes :: TruthfulStatus(NewJob(targets), passes, maxTargets)) <==>
              maxTargets <= 0 || |targets| <= maxTargets
  {
    if maxTargets <= 0 || |targets| <= maxTargets {
      forall passes {
        TruthfulWithinLimit(NewJob(targets), passes, maxTargets, budget);
      }
    } else {
      assert forall t :: t in targets[..maxTargets] ==> t in targets;
      var passes := EndsDoneRegardless(NewJob(targets), maxTargets, budget);
      assert !TruthfulStatus(NewJob(targets), passes, maxTargets);
    }
  }

  /** Jobs as they are created, fifty targets a pass: the status can be trusted up to fifty targets. */
  lemma StatusTruthfulInProduction(targets: seq<Target>)
    requires forall t :: t in targets ==> t.attempts == 0 && t.maxAttempts == MAX_ATTEMPTS
    ensures (forall passes :: TruthfulStatus(NewJob(targets), passes, MAX_TARGETS_PER_RUN)) <==> |targets| <= 50
  {
    StatusTruthfulExactly(targets, MAX_TARGETS_PER_RUN, MAX_ATTEMPTS);
  }

  /** Two targets, one a pass: the first is given up, the second removed, and the job is done. */
  lemma StatusForgetsFailures(a: Target, b: Target, first: Pass, second: Pass)
    requires a.user !in first.gods && first.fails(0) && a.attempts + 1 >= a.maxAttempts
    requires b.user !in second.gods && !second.fails(0)
    ensures var end := AfterPasses(NewJob([a, b]), [first, second], 1);
            end.status == Done && end.total - end.succeeded == 1
  {
    var start := NewJob([a, b]);
    assert [a, b][1..] == [b] && [first, second][1..] == [second];
    OnlyTarget([a, b], first);
    var mid := AfterPass(start, first, 1);
    assert mid == Job(Pending, 2, 0, [b]);
    assert [b][1..] == [] && [second][1..] == [];
    OnlyTarget([b], second);
    assert AfterPass(mid, second, 1) == Job(Done, 2, 1, []);
    assert AfterPasses(mid, [second], 1) == AfterPasses(AfterPass(mid, second, 1), [], 1);
  }

  lemma OnlyTarget(ts: seq<Target>, pass: Pass)
    requires |ts| >= 1 && OutcomeAt(ts, pass, 0) != Retried
    ensures Retries(ts, pass, 1) == []
    ensures forall o :: CountOf(ts, pass, 1, o) == if OutcomeAt(ts, pass, 0) == o then 1 else 0
  {
    assert Retries(ts, pass, 0) == [];
    assert forall o :: CountOf(ts, pass, 0, o) == 0;
  }

  // ----- The stored jobs and the task -----

  /** How one job's pass fares: the claim, the commands of the save that were applied, the kicks. */
  datatype Fate = Fate(claimFails: bool, saved: nat, releaseFails: bool, pass: Pass)

  class CleanupTask {
    var seqNo: nat
    var blobs: map<nat, Job>
    var pending: set<nat>
    var locks: set<nat>
    const maxTargetsPerRun: int

    /** Every job that can still be worked on is in the pending index. */
    predicate Valid()
      reads this`seqNo, this`blobs, this`pending
    {
      && (forall id :: id in blobs && blobs[id].status == Pending ==> id in pending)
      && (forall id :: id in pending ==> id in blobs)
      && (forall id :: id in blobs ==> id <= seqNo)
    }

    constructor (maxTargets: int)
      ensures Valid() && blobs == map[] && maxTargetsPerRun == maxTargets
    {
      seqNo, blobs, pending, locks, maxTargetsPerRun := 0, map[], {}, {}, maxTargets;
    }

    method CreateMemberCleanupJob(targets: seq<Target>) returns (id: nat)
      requires Valid()
      modifies this`seqNo, this`blobs, this`pending
      ensures Valid() && id !in old(blobs) && blobs == old(blobs)[id := NewJob(targets)] &&
                pending == old(pending) + {id}
    {
      seqNo := seqNo + 1;
      id := seqNo;
      blobs, pending := blobs[id := Job(Pending, |targets|, 0, targets)], pending + {id};
    }

    /** The index may hold finished jobs; the stored status decides. */
    method ListPendingMemberCleanupJobs() returns (ids: seq<nat>)
      requires Valid()
      ensures forall id :: id in ids <==> id in blobs && blobs[id].status == Pending
      ensures forall i, j :: 0 <= i < j < |ids| ==> ids[i] != ids[j]
    {
      ids := [];
      var left := pending;
      while left != {}
        invariant left <= pending
        invariant forall id :: id in ids <==> id in pending - left && blobs[id].status == Pending
        invariant forall i, j :: 0 <= i < j < |ids| ==> ids[i] != ids[j]
      {
        var id :| id in left;
        left := left - {id};
        if blobs[id].status == Pending { ids := ids + [id]; }
      }
    }

    /** A plain pipeline: the blob first, then the index; a cut one leaves the index too large at most. */
    method SaveMemberCleanupJob(id: nat, job: Job, saved: nat) returns (ok: bool)
      requires Valid() && id in blobs && id in pending
      modifies this`blobs, this`pending
      ensures Valid() && ok == (saved >= 2)
      ensures blobs == (if saved >= 1 then old(blobs)[id := job] else old(blobs))
      ensures pending == if saved >= 2 && job.status != Pending then old(pending) - {id} else old(pending)
    {
      if saved == 0 { return false; }
      blobs := blobs[id := job];
      if saved == 1 { return false; }
      if job.status == Pending { pending := pending + {id}; } else { pending := pending - {id}; }
      return true;
    }

    /** What a task run leaves of a job: one pass further exactly when it was due, claimed and saved. */
    function AfterRun(was: map<nat, Job>, locked: set<nat>, fates: map<nat, Fate>, id: nat): Job
      requires id in was && id in fates
    {
      if was[id].status == Pending && id !in locked && !fates[id].claimFails && fates[id].saved >= 1
      then AfterPass(was[id], fates[id].pass, maxTargetsPerRun) else was[id]
    }

    /** A job this run locks and does not unlock. */
    predicate StaysLocked(id: nat, fate: Fate)
      reads this`locks
    {
      !fate.claimFails && id !in locks && (fate.saved < 2 || fate.releaseFails)
    }

    /** One listed job; when its save fails the lock stays, which delays the next attempt. */
    method RunJob(id: nat, fate: Fate) returns (ok: bool)
      requires Valid() && id in blobs && blobs[id].status == Pending
      modifies this`blobs, this`pending, this`locks
      ensures Valid() && blobs == old(blobs)[id := if !fate.claimFails && id !in old(locks) && fate.saved >= 1
                                                   then AfterPass(old(blobs)[id], fate.pass, maxTargetsPerRun)
                                                       else old(blobs)[id]]
      ensures locks == if old(StaysLocked(id, fate)) then old(locks) + {id} else old(locks)
      ensures ok == (!fate.claimFails && (id in old(locks) || fate.saved >= 2))
    {
      hide AfterPass, TriedAgain;
      if fate.claimFails { return false; }
      if id in locks { return true; }
      locks := locks + {id};
      var job, _, _ := ProcessJob(blobs[id], fate.pass, maxTargetsPerRun);
      var saved := SaveMemberCleanupJob(id, job, fate.saved);
      if !saved { return false; }
      if !fate.releaseFails { locks := locks - {id}; }
      return true;
    }

    method Run(fates: map<nat, Fate>) returns (ok: bool)
      requires Valid() && fates.Keys == blobs.Keys
      modifies this`blobs, this`pending, this`locks
      ensures Valid() && blobs.Keys == old(blobs).Keys
      ensures forall id :: id in blobs ==> blobs[id] == AfterRun(old(blobs), old(locks), fates, id)
      ensures forall id :: id in locks <==>
                id in old(locks) || (id in fates && old(blobs)[id].status == Pending && old(StaysLocked(id, fates[id])))
      ensures ok <==> forall id :: id in fates && old(blobs)[id].status == Pending ==>
                                     !fates[id].claimFails && (id in old(locks) || fates[id].saved >= 2)
    {
      hide AfterPass;
      ok := true;
      var ids := ListPendingMemberCleanupJobs();
      ghost var was, locked, seen := blobs, locks, {};
      for i := 0 to |ids|
        invariant Valid() && blobs.Keys == was.Keys
        invariant (forall id :: id in seen ==> id in ids) && forall j :: 0 <= j < |ids| ==> (ids[j] in seen <==> j < i)
        invariant forall id :: id in locks <==> id in locked || (id in seen && old(StaysLocked(id, fates[id])))
        invariant ok <==> forall id :: id in seen ==> !fates[id].claimFails && (id in locked || fates[id].saved >= 2)
        invariant forall id :: id in blobs ==>
                    blobs[id] == if id in seen then AfterRun(was, locked, fates, id) else was[id]
      {
        var good := RunJob(ids[i], fates[ids[i]]);
        seen := seen + {ids[i]};
        ok := ok && good;
      }
    }
  }
}
