/**
 The store's side of a rebuild: the live mutations and the dump operations on Redis sets, with the
 in-memory journal. Each operation is shown to be the matching steps of the convergence protocol
 for its own destination and no step at all for every other destination.
 */
module DumpJournal {
  import opened RedisCommands
  import opened Decimals
  import opened IndexSets
  import opened DumpConvergence

  // ----- Keys -----

  function DumpKey(dest: string, nanos: nat): string {
    dest + ":tmp:" + FormatNat(nanos)
  }

  ghost predicate IsDumpOf(tmp: string, dest: string) {
    exists nanos: nat :: tmp == DumpKey(dest, nanos)
  }

  /** A destination is never itself the key of a dump. */
  ghost predicate Plain(dest: string) {
    forall d :: !IsDumpOf(dest, d)
  }

  lemma DumpKeyNamesDest(d1: string, n1: nat, d2: string, n2: nat)
    ensures DumpKey(d1, n1) == DumpKey(d2, n2) ==> d1 == d2
  {
    var k1, k2, f1, f2 := DumpKey(d1, n1), DumpKey(d2, n2), FormatNat(n1), FormatNat(n2);
    FormatNatShape(n1);
    FormatNatShape(n2);
    assert k1[|k1| - 1 - |f1|] == ':' && k2[|k2| - 1 - |f2|] == ':';
    assert forall i | |k1| - |f1| <= i < |k1| :: IsDigit(k1[i]) by {
      assert forall i | |k1| - |f1| <= i < |k1| :: k1[i] == f1[i - (|k1| - |f1|)];
    }
    assert forall i | |k2| - |f2| <= i < |k2| :: IsDigit(k2[i]) by {
      assert forall i | |k2| - |f2| <= i < |k2| :: k2[i] == f2[i - (|k2| - |f2|)];
    }
    assert d1 == k1[..|d1|] && d2 == k2[..|d2|];
  }

  lemma OneDestPerDump(tmp: string)
    ensures forall d1, d2 :: IsDumpOf(tmp, d1) && IsDumpOf(tmp, d2) ==> d1 == d2
  {
    forall d1, d2 | IsDumpOf(tmp, d1) && IsDumpOf(tmp, d2)
      ensures d1 == d2
    {
      var n1: nat :| tmp == DumpKey(d1, n1);
      var n2: nat :| tmp == DumpKey(d2, n2);
      DumpKeyNamesDest(d1, n1, d2, n2);
    }
  }

  /** The subscriber and ban sets of a creator whose id holds no colon. */
  lemma MemberSetsPlain(id: string)
    requires ':' !in id
    ensures Plain("imsub:creator:subscribers:" + id) && Plain("imsub:creator:blocked:" + id)
  {
    NoSuffixNotDump("imsub:creator:subscribers:", id);
    NoSuffixNotDump("imsub:creator:blocked:", id);
  }

  lemma NoSuffixNotDump(prefix: string, id: string)
    requires ':' !in id && |prefix| >= 5 && prefix[|prefix| - 5] != ':' && prefix[|prefix| - 1] == ':'
    ensures Plain(prefix + id)
  {
    forall d, n: nat
      ensures prefix + id != DumpKey(d, n)
    {
      LastColon(prefix, id, d, n);
    }
  }

  lemma LastColon(prefix: string, id: string, d: string, n: nat)
    requires ':' !in id && |prefix| >= 5 && prefix[|prefix| - 5] != ':' && prefix[|prefix| - 1] == ':'
    ensures prefix + id != DumpKey(d, n)
  {
    var key, other := prefix + id, DumpKey(d, n);
    FormatNatShape(n);
    assert key[|prefix| - 1] == ':' && key[|prefix| - 5] != ':';
    assert forall i | |prefix| <= i < |key| :: key[i] == id[i - |prefix|];
    assert other[|d|] == ':' && other[|d| + 4] == ':';
    assert forall i | |d| + 5 <= i < |other| :: other[i] == FormatNat(n)[i - |d| - 5];
    assert key == other ==> |d| + 4 == |prefix| - 1;
  }

  // ----- The journal's tables -----

  /** One in-flight dump per destination with a log, and one such destination per dump. */
  ghost predicate OneToOne(active: map<string, seq<Entry>>, byTmp: map<string, string>) {
    && (forall t :: t in byTmp ==> byTmp[t] in active && IsDumpOf(t, byTmp[t]))
    && (forall t, u :: t in byTmp && u in byTmp && byTmp[t] == byTmp[u] ==> t == u)
    && (forall d :: d in active ==> exists t :: t in byTmp && byTmp[t] == d)
  }

  function Without(byTmp: map<string, string>, dest: string): map<string, string> {
    map t | t in byTmp && byTmp[t] != dest :: byTmp[t]
  }

  lemma OpenKeepsOneToOne(active: map<string, seq<Entry>>, byTmp: map<string, string>, dest: string, tmp: string)
    requires OneToOne(active, byTmp) && IsDumpOf(tmp, dest)
    ensures OneToOne(active[dest := []], Without(byTmp, dest)[tmp := dest])
  {
    hide IsDumpOf;
    OneDestPerDump(tmp);
    var active', byTmp' := active[dest := []], Without(byTmp, dest)[tmp := dest];
    forall d | d in active'
      ensures exists t :: t in byTmp' && byTmp'[t] == d
    {
      if d == dest {
        assert byTmp'[tmp] == d;
      } else {
        var t :| t in byTmp && byTmp[t] == d;
        assert t in byTmp' && byTmp'[t] == d;
      }
    }
  }

  lemma CloseKeepsOneToOne(active: map<string, seq<Entry>>, byTmp: map<string, string>, tmp: string)
    requires OneToOne(active, byTmp) && tmp in byTmp
    ensures OneToOne(active - {byTmp[tmp]}, byTmp - {tmp})
  {
    var active', byTmp' := active - {byTmp[tmp]}, byTmp - {tmp};
    forall d | d in active'
      ensures exists t :: t in byTmp' && byTmp'[t] == d
    {
      var t :| t in byTmp && byTmp[t] == d;
      assert t in byTmp';
    }
  }

  lemma DestOfDump(active: map<string, seq<Entry>>, byTmp: map<string, string>, dest: string, tmp: string)
    requires OneToOne(active, byTmp) && IsDumpOf(tmp, dest) && Plain(dest)
    ensures tmp in byTmp ==> byTmp[tmp] == dest && dest in active && forall t :: t in byTmp && byTmp[t] == dest ==>
              t == tmp
    ensures dest !in byTmp && dest != tmp
  {
    OneDestPerDump(tmp);
  }

  /** The destination as the protocol sees it when no operation on it is half done. */
  ghost predicate Displays(sets: map<string, set<string>>, active: map<string, seq<Entry>>, byTmp: map<string,
      string>, dest: string, s: State) {
    && SetAt(sets, dest) == s.dest && s.handling == []
    && (s.dump == None || In(s, Reading))
    && (s.dump.Some? <==> dest in active)
    && (s.dump.Some? ==> s.dump.value.log == active[dest])
    && forall t :: s.dump.Some? && t in byTmp && byTmp[t] == dest ==> SetAt(sets, t) == s.dump.value.tmp
  }

  lemma MutatedDisplays(
    sets: map<string, set<string>>, active: map<string, seq<Entry>>, byTmp: map<string, string>, dest: string,
        e: Entry, s: State)
    requires OneToOne(active, byTmp) && Plain(dest) && Displays(sets, active, byTmp, dest, s)
    requires s.queue != [] && s.queue[0] == e
    ensures Displays(sets[dest := ApplyOne(SetAt(sets, dest), e)],
                     if dest in active then active[dest := active[dest] + [e]] else active,
                     byTmp, dest, DoRecord(DoDeliver(s)))
  {
    var t := DoRecord(DoDeliver(s));
    assert t.dest == ApplyOne(s.dest, e);
    assert s.dump.Some? ==> t.dump == Some(s.dump.value.(log := active[dest] + [e]));
    assert s.dump.None? ==> t.dump.None?;
  }

  /** What an operation on `dest` and its dump may change does not concern any other destination. */
  lemma OthersDisplay(
    sets: map<string, set<string>>, active: map<string, seq<Entry>>, byTmp: map<string, string>,
    sets': map<string, set<string>>, active': map<string, seq<Entry>>, byTmp': map<string, string>,
    dest: string, tmp: string, d: string, s: State)
    requires OneToOne(active, byTmp) && Plain(dest) && IsDumpOf(tmp, dest) && Plain(d) && d != dest
    requires forall k :: k != dest && k != tmp ==> SetAt(sets', k) == SetAt(sets, k)
    requires active' - {dest} == active - {dest} && Without(byTmp', dest) == Without(byTmp, dest)
    requires Displays(sets, active, byTmp, d, s)
    ensures Displays(sets', active', byTmp', d, s)
  {
    OneDestPerDump(tmp);
    assert d in active' <==> d in active' - {dest};
    assert d in active <==> d in active - {dest};
    assert d in active ==> active[d] == (active - {dest})[d];
    assert d in active' ==> active'[d] == (active' - {dest})[d];
    forall t | t in byTmp' && byTmp'[t] == d
      ensures t in byTmp && byTmp[t] == d && SetAt(sets', t) == SetAt(sets, t)
    {
      assert t in Without(byTmp', dest);
    }
  }

  /** Rename, take and replay with no event in between; the replay may stop after any command. */
  function Finished(s: State, done: nat): State
    requires In(s, Reading)
  {
    DoReplay(DoTake(DoRename(s)), done)
  }

  lemma FinalizedDisplays(
    sets: map<string, set<string>>, active: map<string, seq<Entry>>, byTmp: map<string, string>,
    sets': map<string, set<string>>, dest: string, tmp: string, done: nat, s: State)
    requires OneToOne(active, byTmp) && Plain(dest) && Displays(sets, active, byTmp, dest, s)
    requires tmp in byTmp && byTmp[tmp] == dest && In(s, Reading)
    requires SetAt(sets', dest) == Replayed(SetAt(sets, tmp), active[dest], done)
    ensures Displays(sets', active - {dest}, byTmp - {tmp}, dest, Finished(s, done))
  {
    assert s.dump.value.tmp == SetAt(sets, tmp) && s.dump.value.log == active[dest];
  }

  lemma SupersededDisplays(
    sets: map<string, set<string>>, active: map<string, seq<Entry>>, byTmp: map<string, string>,
    sets': map<string, set<string>>, dest: string, tmp: string, s: State)
    requires OneToOne(active, byTmp) && Plain(dest) && Displays(sets, active, byTmp, dest, s)
    requires tmp !in byTmp && SetAt(sets', dest) == SetAt(sets, tmp)
    requires forall k :: k != dest && k != tmp ==> SetAt(sets', k) == SetAt(sets, k)
    ensures Displays(sets', active, byTmp, dest, DoOverwrite(s, SetAt(sets, tmp)))
  {
  }

  lemma OthersLeft(byTmp: map<string, string>, dest: string, tmp: string)
    requires tmp in byTmp ==> byTmp[tmp] == dest
    ensures Without(byTmp - {tmp}, dest) == Without(byTmp, dest)
  {
  }

  lemma OthersEffect(
    sets: map<string, set<string>>, active: map<string, seq<Entry>>, byTmp: map<string, string>,
    sets': map<string, set<string>>, active': map<string, seq<Entry>>, byTmp': map<string, string>, dest: string,
        tmp: string)
    requires OneToOne(active, byTmp) && Plain(dest) && IsDumpOf(tmp, dest)
    requires tmp in byTmp ==> byTmp[tmp] == dest
    requires forall k :: k != dest && k != tmp ==> SetAt(sets', k) == SetAt(sets, k)
    requires (active' == active && byTmp' == byTmp) ||
              (tmp in byTmp && active' == active - {dest} && byTmp' == byTmp - {tmp})
    ensures forall d, s :: d != dest && Plain(d) && Displays(sets, active, byTmp, d, s) ==>
              Displays(sets', active', byTmp', d, s)
  {
    hide Displays, OneToOne, Plain, IsDumpOf, Without;
    OthersLeft(byTmp, dest, tmp);
    assert active' - {dest} == active - {dest};
    forall d, s | d != dest && Plain(d) && Displays(sets, active, byTmp, d, s) {
      OthersDisplay(sets, active, byTmp, sets', active', byTmp', dest, tmp, d, s);
    }
  }

  lemma FinalizeEffect(
    sets: map<string, set<string>>, active: map<string, seq<Entry>>, byTmp: map<string, string>,
    sets': map<string, set<string>>, active': map<string, seq<Entry>>, byTmp': map<string, string>, dest: string,
        tmp: string, done: nat)
    requires OneToOne(active, byTmp) && Plain(dest)
    requires tmp in byTmp ==> byTmp[tmp] == dest && dest in active
    requires forall k :: k != dest && k != tmp ==> SetAt(sets', k) == SetAt(sets, k)
    requires tmp !in byTmp ==> active' == active && byTmp' == byTmp && SetAt(sets', dest) == SetAt(sets, tmp)
    requires tmp in byTmp ==>
               && active' == active - {dest} && byTmp' == byTmp - {tmp}
               && SetAt(sets', dest) == Replayed(SetAt(sets, tmp), active[dest], done)
    ensures forall s :: Displays(sets, active, byTmp, dest, s) && tmp in byTmp && In(s, Reading) ==>
                          Displays(sets', active', byTmp', dest, Finished(s, done))
    ensures forall s :: Displays(sets, active, byTmp, dest, s) && tmp !in byTmp ==>
                          Displays(sets', active', byTmp', dest, DoOverwrite(s, SetAt(sets, tmp)))
  {
    hide DoOverwrite, Finished, Displays, Replayed, OneToOne, Plain;
    forall s | Displays(sets, active, byTmp, dest, s) && tmp in byTmp && In(s, Reading) {
      FinalizedDisplays(sets, active, byTmp, sets', dest, tmp, done, s);
    }
    forall s | Displays(sets, active, byTmp, dest, s) && tmp !in byTmp {
      SupersededDisplays(sets, active, byTmp, sets', dest, tmp, s);
    }
  }

  lemma CleanupEffect(
    sets: map<string, set<string>>, active: map<string, seq<Entry>>, byTmp: map<string, string>,
    sets': map<string, set<string>>, active': map<string, seq<Entry>>, byTmp': map<string, string>, dest: string,
        tmp: string)
    requires OneToOne(active, byTmp) && Plain(dest) && IsDumpOf(tmp, dest)
    requires tmp in byTmp ==> byTmp[tmp] == dest && active' == active - {dest} && byTmp' == byTmp - {tmp}
    requires tmp !in byTmp ==> active' == active && byTmp' == byTmp
    requires sets' == sets - {tmp}
    ensures forall s :: Displays(sets, active, byTmp, dest, s) && tmp in byTmp ==>
                          Displays(sets', active', byTmp', dest, s.(dump := None))
    ensures forall s :: Displays(sets, active, byTmp, dest, s) && tmp !in byTmp ==>
                          Displays(sets', active', byTmp', dest, s)
  {
    DestOfDump(active, byTmp, dest, tmp);
  }

  // ----- The store -----

  class DumpStore {
    var sets: map<string, set<string>>
    var active: map<string, seq<Entry>>
    var byTmp: map<string, string>

    ghost predicate Valid()
      reads this
    {
      OneToOne(active, byTmp)
    }

    ghost predicate Shows(dest: string, s: State)
      reads this
    {
      Displays(sets, active, byTmp, dest, s)
    }

    /** Destinations other than `dest` look as they did. */
    twostate predicate OthersKeep(dest: string)
      reads this
    {
      forall d, s :: d != dest && Plain(d) && old(Shows(d, s)) ==> Shows(d, s)
    }

    constructor ()
      ensures Valid() && active == map[] && byTmp == map[]
    {
      sets, active, byTmp := map[], map[], map[];
    }

    // ----- The journal -----

    method BeginJournal(dest: string, tmp: string)
      requires Valid() && IsDumpOf(tmp, dest)
      modifies this`active, this`byTmp
      ensures Valid()
      ensures active == old(active)[dest := []] && byTmp == Without(old(byTmp), dest)[tmp := dest]
    {
      hide OneToOne, IsDumpOf;
      OpenKeepsOneToOne(active, byTmp, dest, tmp);
      ghost var was := byTmp;
      var left := byTmp.Keys;
      while left != {}
        invariant left <= was.Keys && active == old(active)
        invariant byTmp == map t | t in was && (t in left || was[t] != dest) :: was[t]
      {
        SomeElement(left);
        var t :| t in left;
        left := left - {t};
        if byTmp[t] == dest {
          byTmp := byTmp - {t};
        }
      }
      assert byTmp == Without(was, dest);
      active := active[dest := []];
      byTmp := byTmp[tmp := dest];
    }

    method RecordInJournal(dest: string, member: string, add: bool)
      requires Valid()
      modifies this`active
      ensures Valid()
      ensures active == if dest in old(active) then old(active)[dest := old(active)[dest] + [Entry(member, add)]]
                else old(active)
    {
      if dest in active {
        active := active[dest := active[dest] + [Entry(member, add)]];
      }
    }

    /** The last operation of each member decides. */
    static method NetOf(log: seq<Entry>) returns (adds: seq<string>, removes: seq<string>)
      ensures (set m | m in adds) == Net(log, true) && (set m | m in removes) == Net(log, false)
      ensures forall m :: m in adds <==> LastSays(log, m, true)
      ensures forall m :: m in removes <==> LastSays(log, m, false)
    {
      hide LastSays;
      var final: map<string, bool>, order: seq<string> := map[], [];
      for i := 0 to |log|
        invariant forall m :: (if m in final then Some(final[m]) else None) == LastOp(log[..i], m)
        invariant forall m :: m in order <==> m in final
      {
        assert log[..i + 1][..i] == log[..i];
        if log[i].member !in final { order := order + [log[i].member]; }
        final := final[log[i].member := log[i].add];
      }
      assert log[..|log|] == log;
      adds, removes := [], [];
      for i := 0 to |order|
        invariant forall m :: m in adds <==> m in order[..i] && final[m]
        invariant forall m :: m in removes <==> m in order[..i] && !final[m]
      {
        assert order[i] in order;
        assert order[..i + 1] == order[..i] + [order[i]];
        if final[order[i]] { adds := adds + [order[i]]; } else { removes := removes + [order[i]]; }
      }
      assert order[..|order|] == order;
      NetIsLastOperation(log);
      forall m
        ensures m in adds <==> LastSays(log, m, true)
        ensures m in removes <==> LastSays(log, m, false)
      {
        LastOpExactly(log, m);
      }
    }

    /** A superseded dump finds nothing and leaves the newer dump's log alone. */
    method TakeJournal(tmp: string) returns (dest: Option<string>, adds: seq<string>, removes: seq<string>)
      requires Valid()
      modifies this`active, this`byTmp
      ensures Valid()
      ensures tmp !in old(byTmp) ==>
                dest == None && adds == removes == [] && active == old(active) && byTmp == old(byTmp)
      ensures tmp in old(byTmp) ==>
                var d := old(byTmp)[tmp];
                && dest == Some(d) && active == old(active) - {d} && byTmp == old(byTmp) - {tmp}
                && (set m | m in adds) == Net(old(active)[d], true)
                && (set m | m in removes) == Net(old(active)[d], false)
      ensures forall m :: m in adds <==> tmp in old(byTmp) && LastSays(old(active)[old(byTmp)[tmp]], m, true)
      ensures forall m :: m in removes <==> tmp in old(byTmp) && LastSays(old(active)[old(byTmp)[tmp]], m, false)
    {
      if tmp !in byTmp { return None, [], []; }
      CloseKeepsOneToOne(active, byTmp, tmp);
      var d := byTmp[tmp];
      var log := active[d];
      byTmp, active := byTmp - {tmp}, active - {d};
      adds, removes := NetOf(log);
      dest := Some(d);
    }

    method DiscardJournal(tmp: string)
      requires Valid()
      modifies this`active, this`byTmp
      ensures Valid()
      ensures tmp !in old(byTmp) ==> active == old(active) && byTmp == old(byTmp)
      ensures tmp in old(byTmp) ==> active == old(active) - {old(byTmp)[tmp]} && byTmp == old(byTmp) - {tmp}
    {
      if tmp !in byTmp { return; }
      CloseKeepsOneToOne(active, byTmp, tmp);
      active := active - {byTmp[tmp]};
      byTmp := byTmp - {tmp};
    }

    // ----- Live events -----

    /** Adding or removing one member is the protocol's delivery and recording of that event. */
    method Mutate(dest: string, member: string, add: bool)
      requires Valid() && Plain(dest)
      modifies this`sets, this`active
      ensures Valid() && OthersKeep(dest)
      ensures forall s :: old(Shows(dest, s)) && s.queue != [] && s.queue[0] == Entry(member, add) ==>
                            Shows(dest, DoRecord(DoDeliver(s)))
      ensures SetAt(sets, dest) == if add then old(SetAt(sets, dest)) + {member} else old(SetAt(sets, dest)) - {member}
      ensures Get(active, dest) == match Get(old(active), dest)
                                   case None => None
                                   case Some(log) => Some(log + [Entry(member, add)])
    {
      forall s | Shows(dest, s) && s.queue != [] && s.queue[0] == Entry(member, add) {
        MutatedDisplays(sets, active, byTmp, dest, Entry(member, add), s);
      }
      var now := SetAt(sets, dest);
      sets := sets[dest := if add then now + {member} else now - {member}];
      RecordInJournal(dest, member, add);
    }

    // ----- Dumps -----

    method NewDump(dest: string, nanos: nat) returns (tmp: string)
      requires Valid() && Plain(dest) && DumpKey(dest, nanos) !in sets
      modifies this`active, this`byTmp
      ensures Valid() && OthersKeep(dest) && tmp == DumpKey(dest, nanos)
      ensures tmp in byTmp && byTmp[tmp] == dest && active == old(active)[dest := []]
      ensures forall s :: old(Shows(dest, s)) ==> Shows(dest, DoBegin(s))
    {
      tmp := DumpKey(dest, nanos);
      OneDestPerDump(tmp);
      BeginJournal(dest, tmp);
    }

    method AddToDump(dest: string, tmp: string, ids: set<string>)
      requires Valid() && Plain(dest) && IsDumpOf(tmp, dest)
      modifies this`sets
      ensures sets == old(sets)[tmp := old(SetAt(sets, tmp)) + ids]
      ensures Valid() && OthersKeep(dest)
      ensures SetAt(sets, tmp) == old(SetAt(sets, tmp)) + ids
      ensures forall s :: old(Shows(dest, s)) && tmp in byTmp && In(s, Reading) ==> Shows(dest, DoReadPage(s, ids))
      ensures forall s :: old(Shows(dest, s)) && tmp !in byTmp ==> Shows(dest, s)
    {
      OneDestPerDump(tmp);
      sets := sets[tmp := SetAt(sets, tmp) + ids];
    }

    method CleanupDump(dest: string, tmp: string)
      requires Valid() && Plain(dest) && IsDumpOf(tmp, dest)
      modifies this
      ensures Valid() && OthersKeep(dest) && sets == old(sets) - {tmp}
      ensures tmp in old(byTmp) ==> dest !in active && tmp !in byTmp
      ensures forall s :: old(Shows(dest, s)) && tmp in old(byTmp) ==> Shows(dest, s.(dump := None))
      ensures forall s :: old(Shows(dest, s)) && tmp !in old(byTmp) ==> Shows(dest, s)
    {
      DestOfDump(active, byTmp, dest, tmp);
      hide OneToOne, Plain, IsDumpOf, Displays, Without;
      DiscardJournal(tmp);
      sets := sets - {tmp};
      OthersEffect(old(sets), old(active), old(byTmp), sets, active, byTmp, dest, tmp);
      CleanupEffect(old(sets), old(active), old(byTmp), sets, active, byTmp, dest, tmp);
    }

    /** RENAME, or DEL when no page had a member. */
    method ReplaceSet(dest: string, tmp: string, hasData: bool) returns (ok: bool)
      requires !hasData ==> SetAt(sets, tmp) == {}
      requires dest != tmp
      modifies this`sets
      ensures ok == (hasData ==> tmp in old(sets))
      ensures !ok ==> sets == old(sets)
      ensures ok ==> SetAt(sets, dest) == old(SetAt(sets, tmp))
      ensures forall k :: k != dest && k != tmp ==> SetAt(sets, k) == old(SetAt(sets, k))
    {
      if !hasData {
        sets := sets - {dest};
      } else if tmp in sets {
        sets := sets[dest := sets[tmp]] - {tmp};
      } else {
        return false;
      }
      return true;
    }

    /** The adds go first; a failure is only logged, and leaves what was done before it. */
    method ReplayJournal(dest: string, tmp: string, done: nat)
      requires Valid() && (tmp in byTmp ==> byTmp[tmp] == dest && dest in active)
      modifies this
      ensures Valid()
      ensures forall k :: k != dest ==> SetAt(sets, k) == old(SetAt(sets, k))
      ensures tmp !in old(byTmp) ==> sets == old(sets) && active == old(active) && byTmp == old(byTmp)
      ensures tmp in old(byTmp) ==>
                && active == old(active) - {dest} && byTmp == old(byTmp) - {tmp}
                && SetAt(sets, dest) == Replayed(old(SetAt(sets, dest)), old(active)[dest], done)
    {
      hide OneToOne, Net;
      var d, adds, removes := TakeJournal(tmp);
      if d == None || (adds == [] && removes == []) {
        assert d.Some? ==> Net(old(active)[dest], true) == (set m | m in adds) == {};
        assert d.Some? ==> Net(old(active)[dest], false) == (set m | m in removes) == {};
        return;
      }
      if done >= 1 { sets := sets[dest := SetAt(sets, dest) + set m | m in adds]; }
      if done >= 2 { sets := sets[dest := SetAt(sets, dest) - set m | m in removes]; }
    }

    /**
     For the dump in flight this is rename, take and replay; a superseded dump only overwrites
     the set, and leaves the newer dump and its journal as they were.
     */
    method FinalizeDump(dest: string, tmp: string, hasData: bool, done: nat) returns (ok: bool)
      requires Valid() && Plain(dest) && IsDumpOf(tmp, dest)
      requires !hasData ==> SetAt(sets, tmp) == {}
      modifies this
      ensures Valid() && OthersKeep(dest)
      ensures ok == (hasData ==> tmp in old(sets))
      ensures !ok ==> sets == old(sets) && active == old(active) && byTmp == old(byTmp)
      ensures ok && tmp in old(byTmp) ==> dest !in active && tmp !in byTmp
      ensures ok && tmp in old(byTmp) && dest in old(active) ==>
                SetAt(sets, dest) == Replayed(old(SetAt(sets, tmp)), old(active)[dest], done)
      ensures ok && tmp in old(byTmp) && dest in old(active) ==>
                forall m :: m in SetAt(sets, dest) <==>
                  if done >= 2 && LastSays(old(active)[dest], m, false) then false
                  else (done >= 1 && LastSays(old(active)[dest], m, true)) || m in old(SetAt(sets, tmp))
      ensures ok && tmp !in old(byTmp) ==> SetAt(sets, dest) == old(SetAt(sets, tmp))
      ensures forall s :: ok && old(Shows(dest, s)) && tmp in old(byTmp) && In(s, Reading) ==>
                            Shows(dest, Finished(s, done))
      ensures forall s :: ok && old(Shows(dest, s)) && tmp !in old(byTmp) ==>
                            Shows(dest, DoOverwrite(s, old(SetAt(sets, tmp))))
    {
      DestOfDump(active, byTmp, dest, tmp);
      hide Finished, DoOverwrite, OneToOne, Plain, IsDumpOf, Replayed, Displays, Without, LastSays;
      ok := ReplaceSet(dest, tmp, hasData);
      if ok {
        ReplayJournal(dest, tmp, done);
        if dest in old(active) { ReplayedExactly(old(SetAt(sets, tmp)), old(active)[dest], done); }
      }
      OthersEffect(old(sets), old(active), old(byTmp), sets, active, byTmp, dest, tmp);
      if ok {
        FinalizeEffect(old(sets), old(active), old(byTmp), sets, active, byTmp, dest, tmp, done);
      }
    }
  }
}
