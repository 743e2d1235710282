/**
 One reconciliation pass over a group's member tags. Telegram and Redis may fail for any user; the
 pass is described user by user, whatever the order, and losing the right to tag ends it.
 */
module TagSync {
  import opened RedisCommands
  import opened IndexSets
  import opened MemberTags

  // ----- What can happen to one user's tag -----

  datatype Reply = Accepted | UserGone | NoRights | OtherError

  /** Telegram's reply about a user, and how many commands of the store's pipeline are applied. */
  datatype World = World(reply: int -> Reply, saved: int -> nat)

  /** The index entry and the hash of one user; the tag is owned when both are there. */
  datatype Slot = Slot(indexed: bool, hash: Option<string>)

  function SlotIn(index: set<int>, hashes: map<int, string>, user: int): Slot {
    Slot(user in index, Get(hashes, user))
  }

  function OwnedTag(slot: Slot): Option<string> {
    if slot.indexed then slot.hash else None
  }

  function TextOf(tag: Option<string>): string {
    match tag case Some(t) => t case None => ""
  }

  function Upserted(slot: Slot, tag: string, saved: nat): Slot {
    Slot(slot.indexed || saved >= 1, if saved >= 2 then Some(tag) else slot.hash)
  }

  function Removed(slot: Slot, saved: nat): Slot {
    Slot(slot.indexed && saved == 0, if saved >= 2 then None else slot.hash)
  }

  datatype Outcome = Noop | Set | Cleared | Errored | RightsLost | Absent

  function Judge(w: World, snapshot: Option<set<int>>, user: int, slot: Slot, want: Option<string>): Outcome {
    match want
    case Some(tag) =>
      if TextOf(OwnedTag(slot)) == tag then Noop
      else if user == 0 || Sanitize(tag) == "" then Set
      else if w.reply(user) == NoRights then RightsLost
      else if w.reply(user) == Accepted && w.saved(user) >= 2 then Set
      else Errored
    case None =>
      if OwnedTag(slot) == None then Absent
      else if !Live(snapshot, user) then if w.saved(user) >= 2 then Cleared else Errored
      else if user == 0 then Cleared
      else if w.reply(user) == NoRights then RightsLost
      else if w.reply(user) != OtherError && w.saved(user) >= 2 then Cleared
      else Errored
  }

  function SlotAfter(w: World, snapshot: Option<set<int>>, user: int, slot: Slot, want: Option<string>): Slot {
    match want
    case Some(tag) =>
      if TextOf(OwnedTag(slot)) == tag || user == 0 || Sanitize(tag) == "" || w.reply(user) != Accepted then slot
      else Upserted(slot, Sanitize(tag), w.saved(user))
    case None =>
      if OwnedTag(slot) == None then slot
      else if !Live(snapshot, user) then Removed(slot, w.saved(user))
      else if user == 0 || (w.reply(user) != Accepted && w.reply(user) != UserGone) then slot
      else Removed(slot, w.saved(user))
  }

  // ----- Counting the outcomes of a pass -----

  /** What a pass starts from. */
  datatype Start = Start(index: set<int>, hashes: map<int, string>, desired: map<int, string>,
      snapshot: Option<set<int>>)

  function StartSlot(st: Start, user: int): Slot {
    SlotIn(st.index, st.hashes, user)
  }

  function OutcomeOf(w: World, st: Start, user: int): Outcome {
    Judge(w, st.snapshot, user, StartSlot(st, user), Get(st.desired, user))
  }

  function Universe(st: Start): set<int> {
    st.desired.Keys + set u | u in st.index && u in st.hashes
  }

  function With(w: World, st: Start, users: set<int>, o: Outcome): set<int> {
    set u | u in users && OutcomeOf(w, st, u) == o
  }

  /** The counts are the numbers of users with each outcome. */
  ghost predicate Counted(w: World, st: Start, users: set<int>, c: Counts) {
    && c.set_ == |With(w, st, users, Set)| && c.cleared == |With(w, st, users, Cleared)|
    && c.noop == |With(w, st, users, Noop)| && c.errors == |With(w, st, users, Errored)|
  }

  function CountOne(c: Counts, o: Outcome): Counts {
    match o
    case Set => c.(set_ := c.set_ + 1)
    case Cleared => c.(cleared := c.cleared + 1)
    case Noop => c.(noop := c.noop + 1)
    case Errored => c.(errors := c.errors + 1)
    case _ => c
  }

  lemma WithMore(w: World, st: Start, users: set<int>, user: int, o: Outcome)
    requires user !in users
    ensures |With(w, st, users + {user}, o)| == |With(w, st, users, o)| + if OutcomeOf(w, st, user) == o then 1 else 0
  {
    hide OutcomeOf;
    assert With(w, st, users + {user}, o) == With(w, st, users, o) + if OutcomeOf(w, st, user) == o then {user} else {};
  }

  lemma CountedMore(w: World, st: Start, users: set<int>, user: int, c: Counts)
    requires user !in users && Counted(w, st, users, c)
    ensures Counted(w, st, users + {user}, CountOne(c, OutcomeOf(w, st, user)))
  {
    hide With, OutcomeOf;
    WithMore(w, st, users, user, Set);
    WithMore(w, st, users, user, Cleared);
    WithMore(w, st, users, user, Noop);
    WithMore(w, st, users, user, Errored);
  }

  lemma NobodyCounted(w: World, st: Start)
    ensures Counted(w, st, {}, Counts(0, 0, 0, 0))
  {
    assert forall o :: With(w, st, {}, o) == {};
  }

  lemma OutcomesSplit(w: World, st: Start)
    requires forall u :: u in Universe(st) ==> OutcomeOf(w, st, u) != RightsLost
    ensures Universe(st) == With(w, st, Universe(st), Set) + With(w, st, Universe(st), Noop) +
              With(w, st, Universe(st), Cleared) + With(w, st, Universe(st), Errored)
    ensures With(w, st, Universe(st), Set) + With(w, st, Universe(st), Noop) <= st.desired.Keys
    ensures With(w, st, Universe(st), Cleared) !! st.desired.Keys
  {
    forall u | u in Universe(st)
      ensures OutcomeOf(w, st, u) != Absent
      ensures u in st.desired ==> OutcomeOf(w, st, u) != Cleared
      ensures u !in st.desired ==> OutcomeOf(w, st, u) != Set && OutcomeOf(w, st, u) != Noop
    {
    }
  }

  lemma DifferentOutcomes(w: World, st: Start)
    ensures forall o, o' :: o != o' ==> With(w, st, Universe(st), o) !! With(w, st, Universe(st), o')
  {
  }

  lemma SumOfFour(all: set<int>, a: set<int>, b: set<int>, c: set<int>, d: set<int>)
    requires all == a + b + c + d && a !! b && a !! c && b !! c && a !! d && b !! d && c !! d
    ensures |all| == |a| + |b| + |c| + |d| && |a + b| == |a| + |b|
  {
    assert |a + b + c| == |a + b| + |c|;
  }

  lemma CleanSplit(all: set<int>, desired: set<int>, s: set<int>, n: set<int>, k: set<int>, e: set<int>)
    requires all == s + n + k + e && s + n <= desired && k !! desired && desired <= all
    requires s !! n && |e| == 0
    ensures |s| + |n| == |desired| && |k| == |all - desired|
  {
    assert e == {};
    assert s + n == desired && k == all - desired;
    assert |s + n| == |s| + |n|;
  }

  /** Nobody is counted twice or left out: every user of the pass has exactly one outcome. */
  lemma OutcomesCoverUniverse(w: World, st: Start, c: Counts)
    requires Counted(w, st, Universe(st), c) && forall u :: u in Universe(st) ==> OutcomeOf(w, st, u) != RightsLost
    ensures c.set_ + c.noop + c.cleared + c.errors == |Universe(st)|
    ensures c.errors == 0 ==> c.set_ + c.noop == |st.desired.Keys| && c.cleared == |Universe(st) - st.desired.Keys|
  {
    OutcomesSplit(w, st);
    var all := Universe(st);
    DifferentOutcomes(w, st);
    assert st.desired.Keys <= all;
    hide With, OutcomeOf, Universe;
    var s, n, k, e := With(w, st, all, Set), With(w, st, all, Noop), With(w, st, all, Cleared),
        With(w, st, all, Errored);
    SumOfFour(all, s, n, k, e);
    if c.errors == 0 {
      CleanSplit(all, st.desired.Keys, s, n, k, e);
    }
  }

  // ----- The pass in plain words -----

  /** The text of the tag recorded for a user, blank when none is. */
  function Recorded(st: Start, u: int): string {
    if u in st.index && u in st.hashes then st.hashes[u] else ""
  }

  /** Telegram is asked to set a tag that is wanted and not recorded. */
  predicate AsksToSet(st: Start, u: int) {
    u != 0 && u in st.desired && st.desired[u] != Recorded(st, u) && Sanitize(st.desired[u]) != ""
  }

  /** A recorded tag that nobody wants; Telegram is asked to clear it unless the user has left. */
  predicate Stale(st: Start, u: int) {
    u in st.index && u in st.hashes && u !in st.desired
  }

  predicate Left(st: Start, u: int) {
    st.snapshot.Some? && u !in st.snapshot.value
  }

  predicate ClearAgreed(w: World, st: Start, u: int) {
    Left(st, u) || (u != 0 && (w.reply(u) == Accepted || w.reply(u) == UserGone))
  }

  /** The record of one user after the pass: each command of the store that was applied shows. */
  ghost predicate EndsWith(w: World, st: Start, index: set<int>, hashes: map<int, string>, u: int) {
    if AsksToSet(st, u) && w.reply(u) == Accepted then
      && (u in index <==> u in st.index || w.saved(u) >= 1)
      && Get(hashes, u) == if w.saved(u) >= 2 then Some(Sanitize(st.desired[u])) else Get(st.hashes, u)
    else if Stale(st, u) && ClearAgreed(w, st, u) then
      && (u in index <==> w.saved(u) == 0)
      && Get(hashes, u) == if w.saved(u) >= 2 then None else Get(st.hashes, u)
    else (u in index <==> u in st.index) && Get(hashes, u) == Get(st.hashes, u)
  }

  predicate LosesRights(w: World, st: Start, u: int) {
    w.reply(u) == NoRights && (AsksToSet(st, u) || (Stale(st, u) && !Left(st, u) && u != 0))
  }

  /** The four counts as numbers of users. */
  ghost predicate CountsSay(w: World, st: Start, c: Counts) {
    && c.noop == |set u | u in st.desired && st.desired[u] == Recorded(st, u)|
    && c.set_ == |set u | u in st.desired && st.desired[u] != Recorded(st, u) &&
                          (AsksToSet(st, u) ==> w.reply(u) == Accepted && w.saved(u) >= 2)|
    && c.cleared == |set u | u in st.index && Stale(st, u) &&
                             (if ClearAgreed(w, st, u) then w.saved(u) >= 2 else u == 0)|
    && c.errors == |set u | u in st.desired.Keys + st.index &&
                            ((AsksToSet(st, u) && !(w.reply(u) == Accepted && w.saved(u) >= 2)) ||
                             (Stale(st, u) && if ClearAgreed(w, st, u) then w.saved(u) < 2 else u != 0))|
  }

  lemma SlotsSpelledOut(w: World, st: Start, index: set<int>, hashes: map<int, string>, u: int)
    requires SlotIn(index, hashes, u) == SlotAfter(w, st.snapshot, u, StartSlot(st, u), Get(st.desired, u))
    ensures EndsWith(w, st, index, hashes, u)
  {
    hide Sanitize;
  }

  lemma LosingSpelledOut(w: World, st: Start)
    ensures (exists u :: u in Universe(st) && OutcomeOf(w, st, u) == RightsLost) <==> exists u :: LosesRights(w, st, u)
  {
    hide Sanitize;
    forall u
      ensures u in Universe(st) && OutcomeOf(w, st, u) == RightsLost <==> LosesRights(w, st, u)
    {
    }
  }

  lemma OutcomeSpelledOut(w: World, st: Start, u: int)
    requires u in Universe(st) && OutcomeOf(w, st, u) != RightsLost
    ensures OutcomeOf(w, st, u) == Noop <==> u in st.desired && st.desired[u] == Recorded(st, u)
    ensures OutcomeOf(w, st, u) == Set <==>
              u in st.desired && st.desired[u] != Recorded(st, u) &&
              (AsksToSet(st, u) ==> w.reply(u) == Accepted && w.saved(u) >= 2)
    ensures OutcomeOf(w, st, u) == Cleared <==>
              Stale(st, u) && if ClearAgreed(w, st, u) then w.saved(u) >= 2 else u == 0
    ensures OutcomeOf(w, st, u) == Errored <==>
              || (AsksToSet(st, u) && !(w.reply(u) == Accepted && w.saved(u) >= 2))
              || (Stale(st, u) && if ClearAgreed(w, st, u) then w.saved(u) < 2 else u != 0)
  {
    hide Sanitize;
  }

  lemma CountsSpelledOut(w: World, st: Start, c: Counts)
    requires Counted(w, st, Universe(st), c)
    requires forall u :: u in Universe(st) ==> OutcomeOf(w, st, u) != RightsLost
    ensures CountsSay(w, st, c)
  {
    hide OutcomeOf, Stale, AsksToSet, ClearAgreed, Recorded, Universe, With;
    WantedSpelledOut(w, st);
    ClearedSpelledOut(w, st);
    FailedSpelledOut(w, st);
  }

  lemma WantedSpelledOut(w: World, st: Start)
    requires forall u :: u in Universe(st) ==> OutcomeOf(w, st, u) != RightsLost
    ensures With(w, st, Universe(st), Noop) == set u | u in st.desired && st.desired[u] == Recorded(st, u)
    ensures With(w, st, Universe(st), Set) ==
              set u | u in st.desired && st.desired[u] != Recorded(st, u) &&
                      (AsksToSet(st, u) ==> w.reply(u) == Accepted && w.saved(u) >= 2)
  {
    forall u | u in Universe(st) {
      OutcomeSpelledOut(w, st, u);
    }
    hide OutcomeOf, AsksToSet, Recorded;
  }

  lemma ClearedSpelledOut(w: World, st: Start)
    requires forall u :: u in Universe(st) ==> OutcomeOf(w, st, u) != RightsLost
    ensures With(w, st, Universe(st), Cleared) ==
              set u | u in st.index && Stale(st, u) && (if ClearAgreed(w, st, u) then w.saved(u) >= 2 else u == 0)
  {
    forall u | u in Universe(st) {
      OutcomeSpelledOut(w, st, u);
    }
    hide OutcomeOf, AsksToSet, ClearAgreed;
  }

  lemma FailedSpelledOut(w: World, st: Start)
    requires forall u :: u in Universe(st) ==> OutcomeOf(w, st, u) != RightsLost
    ensures With(w, st, Universe(st), Errored) ==
              set u | u in st.desired.Keys + st.index &&
                      ((AsksToSet(st, u) && !(w.reply(u) == Accepted && w.saved(u) >= 2)) ||
                       (Stale(st, u) && if ClearAgreed(w, st, u) then w.saved(u) < 2 else u != 0))
  {
    forall u | u in Universe(st) {
      OutcomeSpelledOut(w, st, u);
    }
    forall u | AsksToSet(st, u)
      ensures u in st.desired
    {
    }
    hide OutcomeOf, AsksToSet, ClearAgreed;
  }

  /** Users in `done` are settled, everyone else is as the pass found them. */
  ghost predicate SettledIn(w: World, st: Start, index: set<int>, hashes: map<int, string>, done: set<int>) {
    forall u :: SlotIn(index, hashes, u) == SettledSlot(w, st, done, u)
  }

  function SettledSlot(w: World, st: Start, done: set<int>, u: int): Slot {
    if u in done then SlotAfter(w, st.snapshot, u, StartSlot(st, u), Get(st.desired, u)) else StartSlot(st, u)
  }

  lemma SettledMore(w: World, st: Start, index: set<int>, hashes: map<int, string>, index': set<int>,
      hashes': map<int, string>, done: set<int>, user: int)
    requires SettledIn(w, st, index, hashes, done)
    requires SlotIn(index', hashes', user) ==
              SlotAfter(w, st.snapshot, user, StartSlot(st, user), Get(st.desired, user))
    requires forall u :: u != user ==> SlotIn(index', hashes', u) == SlotIn(index, hashes, u)
    ensures SettledIn(w, st, index', hashes', done + {user})
  {
    hide SlotAfter, SlotIn, Get;
  }

  lemma SettledSlots(w: World, st: Start, index: set<int>, hashes: map<int, string>, done: set<int>, user: int)
    requires SettledIn(w, st, index, hashes, done)
    ensures user !in done ==> SlotIn(index, hashes, user) == StartSlot(st, user)
  {
  }

  // ----- The pass -----

  datatype Counts = Counts(set_: nat, cleared: nat, noop: nat, errors: nat)

  class TagStore {
    var index: set<int>
    var hashes: map<int, string>
    var enabled: bool

    constructor ()
      ensures enabled && forall u :: SlotIn(index, hashes, u) == Slot(false, None)
    {
      index, hashes, enabled := {}, map[], true;
    }

    function SlotOf(user: int): Slot
      reads this`index, this`hashes
    {
      SlotIn(index, hashes, user)
    }

    function Owned(user: int): Option<string>
      reads this`index, this`hashes
    {
      OwnedTag(SlotOf(user))
    }

    method UpsertManagedMemberTag(user: int, tag: string, saved: nat) returns (ok: bool)
      requires user != 0
      modifies this`index, this`hashes
      ensures ok == (saved >= 2) && SlotOf(user) == Upserted(old(SlotOf(user)), tag, saved)
      ensures forall u :: u != user ==> SlotIn(index, hashes, u) == old(SlotIn(index, hashes, u))
    {
      if saved == 0 { return false; }
      index := index + {user};
      if saved == 1 { return false; }
      hashes := hashes[user := tag];
      return true;
    }

    method RemoveManagedMemberTag(user: int, saved: nat) returns (ok: bool)
      modifies this`index, this`hashes
      ensures ok == (saved >= 2) && SlotOf(user) == Removed(old(SlotOf(user)), saved)
      ensures forall u :: u != user ==> SlotIn(index, hashes, u) == old(SlotIn(index, hashes, u))
    {
      if saved == 0 { return false; }
      index := index - {user};
      if saved == 1 { return false; }
      hashes := hashes - {user};
      return true;
    }

    method ListManagedMemberTags() returns (existing: map<int, string>)
      ensures forall u :: Get(existing, u) == Owned(u)
    {
      existing := map u | u in index && u in hashes :: hashes[u];
    }

    method SetOwnedTag(w: World, user: int, tag: string) returns (ok: bool, rights: bool)
      requires TextOf(Owned(user)) != tag
      modifies this`index, this`hashes
      ensures SlotOf(user) == SlotAfter(w, None, user, old(SlotOf(user)), Some(tag))
      ensures forall u :: u != user ==> SlotIn(index, hashes, u) == old(SlotIn(index, hashes, u))
      ensures Judge(w, None, user, old(SlotOf(user)), Some(tag)) == if ok then Set else if rights then Errored
                else RightsLost
    {
      rights := true;
      if user == 0 { return true, true; }
      var clean := SanitizeMemberTag(tag);
      if clean == "" { return true, true; }
      if w.reply(user) != Accepted { return false, w.reply(user) != NoRights; }
      ok := UpsertManagedMemberTag(user, clean, w.saved(user));
    }

    method ClearManagedTag(w: World, user: int) returns (ok: bool, rights: bool)
      requires Owned(user).Some?
      modifies this`index, this`hashes
      ensures SlotOf(user) == SlotAfter(w, None, user, old(SlotOf(user)), None)
      ensures forall u :: u != user ==> SlotIn(index, hashes, u) == old(SlotIn(index, hashes, u))
      ensures Judge(w, None, user, old(SlotOf(user)), None) == if ok then Cleared else if rights then Errored
                else RightsLost
    {
      rights := true;
      if user == 0 { return true, true; }
      if w.reply(user) != Accepted && w.reply(user) != UserGone { return false, w.reply(user) != NoRights; }
      ok := RemoveManagedMemberTag(user, w.saved(user));
    }

    function Now(desired: map<int, string>, snapshot: Option<set<int>>): Start
      reads this`index, this`hashes
    {
      Start(index, hashes, desired, snapshot)
    }

    ghost predicate Settled(w: World, st: Start, done: set<int>)
      reads this`index, this`hashes
    {
      SettledIn(w, st, index, hashes, done)
    }

    /** One user: set a desired tag that is not owned yet, or clear an owned tag that is not desired. */
    method SettleUser(w: World, st: Start, user: int) returns (outcome: Outcome)
      requires SlotOf(user) == StartSlot(st, user) && user in Universe(st)
      modifies this`index, this`hashes
      ensures outcome == OutcomeOf(w, st, user)
      ensures SlotOf(user) == SlotAfter(w, st.snapshot, user, StartSlot(st, user), Get(st.desired, user))
      ensures forall u :: u != user ==> SlotIn(index, hashes, u) == old(SlotIn(index, hashes, u))
    {
      var ok, rights := true, true;
      if user in st.desired {
        if TextOf(Owned(user)) == st.desired[user] { return Noop; }
        ok, rights := SetOwnedTag(w, user, st.desired[user]);
        return if ok then Set else if rights then Errored else RightsLost;
      }
      if !Live(st.snapshot, user) {
        ok := RemoveManagedMemberTag(user, w.saved(user));
      } else {
        ok, rights := ClearManagedTag(w, user);
      }
      return if ok then Cleared else if rights then Errored else RightsLost;
    }

    /** One loop of the pass; a failure stops nobody else, losing the right to tag ends the pass. */
    method SettleUsers(w: World, st: Start, done: set<int>, users: set<int>, counts: Counts)
        returns (counts': Counts, lost: bool)
      requires done !! users && users <= Universe(st) && Settled(w, st, done) && Counted(w, st, done, counts)
      modifies this`index, this`hashes
      ensures !lost ==> Settled(w, st, done + users) && Counted(w, st, done + users, counts')
      ensures lost <==> exists u :: u in users && OutcomeOf(w, st, u) == RightsLost
    {
      counts' := counts;
      var settled, left := done, users;
      hide OutcomeOf, SlotAfter, Counted, Universe, SettledIn;
      while left != {}
        invariant left <= users && settled !! left && settled + left == done + users && Settled(w, st, settled) &&
                    Counted(w, st, settled, counts')
        invariant forall u :: u in users && OutcomeOf(w, st, u) == RightsLost ==> u in left
      {
        SomeInt(left);
        var u: int :| u in left;
        CountedMore(w, st, settled, u, counts');
        SettledSlots(w, st, index, hashes, settled, u);
        ghost var index0, hashes0 := index, hashes;
        var outcome := SettleUser(w, st, u);
        SettledMore(w, st, index0, hashes0, index, hashes, settled, u);
        if outcome == RightsLost { return counts', true; }
        settled, left := settled + {u}, left - {u};
        counts' := CountOne(counts', outcome);
      }
      assert settled == done + users;
      lost := false;
    }

    /** After losing the right to tag the group's sync is off and nothing is owned. */
    method DisableMemberTagSync()
      modifies this
      ensures !enabled && forall u :: Owned(u) == None
    {
      enabled := false;
      hashes, index := hashes - index, {};
    }

    /**
     The pass: it runs to the end unless some reply says the right to tag is lost, and then every
     record and every count is what the users' own replies make of them.
     */
    method SyncKnownMembers(w: World, desired: map<int, string>, snapshot: Option<set<int>>)
        returns (counts: Counts, disabled: bool)
      modifies this
      ensures disabled <==> exists u :: LosesRights(w, old(Now(desired, snapshot)), u)
      ensures disabled ==> !enabled && forall u :: !(u in index && u in hashes)
      ensures !disabled ==> enabled == old(enabled)
      ensures !disabled ==> forall u :: EndsWith(w, old(Now(desired, snapshot)), index, hashes, u)
      ensures !disabled ==> CountsSay(w, old(Now(desired, snapshot)), counts)
      ensures !disabled ==>
                SettledIn(w, old(Now(desired, snapshot)), index, hashes, Universe(old(Now(desired, snapshot))))
    {
      ghost var st := Now(desired, snapshot);
      hide EndsWith, LosesRights, CountsSay, SlotAfter, OutcomeOf, Counted, Universe, SettledIn;
      counts, disabled := ReconcileAll(w, desired, snapshot);
      LosingSpelledOut(w, st);
      if !disabled {
        forall u
          ensures EndsWith(w, st, index, hashes, u)
        {
          SlotsSpelledOut(w, st, index, hashes, u);
        }
        CountsSpelledOut(w, st, counts);
      } else {
        forall u
          ensures !(u in index && u in hashes)
        {
          NotOwned(u);
        }
      }
    }

    lemma NotOwned(u: int)
      requires Owned(u) == None
      ensures !(u in index && u in hashes)
    {
    }

    /** The same, user by user and in any order, as the model's functions say. */
    method ReconcileAll(w: World, desired: map<int, string>, snapshot: Option<set<int>>)
        returns (counts: Counts, disabled: bool)
      modifies this
      ensures disabled <==>
                exists u :: u in Universe(old(Now(desired, snapshot))) &&
                            OutcomeOf(w, old(Now(desired, snapshot)), u) == RightsLost
      ensures disabled ==> !enabled && forall u :: Owned(u) == None
      ensures !disabled ==> enabled == old(enabled)
      ensures !disabled ==>
                forall u :: SlotIn(index, hashes, u) ==
                            SlotAfter(w, snapshot, u, old(SlotIn(index, hashes, u)), Get(desired, u))
      ensures !disabled ==> Counted(w, old(Now(desired, snapshot)), Universe(old(Now(desired, snapshot))), counts)
      ensures !disabled ==>
                SettledIn(w, old(Now(desired, snapshot)), index, hashes, Universe(old(Now(desired, snapshot))))
    {
      var st := Now(desired, snapshot);
      var existing := ListManagedMemberTags();
      OwnedKeys(st, existing);
      NobodyCounted(w, st);
      SettledElsewhere(w, st);
      hide OutcomeOf, SlotAfter, Counted, Universe;
      counts, disabled := SettleUsers(w, st, {}, desired.Keys, Counts(0, 0, 0, 0));
      if !disabled {
        assert {} + desired.Keys == desired.Keys;
        counts, disabled := SettleUsers(w, st, desired.Keys, existing.Keys - desired.Keys, counts);
      }
      if disabled { DisableMemberTagSync(); }
    }
  }

  lemma OwnedKeys(st: Start, existing: map<int, string>)
    requires forall u :: Get(existing, u) == OwnedTag(StartSlot(st, u))
    ensures st.desired.Keys + (existing.Keys - st.desired.Keys) == Universe(st)
  {
    forall u
      ensures u in existing <==> u in st.index && u in st.hashes
    {
      assert Get(existing, u) == OwnedTag(StartSlot(st, u));
    }
    assert forall u :: u in existing.Keys <==> u in st.index && u in st.hashes;
  }

  /** Users that are neither desired nor owned are none of the pass's business. */
  lemma SettledElsewhere(w: World, st: Start)
    ensures forall u :: u !in Universe(st) ==>
              SlotAfter(w, st.snapshot, u, StartSlot(st, u), Get(st.desired, u)) == StartSlot(st, u)
  {
  }

  // ----- What a pass achieves -----

  /** Stored tags come from cleaned ones. */
  predicate CleanHash(slot: Slot) {
    slot.hash.Some? ==> Sanitized(slot.hash.value) && slot.hash.value != ""
  }

  lemma HashesStayClean(w: World, snapshot: Option<set<int>>, user: int, slot: Slot, want: Option<string>)
    requires CleanHash(slot)
    ensures CleanHash(SlotAfter(w, snapshot, user, slot, want))
  {
    if want.Some? {
      SanitizeSettles(want.value);
    }
  }

  /** A user whose calls all succeed owns the cleaned tag exactly when that tag is not blank, or nothing. */
  lemma SettledExactly(w: World, snapshot: Option<set<int>>, user: int, slot: Slot, want: Option<string>)
    requires user != 0 && CleanHash(slot)
    requires Judge(w, snapshot, user, slot, want) != Errored && Judge(w, snapshot, user, slot, want) != RightsLost
    ensures want.Some? ==>
              (OwnedTag(SlotAfter(w, snapshot, user, slot, want)) == Some(Sanitize(want.value)) <==>
                  Sanitize(want.value) != "")
    ensures want == None ==> OwnedTag(SlotAfter(w, snapshot, user, slot, want)) == None
  {
    if want.Some? {
      SanitizeSettles(want.value);
    }
  }

  /** The next pass leaves a settled tag alone exactly when the desired text is already clean. */
  lemma NextOutcome(w: World, snapshot: Option<set<int>>, user: int, slot: Slot, want: Option<string>)
    requires OwnedTag(slot) == match want case Some(tag) => Some(Sanitize(tag)) case None => None
    ensures want.Some? ==> (Judge(w, snapshot, user, slot, want) == Noop <==> Sanitized(want.value))
    ensures want == None ==> Judge(w, snapshot, user, slot, want) == Absent
  {
    if want.Some? {
      SanitizeSettles(want.value);
    }
  }

  predicate NoneBlank(desired: map<int, string>) {
    forall u :: u in desired ==> u != 0 && Sanitize(desired[u]) != ""
  }

  lemma NoErrors(w: World, st: Start, c: Counts, u: int)
    requires Counted(w, st, Universe(st), c) && c.errors == 0
    ensures OutcomeOf(w, st, u) != Errored
  {
    assert OutcomeOf(w, st, u) == Errored ==> u in With(w, st, Universe(st), Errored);
  }

  /**
   After a pass without errors the owned tags are the cleaned desired tags, and a second pass is
   all no-ops exactly when every desired tag was clean to begin with.
   */
  lemma CleanPassReconciles(w: World, st: Start, c: Counts, index: set<int>, hashes: map<int, string>, again: World)
    requires SettledIn(w, st, index, hashes, Universe(st)) && Counted(w, st, Universe(st), c) && c.errors == 0
    requires forall u :: OutcomeOf(w, st, u) != RightsLost
    requires NoneBlank(st.desired) && 0 !in st.index && forall u :: CleanHash(StartSlot(st, u))
    ensures forall u :: OwnedTag(SlotIn(index, hashes, u)) == if u in st.desired then Some(Sanitize(st.desired[u]))
              else None
    ensures var next := Start(index, hashes, st.desired, st.snapshot);
            && Universe(next) == st.desired.Keys
            && ((forall u :: u in Universe(next) ==> OutcomeOf(again, next, u) == Noop) <==>
                forall u :: u in st.desired ==> Sanitized(st.desired[u]))
  {
    var next := Start(index, hashes, st.desired, st.snapshot);
    SettledElsewhere(w, st);
    forall u
      ensures OwnedTag(SlotIn(index, hashes, u)) == if u in st.desired then Some(Sanitize(st.desired[u])) else None
      ensures u in st.desired ==> (OutcomeOf(again, next, u) == Noop <==> Sanitized(st.desired[u]))
    {
      NoErrors(w, st, c, u);
      SettledTag(w, st, index, hashes, u);
      NextOutcome(again, st.snapshot, u, SlotIn(index, hashes, u), Get(st.desired, u));
    }
    forall u | u in index && u in hashes
      ensures u in st.desired
    {
      assert OwnedTag(SlotIn(index, hashes, u)) == Some(hashes[u]);
    }
    assert Universe(next) == st.desired.Keys;
  }

  lemma SettledTag(w: World, st: Start, index: set<int>, hashes: map<int, string>, u: int)
    requires SettledIn(w, st, index, hashes, Universe(st)) && OutcomeOf(w, st, u) != RightsLost &&
              OutcomeOf(w, st, u) != Errored
    requires NoneBlank(st.desired) && 0 !in st.index && CleanHash(StartSlot(st, u))
    ensures OwnedTag(SlotIn(index, hashes, u)) == if u in st.desired then Some(Sanitize(st.desired[u])) else None
  {
    SettledElsewhere(w, st);
    if u != 0 {
      SettledExactly(w, st.snapshot, u, StartSlot(st, u), Get(st.desired, u));
    }
    hide Sanitize, SlotAfter, Judge;
    assert SlotIn(index, hashes, u) == SettledSlot(w, st, Universe(st), u);
  }
}
