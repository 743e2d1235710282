/** The store's membership operations and the index repair as sequential code over Redis sets. */
module MembershipStore {
  import opened RedisCommands
  import opened IndexSets
  import opened Membership

  // ----- Counting pairs -----

  function Extra(a: set<int>, b: set<int>): nat {
    |a - b|
  }

  lemma {:induction false} PairsOfOne(user: int, groups: set<int>)
    ensures |set g | g in groups :: (user, g)| == |groups|
  {
    if groups != {} {
      SomeInt(groups);
      var g: int :| g in groups;
      PairsOfOne(user, groups - {g});
      assert (set x | x in groups :: (user, x)) == (set x | x in groups - {g} :: (user, x)) + {(user, g)};
    } else {
      assert (set g | g in groups :: (user, g)) == {};
    }
  }

  lemma MissingAdd(ix: Index, a: set<int>, b: set<int>)
    requires a !! b
    ensures |MissingLinks(ix, a + b)| == |MissingLinks(ix, a)| + |MissingLinks(ix, b)|
  {
    hide Wanted, SetAt;
    assert MissingLinks(ix, a + b) == MissingLinks(ix, a) + MissingLinks(ix, b);
    assert MissingLinks(ix, a) !! MissingLinks(ix, b);
  }

  lemma StaleAdd(ix: Index, a: set<int>, b: set<int>)
    requires a !! b
    ensures |StaleLinks(ix, a + b)| == |StaleLinks(ix, a)| + |StaleLinks(ix, b)|
  {
    hide Wanted, SetAt;
    assert StaleLinks(ix, a + b) == StaleLinks(ix, a) + StaleLinks(ix, b);
    assert StaleLinks(ix, a) !! StaleLinks(ix, b);
  }

  lemma WrongAdd(ix: Index, a: set<int>, b: set<int>)
    requires a !! b
    ensures |WrongUsers(ix, a + b)| == |WrongUsers(ix, a)| + |WrongUsers(ix, b)|
  {
    hide Wanted, SetAt;
    assert WrongUsers(ix, a + b) == WrongUsers(ix, a) + WrongUsers(ix, b);
  }

  lemma LinksOfOne(ix: Index, user: int)
    ensures |MissingLinks(ix, {user})| == Extra(Wanted(ix, user), SetAt(ix.reverse, user))
    ensures |StaleLinks(ix, {user})| == Extra(SetAt(ix.reverse, user), Wanted(ix, user))
    ensures |WrongUsers(ix, {user})| == if SetAt(ix.reverse, user) != Wanted(ix, user) then 1 else 0
  {
    hide Wanted, SetAt;
    var missing, stale := Wanted(ix, user) - SetAt(ix.reverse, user), SetAt(ix.reverse, user) - Wanted(ix, user);
    PairsOfOne(user, missing);
    PairsOfOne(user, stale);
    assert MissingLinks(ix, {user}) == set g | g in missing :: (user, g);
    assert StaleLinks(ix, {user}) == set g | g in stale :: (user, g);
    assert WrongUsers(ix, {user}) == if SetAt(ix.reverse, user) != Wanted(ix, user) then {user} else {};
  }

  lemma ForgetMore(records: map<(int, int), Record>, groups: set<int>, g: int, user: int)
    ensures Forget(records, groups, user) - {(g, user)} == Forget(records, groups + {g}, user)
  {
  }

  lemma ForgetNone(records: map<(int, int), Record>, user: int)
    ensures Forget(records, {}, user) == records
  {
  }

  function TrackersIn(tracked: map<int, set<int>>, groups: set<int>, user: int): set<int> {
    set g | g in groups && user in SetAt(tracked, g)
  }

  lemma TrackedInMore(tracked: map<int, set<int>>, groups: set<int>, g: int)
    ensures forall u :: TrackersIn(tracked, groups + {g}, u) == TrackersIn(tracked, groups, u) +
              if u in SetAt(tracked, g) then {g} else {}
    ensures TrackedIn(tracked, groups + {g}) == TrackedIn(tracked, groups) + SetAt(tracked, g)
  {
    assert forall u :: u in SetAt(tracked, g) ==> u in TrackedIn(tracked, groups + {g});
  }

  /** A second repair finds nothing to count and nothing to write. */
  lemma RepairedIsClean(ix: Index)
    requires ix.managed != {}
    ensures var end := Repaired(ix);
            && Candidates(end) == Candidates(ix)
            && MissingLinks(end, Candidates(end)) == {} && StaleLinks(end, Candidates(end)) == {}
            && WrongUsers(end, Candidates(end)) == {}
  {
    var end := Repaired(ix);
    assert Candidates(end) == Candidates(ix);
    forall u | u in Candidates(end)
      ensures SetAt(end.reverse, u) == Wanted(end, u)
    {
      assert Wanted(end, u) == Wanted(ix, u);
    }
  }

  predicate Distinct(users: seq<int>) {
    forall i, j :: 0 <= i < j < |users| ==> users[i] != users[j]
  }

  lemma OneMoreId(ids: seq<int>, i: nat)
    requires i < |ids| && Distinct(ids)
    ensures Elements(ids[..i + 1]) == Elements(ids[..i]) + {ids[i]} && ids[i] !in Elements(ids[..i]) &&
              ids[i] in Elements(ids)
  {
    assert ids[..i + 1] == ids[..i] + [ids[i]];
  }

  /** The three counts of a repair over the given users. */
  ghost predicate Counted(ix: Index, users: set<int>, repaired: nat, missing: nat, stale: nat) {
    && missing == |MissingLinks(ix, users)| && stale == |StaleLinks(ix, users)|
    && repaired == |WrongUsers(ix, users)|
  }

  lemma NobodyCounted(ix: Index)
    ensures Counted(ix, {}, 0, 0, 0)
  {
    assert MissingLinks(ix, {}) == {} && StaleLinks(ix, {}) == {} && WrongUsers(ix, {}) == {};
  }

  lemma CountOneMore(ix: Index, ids: seq<int>, i: nat, repaired: nat, missing: nat, stale: nat, add: nat, drop: nat)
    requires i < |ids| && Distinct(ids) && Counted(ix, Elements(ids[..i]), repaired, missing, stale)
    requires add == Extra(Wanted(ix, ids[i]), SetAt(ix.reverse, ids[i])) &&
              drop == Extra(SetAt(ix.reverse, ids[i]), Wanted(ix, ids[i]))
    ensures Counted(ix, Elements(ids[..i + 1]), repaired + if add > 0 || drop > 0 then 1
              else 0, missing + add, stale + drop)
    ensures add == drop == 0 ==> Wanted(ix, ids[i]) == SetAt(ix.reverse, ids[i])
    ensures Elements(ids[..i + 1]) == Elements(ids[..i]) + {ids[i]} && ids[i] !in Elements(ids[..i])
  {
    OneMoreId(ids, i);
    hide MissingLinks, StaleLinks, WrongUsers, Wanted, Elements, Extra;
    MissingAdd(ix, Elements(ids[..i]), {ids[i]});
    StaleAdd(ix, Elements(ids[..i]), {ids[i]});
    WrongAdd(ix, Elements(ids[..i]), {ids[i]});
    LinksOfOne(ix, ids[i]);
    DifferIffCounted(Wanted(ix, ids[i]), SetAt(ix.reverse, ids[i]));
  }

  lemma UntrackedMore(ix: Index, user: int, gone: set<int>, g: int)
    ensures RemoveUntracked(DeleteUntrackedIn(ix, user, gone), g, user, 2) == DeleteUntrackedIn(ix, user, gone + {g})
  {
    DropFromMore(ix.untracked, gone, g, user);
    ForgetMore(ix.records, gone, g, user);
    hide DropFrom, DropAt, Forget;
  }

  lemma NothingUntracked(ix: Index, user: int)
    ensures DeleteUntrackedIn(ix, user, {}) == ix
  {
    DropFromNone(ix.untracked, user);
    ForgetNone(ix.records, user);
  }

  lemma PrefixIds(ids: seq<int>, i: nat)
    requires i < |ids|
    ensures Elements(ids[..i]) <= Elements(ids) && ids[i] in Elements(ids)
  {
  }

  /** Some of the observed memberships are gone, another one perhaps halfway, and nothing else. */
  ghost predicate CutShort(was: Index, ix: Index, user: int, done: nat) {
    exists gone, last :: gone <= ObservedIn(was, user) && last in ObservedIn(was, user) - gone &&
        ix == CutErasure(was, user, gone, last, done)
  }

  /** An erasure whose removal after `limit` others fails, or whose transaction does. */
  ghost predicate HalfErased(was: Index, ix: Index, user: int, limit: nat, done: nat) {
    if |ObservedIn(was, user)| > limit then CutShort(was, ix, user, done)
    else ix == CutErasure(was, user, ObservedIn(was, user), 0, 0)
  }

  /** Nobody is displaced, or the erasure gets through. */
  predicate CanErase(was: Index, displaced: int, limit: nat, commits: bool) {
    displaced != 0 ==> |ObservedIn(was, displaced)| <= limit && commits
  }

  /** Nothing differs but what concerns this user in this group. */
  ghost predicate SameElsewhere(was: Index, ix: Index, chat: int, user: int) {
    && ix.managed == was.managed && ix.users == was.users
    && ix.identity == was.identity && ix.byTwitch == was.byTwitch
    && forall c, u :: c != chat || u != user ==>
         && (u in SetAt(ix.tracked, c) <==> u in SetAt(was.tracked, c))
         && (u in SetAt(ix.untracked, c) <==> u in SetAt(was.untracked, c))
         && (c in SetAt(ix.reverse, u) <==> c in SetAt(was.reverse, u))
         && Get(ix.records, (c, u)) == Get(was.records, (c, u))
  }

  /** What an erasure takes: the user's links, the groups of their reverse set, and the managed groups
      that observe them; everybody else keeps everything. */
  ghost predicate ErasedExactly(was: Index, ix: Index, user: int) {
    && ix.managed == was.managed && ix.users == was.users - {user} && ix.identity == was.identity - {user}
    && (forall t :: Get(ix.byTwitch, t) == if t != "" && Get(was.identity, user) == Some(t) then None
                                           else Get(was.byTwitch, t))
    && forall g, u :: ErasedAt(was, ix, user, g, u)
  }

  ghost predicate ErasedAt(was: Index, ix: Index, user: int, g: int, u: int) {
    var joined := u == user && g in SetAt(was.reverse, u);
    var observed := u == user && g in was.managed && Get(was.records, (g, u)).Some? &&
                    was.records[(g, u)].standing == Untracked;
    && (u in SetAt(ix.tracked, g) <==> u in SetAt(was.tracked, g) && !joined)
    && (u in SetAt(ix.untracked, g) <==> u in SetAt(was.untracked, g) && !observed)
    && (g in SetAt(ix.reverse, u) <==> g in SetAt(was.reverse, u) && u != user)
    && Get(ix.records, (g, u)) == if joined || observed then None else Get(was.records, (g, u))
  }

  lemma ErasureSpelledOut(ix: Index, user: int)
    ensures ErasedExactly(ix, DeleteUser(ix, user), user)
  {
    var end := DeleteUser(ix, user);
    forall g, u
      ensures ErasedAt(ix, end, user, g, u)
    {
      PairErased(ix, user, g, u);
    }
  }

  lemma PairErased(ix: Index, user: int, g: int, u: int)
    ensures ErasedAt(ix, DeleteUser(ix, user), user, g, u)
  {
    hide Forget, DropFrom;
    var observed := ObservedIn(ix, user);
    var a := DeleteUntrackedIn(ix, user, observed);
    ForgetGet(ix.records, observed, user, g, u);
    ForgetGet(a.records, SetAt(ix.reverse, user), user, g, u);
  }

  lemma ForgetGet(records: map<(int, int), Record>, groups: set<int>, user: int, g: int, u: int)
    ensures Get(Forget(records, groups, user), (g, u)) ==
            if u == user && g in groups then None else Get(records, (g, u))
  {
  }

  class Store {
    var managed: set<int>
    var tracked: map<int, set<int>>
    var untracked: map<int, set<int>>
    var reverse: map<int, set<int>>
    var records: map<(int, int), Record>
    var users: set<int>
    var identity: map<int, string>
    var byTwitch: map<string, int>

    function Now(): Index
      reads this
    {
      Index(managed, tracked, untracked, reverse, records, users, identity, byTwitch)
    }

    constructor ()
      ensures Now() == BLANK
    {
      managed, tracked, untracked, reverse, records := {}, map[], map[], map[], map[];
      users, identity, byTwitch := {}, map[], map[];
    }

    // ----- Pipelines -----

    method AddTrackedGroupMember(chat: int, user: int, at: int, done: nat) returns (ok: bool)
      modifies this`tracked, this`untracked, this`reverse, this`records
      ensures Now() == AddTracked(old(Now()), chat, user, at, done) && ok == (done >= 4)
      ensures SameElsewhere(old(Now()), Now(), chat, user)
      ensures user in SetAt(tracked, chat) <==> done >= 1 || user in SetAt(old(tracked), chat)
      ensures user in SetAt(untracked, chat) <==> done < 2 && user in SetAt(old(untracked), chat)
      ensures chat in SetAt(reverse, user) <==> done >= 3 || chat in SetAt(old(reverse), user)
      ensures Get(records, (chat, user)) ==
                if done >= 4 then Some(Record(Tracked, at)) else Get(old(records), (chat, user))
    {
      if done == 0 { return false; }
      tracked := AddAt(tracked, chat, user);
      if done == 1 { return false; }
      untracked := DropAt(untracked, chat, user);
      if done == 2 { return false; }
      reverse := AddAt(reverse, user, chat);
      if done == 3 { return false; }
      records := records[(chat, user) := Record(Tracked, at)];
      return true;
    }

    method RemoveTrackedGroupMember(chat: int, user: int, done: nat) returns (ok: bool)
      modifies this`tracked, this`reverse, this`records
      ensures Now() == RemoveTracked(old(Now()), chat, user, done) && ok == (done >= 3)
      ensures SameElsewhere(old(Now()), Now(), chat, user)
      ensures user in SetAt(tracked, chat) <==> done < 1 && user in SetAt(old(tracked), chat)
      ensures chat in SetAt(reverse, user) <==> done < 2 && chat in SetAt(old(reverse), user)
      ensures user in SetAt(untracked, chat) <==> user in SetAt(old(untracked), chat)
      ensures Get(records, (chat, user)) == if done >= 3 then None else Get(old(records), (chat, user))
    {
      if done == 0 { return false; }
      tracked := DropAt(tracked, chat, user);
      if done == 1 { return false; }
      reverse := DropAt(reverse, user, chat);
      if done == 2 { return false; }
      records := records - {(chat, user)};
      return true;
    }

    method UpsertUntrackedGroupMember(chat: int, user: int, at: int, done: nat) returns (ok: bool)
      modifies this`untracked, this`records
      ensures Now() == UpsertUntracked(old(Now()), chat, user, at, done) && ok == (done >= 3)
      ensures SameElsewhere(old(Now()), Now(), chat, user)
      ensures user in SetAt(untracked, chat) <==> done >= 1 || user in SetAt(old(untracked), chat)
      ensures user in SetAt(tracked, chat) <==> user in SetAt(old(tracked), chat)
      ensures chat in SetAt(reverse, user) <==> chat in SetAt(old(reverse), user)
      ensures Get(records, (chat, user)) ==
                match Get(old(records), (chat, user))
                case Some(r) => Some(if done >= 3 then Record(Untracked, r.firstSeen) else r)
                case None => if done < 2 then None else Some(Record(if done == 2 then Bare else Untracked, at))
    {
      if done == 0 { return false; }
      untracked := AddAt(untracked, chat, user);
      if done == 1 { return false; }
      if (chat, user) !in records {
        records := records[(chat, user) := Record(Bare, at)];
      }
      if done == 2 { return false; }
      records := records[(chat, user) := records[(chat, user)].(standing := Untracked)];
      return true;
    }

    method RemoveUntrackedGroupMember(chat: int, user: int, done: nat) returns (ok: bool)
      modifies this`untracked, this`records
      ensures Now() == RemoveUntracked(old(Now()), chat, user, done) && ok == (done >= 2)
      ensures SameElsewhere(old(Now()), Now(), chat, user)
      ensures user in SetAt(untracked, chat) <==> done < 1 && user in SetAt(old(untracked), chat)
      ensures user in SetAt(tracked, chat) <==> user in SetAt(old(tracked), chat)
      ensures chat in SetAt(reverse, user) <==> chat in SetAt(old(reverse), user)
      ensures Get(records, (chat, user)) == if done >= 2 then None else Get(old(records), (chat, user))
    {
      if done == 0 { return false; }
      untracked := DropAt(untracked, chat, user);
      if done == 1 { return false; }
      records := records - {(chat, user)};
      return true;
    }

    // ----- Deletions -----

    method DeleteManagedGroup(chat: int)
      modifies this`managed, this`tracked, this`untracked, this`reverse
      ensures Now() == DeleteGroup(old(Now()), chat)
      ensures managed == old(managed) - {chat} && (chat !in old(managed) ==> Now() == old(Now()))
      ensures chat in old(managed) ==>
                && SetAt(tracked, chat) == SetAt(untracked, chat) == {}
                && (forall g :: g != chat ==> SetAt(tracked, g) == SetAt(old(tracked), g) &&
                                              SetAt(untracked, g) == SetAt(old(untracked), g))
                && (forall u, g :: g in SetAt(reverse, u) <==>
                      g in SetAt(old(reverse), u) && !(g == chat && u in SetAt(old(tracked), chat)))
    {
      if chat !in managed { return; }
      hide DropFrom, DropAt;
      var members := SetAt(tracked, chat);
      var left := members;
      DropFromNone(reverse, chat);
      while left != {}
        invariant left <= members && reverse == DropFrom(old(reverse), members - left, chat)
        invariant managed == old(managed) && tracked == old(tracked) && untracked == old(untracked)
      {
        SomeInt(left);
        var u: int :| u in left;
        DropFromMore(old(reverse), members - left, u, chat);
        assert members - left + {u} == members - (left - {u});
        left := left - {u};
        reverse := DropAt(reverse, u, chat);
      }
      assert members - left == members;
      managed, tracked, untracked := managed - {chat}, tracked - {chat}, untracked - {chat};
    }

    /** `limit` removals succeed; the next one stops after `done` commands. */
    method DeleteAllUntrackedMembershipsForUser(user: int, limit: nat, done: nat) returns (ok: bool)
      requires done < 2
      modifies this`untracked, this`records
      ensures ok <==> |ObservedIn(old(Now()), user)| <= limit
      ensures ok ==> Now() == DeleteUntrackedIn(old(Now()), user, ObservedIn(old(Now()), user))
      ensures !ok ==> CutShort(old(Now()), Now(), user, done)
    {
      ghost var was := Now();
      var items := ListUsers(set g | g in managed && (g, user) in records && records[(g, user)].standing == Untracked);
      assert Elements(items) == ObservedIn(was, user) && Elements(items[..0]) == {};
      NothingUntracked(was, user);
      hide DeleteUntrackedIn, ObservedIn, RemoveUntracked, Elements, Distinct;
      for i := 0 to |items|
        invariant i <= limit && Now() == DeleteUntrackedIn(was, user, Elements(items[..i]))
      {
        OneMoreId(items, i);
        if i == limit {
          ok := RemoveUntrackedGroupMember(items[i], user, done);
          PrefixIds(items, i);
          assert Now() == CutErasure(was, user, Elements(items[..i]), items[i], done);
          return;
        }
        UntrackedMore(was, user, Elements(items[..i]), items[i]);
        var _ := RemoveUntrackedGroupMember(items[i], user, 2);
      }
      assert items[..|items|] == items;
      return true;
    }

    /** Everything, or some of the removals when one of them fails, or all of them and no more when the
        transaction does. */
    method DeleteAllUserData(user: int, limit: nat, done: nat, commits: bool) returns (ok: bool)
      requires done < 2
      modifies this
      ensures ok <==> |ObservedIn(old(Now()), user)| <= limit && commits
      ensures ok ==> Now() == DeleteUser(old(Now()), user) && ErasedExactly(old(Now()), Now(), user)
      ensures !ok ==> HalfErased(old(Now()), Now(), user, limit, done)
    {
      var twitch := if user in identity then identity[user] else "";
      ok := DeleteAllUntrackedMembershipsForUser(user, limit, done);
      if !ok || !commits { return false; }
      FinishErasure(user, twitch);
      ErasureSpelledOut(old(Now()), user);
    }

    /** The transaction. */
    method FinishErasure(user: int, twitch: string)
      modifies this`tracked, this`records, this`reverse, this`identity, this`users, this`byTwitch
      ensures tracked == DropFrom(old(tracked), SetAt(old(reverse), user), user)
      ensures records == Forget(old(records), SetAt(old(reverse), user), user)
      ensures reverse == old(reverse) - {user} && identity == old(identity) - {user} && users == old(users) - {user}
      ensures byTwitch == if twitch != "" then old(byTwitch) - {twitch} else old(byTwitch)
    {
      DropMemberships(user);
      reverse, identity, users := reverse - {user}, identity - {user}, users - {user};
      if twitch != "" { byTwitch := byTwitch - {twitch}; }
    }

    /** The transaction's part that undoes each tracked membership. */
    method DropMemberships(user: int)
      modifies this`tracked, this`records
      ensures tracked == DropFrom(old(tracked), SetAt(reverse, user), user)
      ensures records == Forget(old(records), SetAt(reverse, user), user)
    {
      hide DropFrom, DropAt, Forget;
      var groups := SetAt(reverse, user);
      var left := groups;
      assert groups - left == {};
      DropFromNone(tracked, user);
      ForgetNone(records, user);
      while left != {}
        invariant left <= groups
        invariant tracked == DropFrom(old(tracked), groups - left, user)
        invariant records == Forget(old(records), groups - left, user)
      {
        SomeInt(left);
        var g: int :| g in left;
        DropFromMore(old(tracked), groups - left, g, user);
        ForgetMore(old(records), groups - left, g, user);
        assert groups - left + {g} == groups - (left - {g});
        left := left - {g};
        tracked := DropAt(tracked, g, user);
        records := records - {(g, user)};
      }
      assert groups - left == groups;
    }

    // ----- Linking -----

    /** The erasure of the present holder may fail, as in `DeleteAllUserData`. */
    method PrepareTwitchLink(user: int, twitch: string, limit: nat, done: nat, commits: bool)
      returns (ok: bool, res: LinkResult)
      requires done < 2
      modifies this
      ensures res == if LinkedElsewhere(old(Now()), user, twitch) then DifferentTwitch
                     else Linked(Displaced(old(Now()), user, twitch))
      ensures res == DifferentTwitch <==>
                user in old(identity) && old(identity)[user] != "" && old(identity)[user] != twitch
      ensures res.Linked? ==> res.displaced == if twitch in old(byTwitch) && old(byTwitch)[twitch] != user
                                               then old(byTwitch)[twitch] else 0
      ensures ok && (res.Linked? ==> res.displaced == 0) ==> Now() == old(Now())
      ensures ok && res.Linked? && res.displaced != 0 ==> ErasedExactly(old(Now()), Now(), res.displaced)
      ensures ok <==> (res.Linked? ==> CanErase(old(Now()), res.displaced, limit, commits))
      ensures ok ==> Now() == if res.Linked? then Prepared(old(Now()), user, twitch) else old(Now())
      ensures !ok ==> HalfErased(old(Now()), Now(), res.displaced, limit, done)
    {
      if user in identity && identity[user] != "" && identity[user] != twitch { return true, DifferentTwitch; }
      if twitch !in byTwitch || byTwitch[twitch] == user { return true, Linked(0); }
      var holder := byTwitch[twitch];
      if holder == 0 { return true, Linked(0); }
      ok := DeleteAllUserData(holder, limit, done, commits);
      return ok, Linked(holder);
    }

    /** A failing erasure or script call stops the link there: the holder may then be erased for nothing. */
    method SaveUserIdentityOnly(user: int, twitch: string, limit: nat, done: nat, commits: bool, runs: bool)
      returns (ok: bool, res: LinkResult)
      requires done < 2
      modifies this
      ensures ok <==> LinkedElsewhere(old(Now()), user, twitch) ||
                      (CanErase(old(Now()), Displaced(old(Now()), user, twitch), limit, commits) && runs)
      ensures ok ==> (Now(), res) == Link(old(Now()), user, twitch)
      ensures ok ==> (res == DifferentTwitch <==>
                        user in old(identity) && old(identity)[user] != "" && old(identity)[user] != twitch)
      ensures ok && res == DifferentTwitch ==> Now() == old(Now())
      ensures ok && res.Linked? ==>
                && res.displaced == (if twitch in old(byTwitch) && old(byTwitch)[twitch] != user
                                     then old(byTwitch)[twitch] else 0)
                && identity ==
                   (if res.displaced == 0 then old(identity) else old(identity) - {res.displaced})[user := twitch]
                && users == (if res.displaced == 0 then old(users) else old(users) - {res.displaced}) + {user}
                && byTwitch[twitch := user] == byTwitch
      ensures !ok ==>
                if CanErase(old(Now()), Displaced(old(Now()), user, twitch), limit, commits)
                then Now() == Prepared(old(Now()), user, twitch)
                else HalfErased(old(Now()), Now(), Displaced(old(Now()), user, twitch), limit, done)
    {
      hide DeleteUser;
      ok, res := PrepareTwitchLink(user, twitch, limit, done, commits);
      if !ok || res == DifferentTwitch { return; }
      if !runs { return false, res; }
      if user in identity && identity[user] != "" && identity[user] != twitch { return true, DifferentTwitch; }
      identity, byTwitch, users := identity[user := twitch], byTwitch[twitch := user], users + {user};
    }

    // ----- Repair -----

    /** Who is to be looked at, and which managed groups track each of them. */
    method ScanForward() returns (candidates: set<int>, wanted: map<int, set<int>>)
      ensures candidates == Candidates(Now())
      ensures candidates == users + set g, u | g in managed && u in SetAt(tracked, g) :: u
      ensures forall u :: SetAt(wanted, u) == Wanted(Now(), u) == set g | g in managed && u in SetAt(tracked, g)
    {
      candidates, wanted := {}, map[];
      var left := managed;
      while left != {}
        invariant left <= managed && candidates == TrackedIn(tracked, managed - left)
        invariant forall u :: SetAt(wanted, u) == TrackersIn(tracked, managed - left, u)
      {
        SomeInt(left);
        var g: int :| g in left;
        TrackedInMore(tracked, managed - left, g);
        assert managed - (left - {g}) == (managed - left) + {g};
        left := left - {g};
        candidates, wanted := ScanGroup(g, SetAt(tracked, g), candidates, wanted);
      }
      assert managed - left == managed;
      candidates := users + candidates;
    }

    /** One read pipeline for the batch, one write transaction at its end. */
    method RepairBatch(ids: seq<int>, wanted: map<int, set<int>>) returns (repaired: nat, missing: nat, stale: nat)
      requires Distinct(ids) && forall u :: SetAt(wanted, u) == Wanted(Now(), u)
      modifies this`reverse
      ensures Rewrites(reverse, old(Now()), Elements(ids)) &&
                Counted(old(Now()), Elements(ids), repaired, missing, stale)
    {
      NoneWrong(Now(), Elements(ids));
      hide MissingLinks, StaleLinks, WrongUsers, Wanted, Distinct, Elements;
      var rewritten;
      rewritten, repaired, missing, stale := PlanBatch(ids, wanted, reverse, Now());
      if repaired > 0 { reverse := rewritten; }
    }

    /** The next batch: the users before it are repaired already and keep their sets and counts. */
    method RepairSlice(raw: seq<int>, start: nat, end: nat, wanted: map<int, set<int>>, ghost was: Index,
        repaired: nat, missing: nat, stale: nat)
      returns (repaired': nat, missing': nat, stale': nat)
      requires Distinct(raw) && start <= end <= |raw| && Now() == was.(reverse := reverse) &&
                forall u :: SetAt(wanted, u) == Wanted(was, u)
      requires Rewrites(reverse, was, Elements(raw[..start])) &&
                Counted(was, Elements(raw[..start]), repaired, missing, stale)
      modifies this`reverse
      ensures Rewrites(reverse, was, Elements(raw[..end])) &&
                Counted(was, Elements(raw[..end]), repaired', missing', stale')
    {
      SliceIds(raw, start, end);
      WantedKept(was, reverse);
      hide Rewrites, Counted, Wanted, Elements, Distinct;
      ghost var mid := Now();
      var r, m, st := RepairBatch(raw[start..end], wanted);
      JoinBatches(was, mid, reverse, Elements(raw[..start]), Elements(raw[start..end]), repaired, missing, stale, r,
          m, st);
      return repaired + r, missing + m, stale + st;
    }

    /**
     The audit in batches; `okBatches` batches succeed before one fails. The counts do not depend on
     the batch size, and with no managed group nothing is looked at.
     */
    method RepairTrackedGroupReverseIndex(batch: nat, okBatches: nat)
      returns (ok: bool, indexUsers: nat, repaired: nat, missing: nat, stale: nat)
      requires batch > 0
      modifies this`reverse
      ensures old(managed) == {} ==> ok && reverse == old(reverse) && indexUsers == repaired == missing == stale == 0
      ensures old(managed) != {} && ok ==>
                && Rewrites(reverse, old(Now()), Candidates(old(Now()))) && indexUsers == |Candidates(old(Now()))|
                && Counted(old(Now()), Candidates(old(Now())), repaired, missing, stale)
      ensures !ok ==> exists done: set<int> :: done <= Candidates(old(Now())) && Rewrites(reverse, old(Now()), done)
      ensures !ok ==> forall u :: SetAt(reverse, u) == SetAt(old(reverse), u) ||
                                  SetAt(reverse, u) == set h | h in managed && u in SetAt(tracked, h)
      ensures old(managed) != {} && ok ==>
                var looked := users + set h, u | h in managed && u in SetAt(tracked, h) :: u;
                && (forall u :: SetAt(reverse, u) ==
                                if u in looked then set h | h in managed && u in SetAt(tracked, h)
                                else SetAt(old(reverse), u))
                && indexUsers == |looked|
                && missing == |set h, u | h in managed && u in SetAt(tracked, h) &&
                                          h !in SetAt(old(reverse), u) :: (u, h)|
                && stale == |set u, h | u in looked && h in SetAt(old(reverse), u) &&
                                        !(h in managed && u in SetAt(tracked, h)) :: (u, h)|
                && repaired == |set u | u in looked &&
                                        SetAt(old(reverse), u) != set h | h in managed && u in SetAt(tracked, h)|
    {
      RepairSpelledOut(Now());
      hide Candidates, Wanted, TrackedIn;
      ok, indexUsers, repaired, missing, stale := RepairInBatches(batch, okBatches);
    }

    /** The loop, up to the batch that fails. */
    method RepairInBatches(batch: nat, okBatches: nat)
      returns (ok: bool, indexUsers: nat, repaired: nat, missing: nat, stale: nat)
      requires batch > 0
      modifies this`reverse
      ensures old(managed) == {} ==> ok && reverse == old(reverse) && indexUsers == repaired == missing == stale == 0
      ensures old(managed) != {} && ok ==>
                && Rewrites(reverse, old(Now()), Candidates(old(Now()))) && indexUsers == |Candidates(old(Now()))|
                && Counted(old(Now()), Candidates(old(Now())), repaired, missing, stale)
      ensures !ok ==> exists done: set<int> :: done <= Candidates(old(Now())) && Rewrites(reverse, old(Now()), done)
    {
      ok, indexUsers, repaired, missing, stale := true, 0, 0, 0, 0;
      if managed == {} { return; }
      ghost var was := Now();
      var candidates, wanted := ScanForward();
      var raw := ListUsers(candidates);
      NobodyCounted(was);
      assert Rewrites(reverse, was, {}) && Elements(raw[..0]) == {};
      hide Rewrites, Counted, Candidates, Wanted, Elements, Distinct, SetAt, TrackedIn;
      var start, batches := 0, 0;
      while start < |raw|
        invariant 0 <= start <= |raw| && Now() == was.(reverse := reverse)
        invariant Rewrites(reverse, was, Elements(raw[..start])) &&
                    Counted(was, Elements(raw[..start]), repaired, missing, stale)
        invariant indexUsers == start
        decreases |raw| - start
      {
        var end := if start + batch < |raw| then start + batch else |raw|;
        SliceIds(raw, start, end);
        if batches == okBatches {
          return false, 0, 0, 0, 0;
        }
        repaired, missing, stale := RepairSlice(raw, start, end, wanted, was, repaired, missing, stale);
        indexUsers := indexUsers + (end - start);
        start, batches := end, batches + 1;
      }
      assert raw[..|raw|] == raw;
    }
  }

  /** The repair's sets without their names. */
  lemma RepairSpelledOut(ix: Index)
    ensures var looked := ix.users + set h, u | h in ix.managed && u in SetAt(ix.tracked, h) :: u;
            && Candidates(ix) == looked
            && (forall u :: Wanted(ix, u) == set h | h in ix.managed && u in SetAt(ix.tracked, h))
            && MissingLinks(ix, looked) == (set h, u | h in ix.managed && u in SetAt(ix.tracked, h) &&
                                                       h !in SetAt(ix.reverse, u) :: (u, h))
            && StaleLinks(ix, looked) == (set u, h | u in looked && h in SetAt(ix.reverse, u) &&
                                                     !(h in ix.managed && u in SetAt(ix.tracked, h)) :: (u, h))
            && WrongUsers(ix, looked) == (set u | u in looked &&
                                                  SetAt(ix.reverse, u) !=
                                                    set h | h in ix.managed && u in SetAt(ix.tracked, h))
  {
  }

  lemma WantedKept(ix: Index, reverse: map<int, set<int>>)
    ensures forall u :: Wanted(ix.(reverse := reverse), u) == Wanted(ix, u)
  {
  }

  lemma SliceIds(raw: seq<int>, start: nat, end: nat)
    requires Distinct(raw) && start <= end <= |raw|
    ensures Elements(raw[..end]) == Elements(raw[..start]) + Elements(raw[start..end]) &&
              Elements(raw[..start]) !! Elements(raw[start..end])
    ensures Distinct(raw[start..end]) && Elements(raw[..start]) <= Elements(raw)
  {
    assert raw[..end] == raw[..start] + raw[start..end];
  }

  lemma SameCounts(ix: Index, mid: Index, users: set<int>)
    requires mid == ix.(reverse := mid.reverse) && forall u :: u in users ==>
              SetAt(mid.reverse, u) == SetAt(ix.reverse, u)
    ensures MissingLinks(mid, users) == MissingLinks(ix, users)
    ensures StaleLinks(mid, users) == StaleLinks(ix, users)
    ensures WrongUsers(mid, users) == WrongUsers(ix, users)
  {
    WantedKept(ix, mid.reverse);
    hide Wanted;
  }

  /** Batches over disjoint users do not see each other's rewriting. */
  lemma JoinBatches(ix: Index, mid: Index, reverse: map<int, set<int>>, a: set<int>, b: set<int>,
                    r: nat, m: nat, st: nat, r': nat, m': nat, st': nat)
    requires a !! b && mid == ix.(reverse := mid.reverse) && Rewrites(mid.reverse, ix, a) && Rewrites(reverse, mid, b)
    requires Counted(ix, a, r, m, st) && Counted(mid, b, r', m', st')
    ensures Rewrites(reverse, ix, a + b) && Counted(ix, a + b, r + r', m + m', st + st')
  {
    WantedKept(ix, mid.reverse);
    hide Wanted, MissingLinks, StaleLinks, WrongUsers;
    SameCounts(ix, mid, b);
    MissingAdd(ix, a, b);
    StaleAdd(ix, a, b);
    WrongAdd(ix, a, b);
  }

  method ListUsers(users: set<int>) returns (l: seq<int>)
    ensures Distinct(l) && Elements(l) == users && |l| == |users|
  {
    l := [];
    var left := users;
    while left != {}
      invariant left <= users && Distinct(l) && Elements(l) == users - left && |l| == |users - left|
    {
      SomeInt(left);
      var u: int :| u in left;
      assert users - (left - {u}) == (users - left) + {u};
      assert u !in Elements(l);
      left := left - {u};
      l := l + [u];
    }
    assert users - left == users;
  }

  /** What the method leaves is the repaired index of the theorems. */
  lemma RewritesIsRepaired(ix: Index, reverse: map<int, set<int>>)
    requires ix.managed != {} && Rewrites(reverse, ix, Candidates(ix))
    ensures forall u :: SetAt(reverse, u) == SetAt(Repaired(ix).reverse, u)
    ensures forall u, g :: Mismatch(ix.(reverse := reverse), u, g) == Mismatch(Repaired(ix), u, g)
  {
    hide Candidates;
  }

  method ScanGroup(g: int, members: set<int>, candidates: set<int>, wanted: map<int, set<int>>)
    returns (candidates': set<int>, wanted': map<int, set<int>>)
    ensures candidates' == candidates + members
    ensures forall u :: SetAt(wanted', u) == SetAt(wanted, u) + if u in members then {g} else {}
  {
    candidates', wanted' := candidates, wanted;
    var rest := members;
    while rest != {}
      invariant rest <= members && candidates' == candidates + (members - rest)
      invariant forall u :: SetAt(wanted', u) == SetAt(wanted, u) + if u in members - rest then {g} else {}
    {
      SomeInt(rest);
      var u: int :| u in rest;
      rest := rest - {u};
      candidates' := candidates' + {u};
      wanted' := AddAt(wanted', u, g);
    }
  }

  method CountDifference(a: set<int>, b: set<int>) returns (n: nat)
    ensures n == Extra(a, b)
  {
    n := 0;
    var left := a;
    while left != {}
      invariant left <= a && n == |(a - left) - b|
    {
      SomeInt(left);
      var g: int :| g in left;
      DifferenceMore(a, left, b, g);
      left := left - {g};
      if g !in b { n := n + 1; }
    }
    assert (a - left) - b == a - b;
  }

  /** `reverse` is what `ix` had, with the given users' sets replaced by the wanted ones. */
  ghost predicate Rewrites(reverse: map<int, set<int>>, ix: Index, users: set<int>) {
    forall u :: SetAt(reverse, u) == if u in users then Wanted(ix, u) else SetAt(ix.reverse, u)
  }

  lemma RewritesMore(reverse: map<int, set<int>>, ix: Index, users: set<int>, user: int)
    requires Rewrites(reverse, ix, users)
    ensures Rewrites(ReplaceAt(reverse, user, Wanted(ix, user)), ix, users + {user})
    ensures user !in users && Wanted(ix, user) == SetAt(ix.reverse, user) ==> Rewrites(reverse, ix, users + {user})
  {
    hide Wanted, ReplaceAt;
  }

  /** The write transaction for a batch, and the differences seen while planning it. */
  method PlanBatch(ids: seq<int>, wanted: map<int, set<int>>, current: map<int, set<int>>, ghost ix: Index)
    returns (rewritten: map<int, set<int>>, repaired: nat, missing: nat, stale: nat)
    requires Distinct(ids) && ix.reverse == current && forall u :: SetAt(wanted, u) == Wanted(ix, u)
    ensures Rewrites(rewritten, ix, Elements(ids)) && Counted(ix, Elements(ids), repaired, missing, stale)
  {
    rewritten, repaired, missing, stale := current, 0, 0, 0;
    NobodyCounted(ix);
    assert Elements(ids[..0]) == {} && Rewrites(current, ix, {});
    hide Counted, Wanted, Distinct, Elements, Extra, Rewrites;
    for i := 0 to |ids|
      invariant Rewrites(rewritten, ix, Elements(ids[..i])) && Counted(ix, Elements(ids[..i]), repaired, missing, stale)
    {
      var u := ids[i];
      var add := CountDifference(SetAt(wanted, u), SetAt(current, u));
      var drop := CountDifference(SetAt(current, u), SetAt(wanted, u));
      CountOneMore(ix, ids, i, repaired, missing, stale, add, drop);
      RewritesMore(rewritten, ix, Elements(ids[..i]), u);
      missing, stale := missing + add, stale + drop;
      if add > 0 || drop > 0 {
        repaired := repaired + 1;
        rewritten := ReplaceAt(rewritten, u, SetAt(wanted, u));
      }
    }
    assert ids[..|ids|] == ids;
  }

  lemma DifferenceMore(a: set<int>, left: set<int>, b: set<int>, g: int)
    requires left <= a && g in left
    ensures |(a - (left - {g})) - b| == |(a - left) - b| + if g in b then 0 else 1
  {
    assert (a - (left - {g})) - b == ((a - left) - b) + if g in b then {} else {g};
  }

  lemma DifferIffCounted(a: set<int>, b: set<int>)
    ensures a != b <==> Extra(a, b) > 0 || Extra(b, a) > 0
  {
    if |a - b| == 0 && |b - a| == 0 {
      assert a - b == {} && b - a == {};
    }
  }

  lemma NoneWrong(ix: Index, users: set<int>)
    ensures |WrongUsers(ix, users)| == 0 ==> forall u :: u in users ==> SetAt(ix.reverse, u) == Wanted(ix, u)
  {
    assert forall u :: u in users && SetAt(ix.reverse, u) != Wanted(ix, u) ==> u in WrongUsers(ix, users);
  }
}
