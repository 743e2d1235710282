/** What every run of store operations keeps of the two indexes and of the Twitch links. */
module MembershipTheorems {
  import opened RedisCommands
  import opened IndexSets
  import opened Membership

  datatype Op =
    | Track(chat: int, user: int, at: int, done: nat)
    | Untrack(chat: int, user: int, done: nat)
    | Observe(chat: int, user: int, at: int, done: nat)
    | Unobserve(chat: int, user: int, done: nat)
    | RegisterGroup(chat: int)
    | UnregisterGroup(chat: int)
    | EraseUser(user: int)
    | CutErase(user: int, gone: set<int>, last: int, done: nat)
    | LinkTwitch(user: int, twitch: string)
    | RepairAll

  function Do(ix: Index, op: Op): Index {
    match op
    case Track(chat, user, at, done) => AddTracked(ix, chat, user, at, done)
    case Untrack(chat, user, done) => RemoveTracked(ix, chat, user, done)
    case Observe(chat, user, at, done) => UpsertUntracked(ix, chat, user, at, done)
    case Unobserve(chat, user, done) => RemoveUntracked(ix, chat, user, done)
    case RegisterGroup(chat) => ix.(managed := ix.managed + {chat})
    case UnregisterGroup(chat) => DeleteGroup(ix, chat)
    case EraseUser(user) => DeleteUser(ix, user)
    case CutErase(user, gone, last, done) => CutErasure(ix, user, gone, last, done)
    case LinkTwitch(user, twitch) => Link(ix, user, twitch).0
    case RepairAll => Repaired(ix)
  }

  function Run(ix: Index, ops: seq<Op>): Index
    decreases |ops|
  {
    if ops == [] then ix else Run(Do(ix, ops[0]), ops[1..])
  }

  /** Members are only tracked in groups that are managed at that moment. */
  predicate OnManaged(ix: Index, ops: seq<Op>)
    decreases |ops|
  {
    ops == [] || ((ops[0].Track? ==> ops[0].chat in ix.managed) && OnManaged(Do(ix, ops[0]), ops[1..]))
  }

  lemma BlankIsSound()
    ensures Dual(BLANK) && TrackedAreManaged(BLANK) && RealLinks(BLANK)
  {
  }

  // ----- Duality of the forward and the reverse index -----

  /** Pipelines stopped between the forward and the reverse index, by user and group. */
  predicate Cut(op: Op, user: int, group: int) {
    || (op.Track? && 1 <= op.done < 3 && op.user == user && op.chat == group)
    || (op.Untrack? && op.done == 1 && op.user == user && op.chat == group)
  }

  lemma DeletesKeepPairs(ix: Index, user: int, u: int, g: int)
    ensures Mismatch(DeleteUser(ix, user), u, g) ==> Mismatch(ix, u, g)
  {
    assert SetAt(ix.reverse - {user}, u) == if u == user then {} else SetAt(ix.reverse, u);
  }

  lemma DeleteGroupKeepsPairs(ix: Index, chat: int, u: int, g: int)
    ensures Mismatch(DeleteGroup(ix, chat), u, g) ==> Mismatch(ix, u, g)
  {
    assert SetAt(ix.tracked - {chat}, g) == if g == chat then {} else SetAt(ix.tracked, g);
  }

  lemma LinkKeepsPairs(ix: Index, user: int, twitch: string, u: int, g: int)
    ensures Mismatch(Link(ix, user, twitch).0, u, g) ==> Mismatch(ix, u, g)
  {
    DeletesKeepPairs(ix, Displaced(ix, user, twitch), u, g);
  }

  lemma RepairedReverse(ix: Index, users: set<int>, u: int)
    ensures SetAt(RepairOf(ix, users).reverse, u) == if u in users then Wanted(ix, u) else SetAt(ix.reverse, u)
  {
  }

  lemma RepairKeepsPairs(ix: Index, u: int, g: int)
    requires TrackedAreManaged(ix)
    ensures Mismatch(Repaired(ix), u, g) ==> Mismatch(ix, u, g)
  {
    RepairedReverse(ix, Candidates(ix), u);
  }

  lemma TrackedFields(ix: Index, chat: int, user: int, at: int, done: nat)
    ensures var end := AddTracked(ix, chat, user, at, done);
            && end.tracked == (if done >= 1 then AddAt(ix.tracked, chat, user) else ix.tracked)
            && end.reverse == (if done >= 3 then AddAt(ix.reverse, user, chat) else ix.reverse)
            && end.identity == ix.identity && end.byTwitch == ix.byTwitch && end.users == ix.users &&
                end.managed == ix.managed
  {
  }

  lemma UntrackedFields(ix: Index, chat: int, user: int, done: nat)
    ensures var end := RemoveTracked(ix, chat, user, done);
            && end.tracked == (if done >= 1 then DropAt(ix.tracked, chat, user) else ix.tracked)
            && end.reverse == (if done >= 2 then DropAt(ix.reverse, user, chat) else ix.reverse)
            && end.identity == ix.identity && end.byTwitch == ix.byTwitch && end.users == ix.users &&
                end.managed == ix.managed
  {
  }

  lemma PipelinesKeepPairs(ix: Index, op: Op, u: int, g: int)
    requires op.Track? || op.Untrack?
    ensures Mismatch(Do(ix, op), u, g) ==> Mismatch(ix, u, g) || Cut(op, u, g)
  {
    hide AddTracked, RemoveTracked;
    if op.Track? {
      TrackedFields(ix, op.chat, op.user, op.at, op.done);
    } else {
      UntrackedFields(ix, op.chat, op.user, op.done);
    }
  }

  lemma ObservationsKeepPairs(ix: Index, op: Op, u: int, g: int)
    requires op.Observe? || op.Unobserve? || op.RegisterGroup? || op.CutErase?
    ensures Mismatch(Do(ix, op), u, g) ==> Mismatch(ix, u, g)
  {
  }

  /** A complete operation never makes the two indexes disagree about anyone. */
  lemma DoKeepsPairs(ix: Index, op: Op, u: int, g: int)
    requires TrackedAreManaged(ix)
    ensures Mismatch(Do(ix, op), u, g) ==> Mismatch(ix, u, g) || Cut(op, u, g)
  {
    hide AddTracked, RemoveTracked, UpsertUntracked, RemoveUntracked, DeleteGroup, DeleteUser, Link, Repaired, Mismatch;
    match op
    case Track(_, _, _, _) => PipelinesKeepPairs(ix, op, u, g);
    case Untrack(_, _, _) => PipelinesKeepPairs(ix, op, u, g);
    case Observe(_, _, _, _) => ObservationsKeepPairs(ix, op, u, g);
    case Unobserve(_, _, _) => ObservationsKeepPairs(ix, op, u, g);
    case RegisterGroup(_) => ObservationsKeepPairs(ix, op, u, g);
    case UnregisterGroup(chat) => DeleteGroupKeepsPairs(ix, chat, u, g);
    case EraseUser(user) => DeletesKeepPairs(ix, user, u, g);
    case CutErase(_, _, _, _) => ObservationsKeepPairs(ix, op, u, g);
    case LinkTwitch(user, twitch) => LinkKeepsPairs(ix, user, twitch, u, g);
    case RepairAll => RepairKeepsPairs(ix, u, g);
  }

  lemma DoKeepsTracked(ix: Index, op: Op, g: int)
    requires SetAt(ix.tracked, g) != {} ==> g in ix.managed
    requires op.Track? ==> op.chat in ix.managed
    ensures SetAt(Do(ix, op).tracked, g) != {} ==> g in Do(ix, op).managed
  {
    match op
    case LinkTwitch(user, twitch) =>
      assert Link(ix, user, twitch).0.managed == ix.managed;
      assert Displaced(ix, user, twitch) == 0 ==> Link(ix, user, twitch).0.tracked == ix.tracked;
    case _ =>
  }

  lemma DoKeepsManaged(ix: Index, op: Op)
    requires TrackedAreManaged(ix) && (op.Track? ==> op.chat in ix.managed)
    ensures TrackedAreManaged(Do(ix, op))
  {
    hide Do;
    forall g
      ensures SetAt(Do(ix, op).tracked, g) != {} ==> g in Do(ix, op).managed
    {
      DoKeepsTracked(ix, op, g);
    }
  }

  /** The two indexes can only disagree about a user and group whose pipeline was cut short. */
  lemma {:induction false} OnlyCutPairsMismatch(start: Index, ops: seq<Op>)
    requires Dual(start) && TrackedAreManaged(start) && OnManaged(start, ops)
    ensures forall u, g :: Mismatch(Run(start, ops), u, g) ==> exists i :: 0 <= i < |ops| && Cut(ops[i], u, g)
    ensures TrackedAreManaged(Run(start, ops))
  {
    forall u, g | Mismatch(Run(start, ops), u, g)
      ensures exists i :: 0 <= i < |ops| && Cut(ops[i], u, g)
    {
      MismatchHasCause(start, ops, u, g);
    }
    RunKeepsManaged(start, ops);
  }

  lemma {:induction false} MismatchHasCause(ix: Index, ops: seq<Op>, u: int, g: int)
    requires TrackedAreManaged(ix) && OnManaged(ix, ops) && Mismatch(Run(ix, ops), u, g)
    ensures Mismatch(ix, u, g) || exists i :: 0 <= i < |ops| && Cut(ops[i], u, g)
    decreases |ops|
  {
    if ops != [] {
      DoKeepsPairs(ix, ops[0], u, g);
      DoKeepsManaged(ix, ops[0]);
      MismatchHasCause(Do(ix, ops[0]), ops[1..], u, g);
      if i :| 0 <= i < |ops[1..]| && Cut(ops[1..][i], u, g) {
        assert Cut(ops[i + 1], u, g);
      }
    }
  }

  lemma {:induction false} RunKeepsManaged(ix: Index, ops: seq<Op>)
    requires TrackedAreManaged(ix) && OnManaged(ix, ops)
    ensures TrackedAreManaged(Run(ix, ops))
    decreases |ops|
  {
    if ops != [] {
      DoKeepsManaged(ix, ops[0]);
      RunKeepsManaged(Do(ix, ops[0]), ops[1..]);
    }
  }

  /**
   After any run, cut pipelines included, one repair makes the indexes agree about every user who
   is linked or tracked in some managed group; nobody else's disagreement is new.
   */
  lemma OneRepairHeals(start: Index, ops: seq<Op>)
    requires Dual(start) && TrackedAreManaged(start) && OnManaged(start, ops)
    ensures var ix := Run(start, ops);
            forall u, g :: ix.managed != {} && Mismatch(Repaired(ix), u, g) ==>
                && u !in ix.users && (forall h :: h in ix.managed ==> u !in SetAt(ix.tracked, h))
                && Mismatch(ix, u, g)
  {
    OnlyCutPairsMismatch(start, ops);
    var ix := Run(start, ops);
    forall u, g | ix.managed != {} && Mismatch(Repaired(ix), u, g)
      ensures u !in ix.users && forall h :: h in ix.managed ==> u !in SetAt(ix.tracked, h)
      ensures Mismatch(ix, u, g)
    {
      RepairedReverse(ix, Candidates(ix), u);
    }
  }

  /** What one repair writes, from any index at all: exactly the users that are linked, or tracked in
      a managed group, get exactly the managed groups that track them. */
  lemma RepairWritesExactly(ix: Index)
    requires ix.managed != {}
    ensures Repaired(ix) == ix.(reverse := Repaired(ix).reverse)
    ensures forall u :: SetAt(Repaired(ix).reverse, u) ==
                        if u in ix.users || (exists h :: h in ix.managed && u in SetAt(ix.tracked, h))
                        then set h | h in ix.managed && u in SetAt(ix.tracked, h)
                        else SetAt(ix.reverse, u)
  {
    forall u
      ensures SetAt(Repaired(ix).reverse, u) ==
              if u in ix.users || (exists h :: h in ix.managed && u in SetAt(ix.tracked, h))
              then set h | h in ix.managed && u in SetAt(ix.tracked, h)
              else SetAt(ix.reverse, u)
    {
      RepairedReverse(ix, Candidates(ix), u);
    }
  }

  /** From any index at all: repair leaves a candidate's two sides equal unless an unmanaged group tracks them. */
  lemma RepairHealsExactly(ix: Index, u: int)
    requires ix.managed != {} && u in Candidates(ix)
    ensures (forall g :: !Mismatch(Repaired(ix), u, g)) <==> forall g :: u in SetAt(ix.tracked, g) ==> g in ix.managed
  {
    RepairedReverse(ix, Candidates(ix), u);
    forall g
      ensures Mismatch(Repaired(ix), u, g) <==> u in SetAt(ix.tracked, g) && g !in ix.managed
    {
    }
  }

  // ----- When a member was first seen -----

  /** However often a member is observed, cut pipelines included, the first time stays. */
  lemma {:induction false} FirstSeenStays(ix: Index, ops: seq<Op>, chat: int, user: int)
    requires forall i :: 0 <= i < |ops| ==> ops[i].Observe?
    requires (chat, user) in ix.records
    ensures var end := Run(ix, ops);
            (chat, user) in end.records && end.records[(chat, user)].firstSeen == ix.records[(chat, user)].firstSeen
    decreases |ops|
  {
    if ops != [] {
      assert forall i :: 0 <= i < |ops[1..]| ==> ops[1..][i] == ops[i + 1];
      FirstSeenStays(Do(ix, ops[0]), ops[1..], chat, user);
    }
  }

  /** From nothing, a series of observations records the time of the first that got that far. */
  lemma {:induction false} FirstSeenIsFirst(ix: Index, ops: seq<Op>, chat: int, user: int, k: nat)
    requires (forall i :: 0 <= i < |ops| ==> ops[i].Observe?) && (chat, user) !in ix.records && k < |ops|
    requires ops[k].chat == chat && ops[k].user == user && ops[k].done >= 2
    requires forall i :: 0 <= i < k ==> !(ops[i].chat == chat && ops[i].user == user && ops[i].done >= 2)
    ensures var end := Run(ix, ops);
            (chat, user) in end.records && end.records[(chat, user)].firstSeen == ops[k].at
    decreases |ops|
  {
    assert forall i :: 0 <= i < |ops[1..]| ==> ops[1..][i] == ops[i + 1];
    if k == 0 {
      FirstSeenStays(Do(ix, ops[0]), ops[1..], chat, user);
    } else {
      FirstSeenIsFirst(Do(ix, ops[0]), ops[1..], chat, user, k - 1);
    }
  }

  // ----- The Twitch links -----

  /** Erasing a user keeps the links inverse except for an identity with an empty Twitch id. */
  lemma EraseExact(ix: Index, user: int)
    requires LinksInverse(ix)
    ensures LinksInverse(DeleteUser(ix, user)) <==> !(user in ix.identity && ix.identity[user] == "")
  {
    var end := DeleteUser(ix, user);
    if user in ix.identity && ix.identity[user] == "" {
      assert "" in end.byTwitch && end.byTwitch[""] == user;
    }
  }

  lemma RefusalChangesNothing(ix: Index, user: int, twitch: string)
    ensures Link(ix, user, twitch).1 == DifferentTwitch <==> LinkedElsewhere(ix, user, twitch)
    ensures Link(ix, user, twitch).1 == DifferentTwitch ==> Link(ix, user, twitch).0 == ix
  {
    var d := Displaced(ix, user, twitch);
    assert d != 0 ==> d != user;
  }

  lemma RelinkSelf(ix: Index, user: int, twitch: string)
    requires LinksInverse(ix) && !LinkedElsewhere(ix, user, twitch) && Displaced(ix, user, twitch) == 0
    ensures LinksInverse(Link(ix, user, twitch).0) <==>
            !(user in ix.identity && ix.identity[user] == "" && twitch != "") &&
            !(twitch in ix.byTwitch && ix.byTwitch[twitch] == 0 && user != 0)
  {
    var end := Link(ix, user, twitch).0;
    assert end == ix.(identity := ix.identity[user := twitch], byTwitch := ix.byTwitch[twitch := user],
        users := ix.users + {user});
    if user in ix.identity && ix.identity[user] == "" && twitch != "" {
      assert "" in end.byTwitch && end.byTwitch[""] == user && end.identity[user] != "";
    } else if twitch in ix.byTwitch && ix.byTwitch[twitch] == 0 && user != 0 {
      assert 0 in end.identity && end.identity[0] == twitch && end.byTwitch[twitch] == user;
    }
  }

  lemma MovedLink(identity: map<int, string>, byTwitch: map<string, int>, d: int, user: int, twitch: string)
    requires Inverse(identity, byTwitch) && twitch in byTwitch && byTwitch[twitch] == d && user != d
    ensures Inverse((identity - {d})[user := twitch], byTwitch[twitch := user]) <==>
              user !in identity || identity[user] == twitch
  {
    var end, back := (identity - {d})[user := twitch], byTwitch[twitch := user];
    if user in identity && identity[user] != twitch {
      assert back[identity[user]] == user && end[user] != identity[user];
    }
  }

  lemma ErasedLinks(ix: Index, user: int)
    ensures DeleteUser(ix, user).identity == ix.identity - {user} && DeleteUser(ix, user).users == ix.users - {user}
    ensures DeleteUser(ix, user).byTwitch ==
            if user in ix.identity && ix.identity[user] != "" then ix.byTwitch - {ix.identity[user]} else ix.byTwitch
  {
  }

  lemma RelinkOther(ix: Index, user: int, twitch: string)
    requires LinksInverse(ix) && !LinkedElsewhere(ix, user, twitch) && Displaced(ix, user, twitch) != 0
    ensures LinksInverse(Link(ix, user, twitch).0) <==>
              !(user in ix.identity && ix.identity[user] == "" && twitch != "")
  {
    var d := Displaced(ix, user, twitch);
    var mid, end := DeleteUser(ix, d), Link(ix, user, twitch).0;
    ErasedLinks(ix, d);
    hide DeleteUser;
    assert ix.identity[d] == twitch && user != d;
    assert mid.byTwitch[twitch := user] == ix.byTwitch[twitch := user];
    MovedLink(ix.identity, ix.byTwitch, d, user, twitch);
    hide Inverse;
    assert end.identity == (ix.identity - {d})[user := twitch] && end.byTwitch == ix.byTwitch[twitch := user];
    assert end.users == ix.users - {d} + {user};
  }

  /**
   Linking keeps the links inverse except when the user's stored Twitch id is empty and the new one
   is not, or when the account belongs to Telegram id 0, which reads as nobody.
   */
  lemma LinkExact(ix: Index, user: int, twitch: string)
    requires LinksInverse(ix)
    ensures LinksInverse(Link(ix, user, twitch).0) <==>
            || LinkedElsewhere(ix, user, twitch)
            || (&& !(user in ix.identity && ix.identity[user] == "" && twitch != "")
                && !(twitch in ix.byTwitch && ix.byTwitch[twitch] == 0 && user != 0))
  {
    RefusalChangesNothing(ix, user, twitch);
    if !LinkedElsewhere(ix, user, twitch) {
      if Displaced(ix, user, twitch) == 0 {
        RelinkSelf(ix, user, twitch);
      } else {
        RelinkOther(ix, user, twitch);
      }
    }
  }

  /** Real ids only: no empty Twitch id and no Telegram id 0 is ever linked. */
  ghost predicate RealLinks(ix: Index) {
    LinksInverse(ix) && 0 !in ix.identity && "" !in ix.byTwitch
  }

  lemma LinkStaysReal(ix: Index, user: int, twitch: string)
    requires RealLinks(ix) && user != 0 && twitch != ""
    ensures RealLinks(Link(ix, user, twitch).0)
  {
    LinkExact(ix, user, twitch);
    RefusalChangesNothing(ix, user, twitch);
  }

  lemma ObservationFields(ix: Index, chat: int, user: int, at: int, done: nat)
    ensures var end := UpsertUntracked(ix, chat, user, at, done);
            end.identity == ix.identity && end.byTwitch == ix.byTwitch && end.users == ix.users
    ensures var end := RemoveUntracked(ix, chat, user, done);
            end.identity == ix.identity && end.byTwitch == ix.byTwitch && end.users == ix.users
  {
  }

  lemma OthersKeepLinks(ix: Index, op: Op)
    requires !op.EraseUser? && !op.LinkTwitch?
    ensures Do(ix, op).identity == ix.identity && Do(ix, op).byTwitch == ix.byTwitch && Do(ix, op).users == ix.users
  {
    hide AddTracked, RemoveTracked, UpsertUntracked, RemoveUntracked;
    match op
    case Track(chat, user, at, done) => TrackedFields(ix, chat, user, at, done);
    case Untrack(chat, user, done) => UntrackedFields(ix, chat, user, done);
    case Observe(chat, user, at, done) => ObservationFields(ix, chat, user, at, done);
    case Unobserve(chat, user, done) => ObservationFields(ix, chat, user, 0, done);
    case CutErase(user, gone, last, done) => ObservationFields(DeleteUntrackedIn(ix, user, gone), last, user, 0, done);
    case _ =>
  }

  lemma DoKeepsLinks(ix: Index, op: Op)
    requires RealLinks(ix) && (op.LinkTwitch? ==> op.user != 0 && op.twitch != "")
    ensures RealLinks(Do(ix, op))
  {
    assert forall u :: u in ix.identity ==> ix.identity[u] != "";
    match op
    case EraseUser(user) => EraseExact(ix, user);
    case LinkTwitch(user, twitch) => LinkStaysReal(ix, user, twitch);
    case _ => OthersKeepLinks(ix, op);
  }

  /** Over every run with real ids the links stay inverse and the users set is the linked users. */
  lemma {:induction false} RunKeepsLinks(ix: Index, ops: seq<Op>)
    requires RealLinks(ix)
    requires forall i :: 0 <= i < |ops| && ops[i].LinkTwitch? ==> ops[i].user != 0 && ops[i].twitch != ""
    ensures RealLinks(Run(ix, ops))
    decreases |ops|
  {
    if ops != [] {
      DoKeepsLinks(ix, ops[0]);
      assert forall i :: 0 <= i < |ops[1..]| ==> ops[1..][i] == ops[i + 1];
      RunKeepsLinks(Do(ix, ops[0]), ops[1..]);
    }
  }

  /** An erased user is gone from the links and, where the indexes agreed, from every group. */
  lemma ErasedUserIsGone(ix: Index, user: int)
    ensures var end := DeleteUser(ix, user);
            && user !in end.identity && user !in end.users && SetAt(end.reverse, user) == {}
            && (forall g :: user in SetAt(end.tracked, g) <==>
                user in SetAt(ix.tracked, g) && g !in SetAt(ix.reverse, user))
            && forall g :: g in ix.managed ==> (g, user) !in end.records || end.records[(g, user)].standing != Untracked
  {
  }

  /**
   A successful link binds the account to the user; whoever held it before has no identity and,
   when the indexes agreed about them, is tracked nowhere.
   */
  lemma LinkDisplaces(ix: Index, user: int, twitch: string)
    requires RealLinks(ix) && user != 0 && Link(ix, user, twitch).1.Linked?
    ensures var (end, res) := Link(ix, user, twitch);
            && end.identity[user] == twitch && end.byTwitch[twitch] == user && user in end.users
            && (res.displaced == 0 <==> twitch !in ix.byTwitch || ix.byTwitch[twitch] == user)
            && (res.displaced != 0 ==>
                  && ix.byTwitch[twitch] == res.displaced
                  && res.displaced !in end.identity && res.displaced !in end.users
                  && SetAt(end.reverse, res.displaced) == {}
                  && ((forall g :: !Mismatch(ix, res.displaced, g)) ==>
                      forall g :: res.displaced !in SetAt(end.tracked, g)))
            && (forall u :: u != user && u != res.displaced && u in ix.identity ==>
                u in end.identity && end.identity[u] == ix.identity[u])
  {
    RefusalChangesNothing(ix, user, twitch);
    var d := Displaced(ix, user, twitch);
    if d != 0 {
      ErasedUserIsGone(ix, d);
      assert forall g :: !Mismatch(ix, d, g) ==> (d in SetAt(ix.tracked, g) <==> g in SetAt(ix.reverse, d));
    }
  }

  // ----- Runs that reach the exceptions -----

  lemma RunOfTwo(ix: Index, a: Op, b: Op)
    ensures Run(ix, [a, b]) == Do(Do(ix, a), b)
  {
    assert [a, b][1..] == [b] && [b][1..] == [];
    assert Run(Do(ix, a), [b]) == Run(Do(Do(ix, a), b), []);
  }

  /** One user tracked in a managed group and, just after its deletion, in another. */
  lemma LateTracking(user: int, gone: int, kept: int) returns (ix: Index)
    requires gone != kept
    ensures ix == Run(BLANK, [RegisterGroup(kept), Track(kept, user, 0, 4), Track(gone, user, 0, 4)])
    ensures ix.managed == {kept} && ix.users == {}
    ensures forall g :: SetAt(ix.tracked, g) == if g == gone || g == kept then {user} else {}
    ensures forall u :: SetAt(ix.reverse, u) == if u == user then {gone, kept} else {}
  {
    var a := Do(BLANK, RegisterGroup(kept));
    RunOfTwo(a, Track(kept, user, 0, 4), Track(gone, user, 0, 4));
    assert [RegisterGroup(kept), Track(kept, user, 0, 4), Track(gone, user, 0, 4)][1..] ==
        [Track(kept, user, 0, 4), Track(gone, user, 0, 4)];
    ix := Do(Do(a, Track(kept, user, 0, 4)), Track(gone, user, 0, 4));
  }

  /** The repair that follows takes the second group out of the user's set while it still tracks the user. */
  lemma RepairDropsUnmanaged(user: int, gone: int, kept: int)
    requires gone != kept
    ensures var ix := Run(BLANK, [RegisterGroup(kept), Track(kept, user, 0, 4), Track(gone, user, 0, 4)]);
            Dual(ix) && user in Candidates(ix) && Mismatch(Do(ix, RepairAll), user, gone)
  {
    hide Run;
    var ix := LateTracking(user, gone, kept);
    assert kept in ix.managed && user in SetAt(ix.tracked, kept);
    assert user in Candidates(ix) && gone !in ix.managed;
    RepairedReverse(ix, Candidates(ix), user);
  }

  /** An account linked with an empty id stays in the map when its user is erased. */
  lemma EmptyIdOutlivesUser(user: int)
    ensures LinksInverse(Run(BLANK, [LinkTwitch(user, "")])) &&
              !LinksInverse(Run(BLANK, [LinkTwitch(user, ""), EraseUser(user)]))
  {
    var ix := Do(BLANK, LinkTwitch(user, ""));
    assert [LinkTwitch(user, "")][1..] == [] && Run(BLANK, [LinkTwitch(user, "")]) == Run(ix, []) == ix;
    RunOfTwo(BLANK, LinkTwitch(user, ""), EraseUser(user));
    LinkExact(BLANK, user, "");
    EraseExact(ix, user);
  }

  /** Linking that user again leaves the empty id in the map. */
  lemma EmptyIdOutlivesLink(user: int, twitch: string)
    requires twitch != ""
    ensures !LinksInverse(Run(BLANK, [LinkTwitch(user, ""), LinkTwitch(user, twitch)]))
  {
    var ix := Do(BLANK, LinkTwitch(user, ""));
    RunOfTwo(BLANK, LinkTwitch(user, ""), LinkTwitch(user, twitch));
    LinkExact(BLANK, user, "");
    LinkExact(ix, user, twitch);
  }

  /** Taking an account from Telegram id 0 leaves it two owners. */
  lemma AccountOfZero(user: int, twitch: string)
    requires user != 0
    ensures !LinksInverse(Run(BLANK, [LinkTwitch(0, twitch), LinkTwitch(user, twitch)]))
  {
    var ix := Do(BLANK, LinkTwitch(0, twitch));
    RunOfTwo(BLANK, LinkTwitch(0, twitch), LinkTwitch(user, twitch));
    LinkExact(BLANK, 0, twitch);
    LinkExact(ix, user, twitch);
  }
}
