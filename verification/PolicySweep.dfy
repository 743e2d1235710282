/**
 The sweep that enforces a group policy on observed, untracked members: gods are tracked, eligible
 members are rescued, the others are kicked. Every outside call may fail on its own.
 */
module PolicySweep {
  import opened RedisCommands
  import opened IndexSets
  import opened EntityIndex
  import opened Membership
  import opened MembershipStore

  // ----- What a sweep depends on -----

  datatype Call =
    | ListUntracked(chat: int)
    | LoadCreator(chat: int)
    | CheckEligibility(chat: int, user: int)
    | Track(chat: int, user: int)
    | Cleanup(chat: int, user: int)
    | Kick(chat: int, user: int)

  /** `fails` decides each call; `done` is how many commands a failed pipeline still applied. */
  datatype World = World(
    gods: set<int>,
    blocklistSync: map<string, bool>,
    subscribers: map<string, set<string>>,
    blocked: map<string, set<string>>,
    fails: Call -> bool,
    done: Call -> nat)

  /** The grace policy only looks at members first seen by a deadline; the kick policy at everyone. */
  datatype Policy = Policy(name: string, deadline: Option<int>)

  predicate Evaluates(p: Policy, firstSeen: int) {
    p.deadline.None? || (firstSeen != 0 && firstSeen <= p.deadline.value)
  }

  function TwitchOf(identity: map<int, string>, user: int): string {
    if user in identity then identity[user] else ""
  }

  predicate Eligible(w: World, identity: map<int, string>, creator: string, user: int)
    requires creator in w.blocklistSync
  {
    || user in w.gods
    || (&& TwitchOf(identity, user) != ""
        && TwitchOf(identity, user) in SetAt(w.subscribers, creator)
        && !(w.blocklistSync[creator] && TwitchOf(identity, user) in SetAt(w.blocked, creator)))
  }

  predicate CreatorUsable(w: World, g: Group) {
    !w.fails(LoadCreator(g.chatID)) && g.creatorID in w.blocklistSync
  }

  // ----- The decision about one member -----

  datatype Verdict = GodTracked | TooRecent | NoCreator | CheckFailed | TrackFailed | Rescued | KickFailed | Kicked

  function Judge(w: World, p: Policy, identity: map<int, string>, g: Group, user: int, firstSeen: int): Verdict {
    if user in w.gods then
      if w.fails(Track(g.chatID, user)) then TrackFailed else GodTracked
    else if !Evaluates(p, firstSeen) then TooRecent
    else if !CreatorUsable(w, g) then NoCreator
    else JudgeKnown(w, identity, g, user)
  }

  function JudgeKnown(w: World, identity: map<int, string>, g: Group, user: int): Verdict
    requires CreatorUsable(w, g)
  {
    if w.fails(CheckEligibility(g.chatID, user)) then CheckFailed
    else if Eligible(w, identity, g.creatorID, user) then
      if w.fails(Track(g.chatID, user)) then TrackFailed else Rescued
    else if w.fails(Kick(g.chatID, user)) then KickFailed
    else Kicked
  }

  function CommandsDone(w: World, c: Call, all: nat): nat {
    if !w.fails(c) then all else if w.done(c) < all then w.done(c) else if all == 0 then 0 else all - 1
  }

  function Effect(w: World, ix: Index, chat: int, user: int, at: int, v: Verdict): Index {
    match v
    case GodTracked | Rescued =>
      RemoveUntracked(AddTracked(ix, chat, user, at, 4), chat, user, CommandsDone(w, Cleanup(chat, user), 2))
    case TrackFailed => AddTracked(ix, chat, user, at, CommandsDone(w, Track(chat, user), 4))
    case Kicked => RemoveUntracked(ix, chat, user, CommandsDone(w, Cleanup(chat, user), 2))
    case _ => ix
  }

  predicate Clean(w: World, chat: int, user: int, v: Verdict) {
    match v
    case GodTracked | Rescued | Kicked => !w.fails(Cleanup(chat, user))
    case TooRecent => true
    case _ => false
  }

  // ----- One member's place in one chat -----

  /** In the tracked set, in the untracked set, in the user's reverse set, and the shared record. */
  datatype Place = Place(tracked: bool, untracked: bool, indexed: bool, record: Option<Record>)

  function PlaceOf(ix: Index, chat: int, user: int): Place {
    Place(user in SetAt(ix.tracked, chat), user in SetAt(ix.untracked, chat), chat in SetAt(ix.reverse, user),
        Get(ix.records, (chat, user)))
  }

  predicate ListedAt(s: Place) {
    s.untracked && s.record.Some? && s.record.value.standing == Untracked
  }

  /** Members the store lists for the sweep: in the set and with a record that says untracked. */
  predicate Listed(ix: Index, chat: int, user: int) {
    ListedAt(PlaceOf(ix, chat, user))
  }

  /** Where a verdict leaves its member; a rescue that is cleaned up leaves no record at all. */
  function PlaceAfter(w: World, chat: int, user: int, at: int, v: Verdict, s: Place): Place {
    match v
    case GodTracked | Rescued =>
      Place(true, false, true, if CommandsDone(w, Cleanup(chat, user), 2) >= 2 then None else Some(Record(Tracked, at)))
    case TrackFailed =>
      var done := CommandsDone(w, Track(chat, user), 4);
      Place(s.tracked || done >= 1, s.untracked && done < 2, s.indexed || done >= 3,
            if done >= 4 then Some(Record(Tracked, at)) else s.record)
    case Kicked =>
      var done := CommandsDone(w, Cleanup(chat, user), 2);
      Place(s.tracked, s.untracked && done < 1, s.indexed, if done >= 2 then None else s.record)
    case _ => s
  }

  lemma PipelinesAreLocal(ix: Index, chat: int, user: int, at: int, done: nat)
    ensures var end, s := AddTracked(ix, chat, user, at, done), PlaceOf(ix, chat, user);
            && end.identity == ix.identity
            && PlaceOf(end, chat, user) ==
                Place(s.tracked || done >= 1, s.untracked && done < 2, s.indexed || done >= 3,
                                                 if done >= 4 then Some(Record(Tracked, at)) else s.record)
            && forall c, u :: (c, u) != (chat, user) ==> PlaceOf(end, c, u) == PlaceOf(ix, c, u)
  {
  }

  lemma CleanupsAreLocal(ix: Index, chat: int, user: int, done: nat)
    ensures var end, s := RemoveUntracked(ix, chat, user, done), PlaceOf(ix, chat, user);
            && end.identity == ix.identity
            && PlaceOf(end, chat, user) ==
                Place(s.tracked, s.untracked && done < 1, s.indexed, if done >= 2 then None else s.record)
            && forall c, u :: (c, u) != (chat, user) ==> PlaceOf(end, c, u) == PlaceOf(ix, c, u)
  {
  }

  /** One member's verdict moves that member in that chat, nobody else, and changes nobody's identity. */
  lemma EffectIsLocal(w: World, ix: Index, chat: int, user: int, at: int, v: Verdict)
    ensures var end := Effect(w, ix, chat, user, at, v);
            && end.identity == ix.identity
            && PlaceOf(end, chat, user) == PlaceAfter(w, chat, user, at, v, PlaceOf(ix, chat, user))
            && forall c, u :: (c, u) != (chat, user) ==> PlaceOf(end, c, u) == PlaceOf(ix, c, u)
  {
    hide PlaceOf, CommandsDone, AddTracked, RemoveUntracked;
    PipelinesAreLocal(ix, chat, user, at, 4);
    PipelinesAreLocal(ix, chat, user, at, CommandsDone(w, Track(chat, user), 4));
    CleanupsAreLocal(AddTracked(ix, chat, user, at, 4), chat, user, CommandsDone(w, Cleanup(chat, user), 2));
    CleanupsAreLocal(ix, chat, user, CommandsDone(w, Cleanup(chat, user), 2));
  }

  // ----- What a sweep should do -----

  function ListedIn(ix: Index, chat: int): set<int> {
    set u | u in SetAt(ix.untracked, chat) && Listed(ix, chat, u)
  }

  function VerdictOf(w: World, p: Policy, ix: Index, g: Group, user: int): Verdict
    requires Listed(ix, g.chatID, user)
  {
    Judge(w, p, ix.identity, g, user, ix.records[(g.chatID, user)].firstSeen)
  }

  /** Groups the sweep enters: the policy matches and the members could be listed. */
  predicate Swept(w: World, p: Policy, g: Group) {
    g.policy == p.name && !w.fails(ListUntracked(g.chatID))
  }

  /** The member is listed in a group that is swept, and this is the verdict. */
  predicate Gets(w: World, p: Policy, ix: Index, g: Group, user: int, v: Verdict) {
    Swept(w, p, g) && Listed(ix, g.chatID, user) && VerdictOf(w, p, ix, g, user) == v
  }

  function SettledPlace(w: World, p: Policy, ix: Index, g: Group, user: int, at: int): Place {
    var s := PlaceOf(ix, g.chatID, user);
    if Swept(w, p, g) && Listed(ix, g.chatID, user)
        then PlaceAfter(w, g.chatID, user, at, VerdictOf(w, p, ix, g, user), s) else s
  }

  /** Every call that this group needs succeeds. */
  ghost predicate AllClean(w: World, p: Policy, ix: Index, g: Group) {
    g.policy == p.name ==>
      Swept(w, p, g) && forall u :: Listed(ix, g.chatID, u) ==> Clean(w, g.chatID, u, VerdictOf(w, p, ix, g, u))
  }

  /** In the untracked set, with a record that says so. */
  predicate Observed(ix: Index, chat: int, user: int) {
    && user in SetAt(ix.untracked, chat)
    && (chat, user) in ix.records && ix.records[(chat, user)].standing == Untracked
  }

  /** The policy has no deadline, or the member has a first-seen time that is not after it. */
  predicate Due(p: Policy, ix: Index, chat: int, user: int)
    requires (chat, user) in ix.records
  {
    p.deadline.Some? ==>
      0 != ix.records[(chat, user)].firstSeen && ix.records[(chat, user)].firstSeen <= p.deadline.value
  }

  /** Linked to a Twitch account that subscribes to the creator and is not on a synced blocklist. */
  predicate Entitled(w: World, ix: Index, creator: string, user: int) {
    && user in ix.identity && ix.identity[user] != "" && ix.identity[user] in SetAt(w.subscribers, creator)
    && (creator in w.blocklistSync && w.blocklistSync[creator] ==> ix.identity[user] !in SetAt(w.blocked, creator))
  }

  /** Everything that must hold for the sweep to kick a member. */
  predicate Unwanted(w: World, p: Policy, ix: Index, g: Group, user: int) {
    && g.policy == p.name && Observed(ix, g.chatID, user)
    && user !in w.gods && Due(p, ix, g.chatID, user) && !Entitled(w, ix, g.creatorID, user)
    && g.creatorID in w.blocklistSync && !w.fails(ListUntracked(g.chatID)) && !w.fails(LoadCreator(g.chatID))
    && !w.fails(CheckEligibility(g.chatID, user)) && !w.fails(Kick(g.chatID, user))
  }

  /** Everything that must hold for the sweep to rescue a member. */
  predicate Deserving(w: World, p: Policy, ix: Index, g: Group, user: int) {
    && g.policy == p.name && Observed(ix, g.chatID, user)
    && user !in w.gods && Due(p, ix, g.chatID, user) && Entitled(w, ix, g.creatorID, user)
    && g.creatorID in w.blocklistSync && !w.fails(ListUntracked(g.chatID)) && !w.fails(LoadCreator(g.chatID))
    && !w.fails(CheckEligibility(g.chatID, user)) && !w.fails(Track(g.chatID, user))
  }

  /** Every call that the sweep makes about this member succeeds. */
  predicate NoCallFails(w: World, p: Policy, ix: Index, g: Group, user: int) {
    if user in w.gods then !w.fails(Track(g.chatID, user)) && !w.fails(Cleanup(g.chatID, user))
    else if (g.chatID, user) in ix.records && Due(p, ix, g.chatID, user) then
      && g.creatorID in w.blocklistSync && !w.fails(LoadCreator(g.chatID)) && !w.fails(CheckEligibility(g.chatID, user))
      && !w.fails(if Entitled(w, ix, g.creatorID, user) then Track(g.chatID, user) else Kick(g.chatID, user))
      && !w.fails(Cleanup(g.chatID, user))
    else true
  }

  /** Not due yet: no first-seen time, or one after the deadline. */
  predicate SeenTooRecently(p: Policy, ix: Index, chat: int, user: int) {
    && (chat, user) in ix.records && p.deadline.Some?
    && (ix.records[(chat, user)].firstSeen == 0 || ix.records[(chat, user)].firstSeen > p.deadline.value)
  }

  lemma VerdictsExplained(w: World, p: Policy, ix: Index, g: Group, user: int)
    ensures Gets(w, p, ix, g, user, Kicked) <==> Unwanted(w, p, ix, g, user)
    ensures Gets(w, p, ix, g, user, Rescued) <==> Deserving(w, p, ix, g, user)
  {
  }

  /** Every call that this group needs succeeds, spelled out. */
  lemma CleanExplained(w: World, p: Policy, ix: Index, g: Group)
    ensures AllClean(w, p, ix, g) <==>
            (g.policy == p.name ==>
               && !w.fails(ListUntracked(g.chatID))
               && forall u :: Observed(ix, g.chatID, u) ==> NoCallFails(w, p, ix, g, u))
  {
    forall u
      ensures Listed(ix, g.chatID, u) <==> Observed(ix, g.chatID, u)
      ensures Listed(ix, g.chatID, u) ==>
                (Clean(w, g.chatID, u, VerdictOf(w, p, ix, g, u)) <==> NoCallFails(w, p, ix, g, u))
    {
    }
    hide Listed, Observed, Clean, VerdictOf, NoCallFails;
  }

  /**
   Tracking writes a record and the cleanup deletes it: a rescued member or a god is tracked on
   both sides, and without any record exactly when the cleanup succeeded.
   */
  lemma RescueErasesRecord(w: World, p: Policy, ix: Index, g: Group, user: int, at: int)
    requires Gets(w, p, ix, g, user, Rescued) || Gets(w, p, ix, g, user, GodTracked)
    ensures var s := PlaceOf(Effect(w, ix, g.chatID, user, at, VerdictOf(w, p, ix, g, user)), g.chatID, user);
            && s.tracked && s.indexed && !s.untracked
            && s.record == if w.fails(Cleanup(g.chatID, user)) then Some(Record(Tracked, at)) else None
  {
    EffectIsLocal(w, ix, g.chatID, user, at, VerdictOf(w, p, ix, g, user));
  }

  // ----- The report -----

  type Pair = (int, int)

  /** The store and what the task counts; `kicks` and `rescues` are who was counted. */
  datatype Ledger = Ledger(
    ix: Index, groups: nat, errors: nat, rescued: nat, kicked: nat, removed: nat, kicks: set<Pair>, rescues: set<Pair>)

  function RemovedOf(w: World, handled: set<Pair>): set<Pair> {
    set k | k in handled && !w.fails(Cleanup(k.0, k.1))
  }

  /** The counts are the numbers of kicks, rescues, and those of both whose cleanup succeeded. */
  ghost predicate Accounted(w: World, l: Ledger) {
    CountsAre(w, l.kicked, l.rescued, l.removed, l.kicks, l.rescues)
  }

  ghost predicate CountsAre(w: World, kicked: nat, rescued: nat, removed: nat, kicks: set<Pair>, rescues: set<Pair>) {
    kicked == |kicks| && rescued == |rescues| && kicks !! rescues && removed == |RemovedOf(w, kicks + rescues)|
  }

  /** One verdict entered; a creator that cannot be had is an error of the group, not of its members. */
  function Entered(w: World, l: Ledger, chat: int, user: int, at: int, v: Verdict): Ledger {
    l.(ix := Effect(w, l.ix, chat, user, at, v),
       errors := if v == NoCreator || Clean(w, chat, user, v) then l.errors else l.errors + 1,
       rescued := if v == Rescued then l.rescued + 1 else l.rescued,
       kicked := if v == Kicked then l.kicked + 1 else l.kicked,
       removed := if (v == Rescued || v == Kicked) && Clean(w, chat, user, v) then l.removed + 1 else l.removed,
       kicks := if v == Kicked then l.kicks + {(chat, user)} else l.kicks,
       rescues := if v == Rescued then l.rescues + {(chat, user)} else l.rescues)
  }

  lemma RemovedMore(w: World, handled: set<Pair>, k: Pair)
    requires k !in handled
    ensures |RemovedOf(w, handled + {k})| == |RemovedOf(w, handled)| + if w.fails(Cleanup(k.0, k.1)) then 0 else 1
  {
    assert RemovedOf(w, handled + {k}) == RemovedOf(w, handled) + if w.fails(Cleanup(k.0, k.1)) then {} else {k};
  }

  lemma CountMore(w: World, kicked: nat, rescued: nat, removed: nat, kicks: set<Pair>, rescues: set<Pair>, k: Pair)
    requires CountsAre(w, kicked, rescued, removed, kicks, rescues) && k !in kicks && k !in rescues
    ensures CountsAre(w, kicked + 1, rescued, if w.fails(Cleanup(k.0, k.1)) then removed
              else removed + 1, kicks + {k}, rescues)
    ensures CountsAre(w, kicked, rescued + 1, if w.fails(Cleanup(k.0, k.1)) then removed
              else removed + 1, kicks, rescues + {k})
  {
    RemovedMore(w, kicks + rescues, k);
    hide RemovedOf;
    assert kicks + {k} + rescues == kicks + rescues + {k} && kicks + (rescues + {k}) == kicks + rescues + {k};
  }

  lemma EnteringAccounts(w: World, l: Ledger, chat: int, user: int, at: int, v: Verdict)
    requires Accounted(w, l) && (chat, user) !in l.kicks && (chat, user) !in l.rescues
    ensures Accounted(w, Entered(w, l, chat, user, at, v))
  {
    hide Effect, CountsAre;
    CountMore(w, l.kicked, l.rescued, l.removed, l.kicks, l.rescues, (chat, user));
  }

  lemma EnteringKeepsErrors(w: World, l: Ledger, chat: int, user: int, at: int, v: Verdict)
    ensures Entered(w, l, chat, user, at, v).errors >= l.errors &&
              Entered(w, l, chat, user, at, v).ix == Effect(w, l.ix, chat, user, at, v)
  {
    hide Effect;
  }

  lemma EnteringMarks(w: World, l: Ledger, chat: int, user: int, at: int, v: Verdict)
    ensures var end := Entered(w, l, chat, user, at, v);
            && end.ix == Effect(w, l.ix, chat, user, at, v) && end.groups == l.groups
            && (forall k :: k in end.kicks <==> k in l.kicks || (k == (chat, user) && v == Kicked))
            && (forall k :: k in end.rescues <==> k in l.rescues || (k == (chat, user) && v == Rescued))
            && (end.errors == 0 <==> l.errors == 0 && (v == NoCreator || Clean(w, chat, user, v)))
  {
    hide Effect;
  }

  // ----- One group -----

  predicate CleanIn(w: World, p: Policy, ix: Index, g: Group, user: int) {
    Listed(ix, g.chatID, user) ==> Clean(w, g.chatID, user, VerdictOf(w, p, ix, g, user))
  }

  /** Of one group's members those in `users` are settled; everybody else is where they were. */
  ghost predicate Places(w: World, p: Policy, was: Index, ix: Index, g: Group, users: set<int>, at: int) {
    && ix.identity == was.identity
    && (forall u :: PlaceOf(ix, g.chatID, u) == if u in users then SettledPlace(w, p, was, g, u, at)
        else PlaceOf(was, g.chatID, u))
    && (forall c, u :: c != g.chatID ==> PlaceOf(ix, c, u) == PlaceOf(was, c, u))
  }

  /** The pairs counted for a verdict: those of before and this group's members with that verdict. */
  ghost predicate Marked(w: World, p: Policy, was: Index, g: Group, users: set<int>, v: Verdict, before: set<Pair>,
      now: set<Pair>) {
    forall k :: k in now <==> k in before || (k.0 == g.chatID && k.1 in users && Gets(w, p, was, g, k.1, v))
  }

  ghost predicate CleanAll(w: World, p: Policy, was: Index, g: Group, users: set<int>) {
    forall u :: u in users ==> CleanIn(w, p, was, g, u)
  }

  /** What entering those members has added to the ledger. */
  ghost predicate Marks(w: World, p: Policy, was: Index, before: Ledger, l: Ledger, g: Group, users: set<int>) {
    && Accounted(w, l) && l.groups == before.groups
    && Marked(w, p, was, g, users, Kicked, before.kicks, l.kicks)
    && Marked(w, p, was, g, users, Rescued, before.rescues, l.rescues)
    && (l.errors == 0 <==> before.errors == 0 && CleanAll(w, p, was, g, users))
  }

  lemma MarkedMore(w: World, p: Policy, was: Index, g: Group, users: set<int>, user: int, v: Verdict,
      before: set<Pair>, now: set<Pair>, next: set<Pair>)
    requires Marked(w, p, was, g, users, v, before, now) && Swept(w, p, g) && Listed(was, g.chatID, user)
    requires forall k :: k in next <==> k in now || (k == (g.chatID, user) && VerdictOf(w, p, was, g, user) == v)
    ensures Marked(w, p, was, g, users + {user}, v, before, next)
    ensures user !in users && (g.chatID, user) !in before ==> (g.chatID, user) !in now
  {
    hide VerdictOf, Listed, Swept;
  }

  lemma PlacesMore(w: World, p: Policy, was: Index, ix: Index, g: Group, users: set<int>, user: int, at: int)
    requires Places(w, p, was, ix, g, users, at) && user !in users && Swept(w, p, g) && Listed(was, g.chatID, user)
    ensures Places(w, p, was, Effect(w, ix, g.chatID, user, at, VerdictOf(w, p, was, g, user)), g, users + {user}, at)
    ensures PlaceOf(ix, g.chatID, user) == PlaceOf(was, g.chatID, user)
  {
    EffectIsLocal(w, ix, g.chatID, user, at, VerdictOf(w, p, was, g, user));
    hide Effect, PlaceOf, VerdictOf, Listed, PlaceAfter;
  }

  /** `base` has the error of a creator that could not be had, if that was found out just now. */
  lemma MarksMore(w: World, p: Policy, was: Index, before: Ledger, l: Ledger, base: Ledger, g: Group, users: set<int>,
      user: int, at: int)
    requires Marks(w, p, was, before, l, g, users) && user !in users && Swept(w, p, g) && Listed(was, g.chatID, user)
    requires (g.chatID, user) !in before.kicks && (g.chatID, user) !in before.rescues
    requires VerdictOf(w, p, was, g, user) == NoCreator ==> base.errors > 0
    requires base == l || (VerdictOf(w, p, was, g, user) == NoCreator && base == l.(errors := l.errors + 1))
    ensures Marks(w, p, was, before, Entered(w, base, g.chatID, user, at, VerdictOf(w, p, was, g, user)), g,
              users + {user})
  {
    var v := VerdictOf(w, p, was, g, user);
    var next := Entered(w, base, g.chatID, user, at, v);
    assert Clean(w, g.chatID, user, v) ==> v != NoCreator;
    EnteringMarks(w, base, g.chatID, user, at, v);
    MarkedMore(w, p, was, g, users, user, Kicked, before.kicks, l.kicks, next.kicks);
    MarkedMore(w, p, was, g, users, user, Rescued, before.rescues, l.rescues, next.rescues);
    assert CleanAll(w, p, was, g, users + {user}) <==> CleanAll(w, p, was, g, users) && CleanIn(w, p, was, g, user);
    EnteringAccounts(w, base, g.chatID, user, at, v);
    hide Entered, Effect, VerdictOf, Clean, Marked, CleanAll;
  }

  // ----- The sweep -----

  predicate DistinctChats(groups: seq<Group>) {
    forall i, j :: 0 <= i < j < |groups| ==> groups[i].chatID != groups[j].chatID
  }

  function PolicyGroups(groups: seq<Group>, name: string): nat {
    if groups == [] then 0
    else PolicyGroups(groups[..|groups| - 1], name) + if groups[|groups| - 1].policy == name then 1 else 0
  }

  class Sweep {
    var l: Ledger
    const w: World
    const p: Policy
    const at: int

    constructor (ix: Index, w: World, p: Policy, at: int)
      ensures l == Ledger(ix, 0, 0, 0, 0, 0, {}, {}) && this.w == w && this.p == p && this.at == at
    {
      l := Ledger(ix, 0, 0, 0, 0, 0, {}, {});
      this.w, this.p, this.at := w, p, at;
    }

    method MoveToTracked(chat: int, user: int) returns (promoted: bool, cleaned: bool)
      modifies this`l
      ensures promoted == !w.fails(Track(chat, user)) && cleaned == (promoted && !w.fails(Cleanup(chat, user)))
      ensures l == old(l).(ix := Effect(w, old(l).ix, chat, user, at, if promoted then Rescued else TrackFailed))
    {
      l := l.(ix := AddTracked(l.ix, chat, user, at, CommandsDone(w, Track(chat, user), 4)));
      if w.fails(Track(chat, user)) { return false, false; }
      l := l.(ix := RemoveUntracked(l.ix, chat, user, CommandsDone(w, Cleanup(chat, user), 2)));
      return true, !w.fails(Cleanup(chat, user));
    }

    /** Rescue or kick, once the creator is known. */
    method Enforce(g: Group, user: int) returns (ghost v: Verdict)
      requires CreatorUsable(w, g)
      modifies this`l
      ensures v == JudgeKnown(w, old(l).ix.identity, g, user) && l == Entered(w, old(l), g.chatID, user, at, v)
    {
      var chat, promoted, cleaned := g.chatID, false, false;
      v := JudgeKnown(w, l.ix.identity, g, user);
      if w.fails(CheckEligibility(chat, user)) { l := l.(errors := l.errors + 1); return; }
      if Eligible(w, l.ix.identity, g.creatorID, user) {
        promoted, cleaned := MoveToTracked(chat, user);
        if promoted { l := l.(rescued := l.rescued + 1, rescues := l.rescues + {(chat, user)}); }
      } else if !w.fails(Kick(chat, user)) {
        l := l.(kicked := l.kicked + 1, kicks := l.kicks + {(chat, user)});
        l := l.(ix := RemoveUntracked(l.ix, chat, user, CommandsDone(w, Cleanup(chat, user), 2)));
        cleaned := !w.fails(Cleanup(chat, user));
      }
      l := if cleaned then l.(removed := l.removed + 1) else l.(errors := l.errors + 1);
    }

    /** One listed member; the creator is loaded when first needed, and not getting one is an error. */
    method SweepMember(g: Group, user: int, firstSeen: int, creator: Option<bool>)
        returns (creator': Option<bool>, ghost base: Ledger)
      requires creator.Some? ==> creator.value == CreatorUsable(w, g)
      modifies this`l
      ensures creator'.Some? ==> creator'.value == CreatorUsable(w, g)
      ensures creator.Some? ==> creator' == creator
      ensures Judge(w, p, old(l).ix.identity, g, user, firstSeen) == NoCreator ==> creator' == Some(false)
      ensures creator == None && creator' == Some(false) ==>
                Judge(w, p, old(l).ix.identity, g, user, firstSeen) == NoCreator
      ensures base == if creator == None && creator' == Some(false) then old(l).(errors := old(l).errors + 1)
                else old(l)
      ensures l == Entered(w, base, g.chatID, user, at, Judge(w, p, old(l).ix.identity, g, user, firstSeen))
    {
      var chat := g.chatID;
      creator', base := creator, l;
      if user in w.gods {
        var _, cleaned := MoveToTracked(chat, user);
        if !cleaned { l := l.(errors := l.errors + 1); }
        return;
      }
      if !Evaluates(p, firstSeen) { return; }
      if creator == None {
        creator' := Some(CreatorUsable(w, g));
        if !creator'.value { l := l.(errors := l.errors + 1); }
        base := l;
      }
      if !creator'.value { return; }
      hide Effect, Entered, JudgeKnown, Eligible, Evaluates;
      var _ := Enforce(g, user);
    }

    /** The next listed member of a group whose members in `users` are settled. */
    method EnterMember(g: Group, user: int, listing: Index, creator: Option<bool>, ghost entry: Ledger,
        ghost users: set<int>)
      returns (creator': Option<bool>)
      requires Swept(w, p, g) && Listed(listing, g.chatID, user) && user !in users
      requires NotYet(entry, g) && Places(w, p, listing, l.ix, g, users, at) && Marks(w, p, listing, entry, l, g, users)
      requires creator.Some? ==> creator.value == CreatorUsable(w, g)
      requires creator == Some(false) ==> l.errors > 0
      modifies this`l
      ensures Places(w, p, listing, l.ix, g, users + {user}, at) && Marks(w, p, listing, entry, l, g, users + {user})
      ensures creator'.Some? ==> creator'.value == CreatorUsable(w, g)
      ensures creator' == Some(false) ==> l.errors > 0
    {
      MemberVerdict(w, p, listing, l.ix, g, users, user, at);
      hide Places, Marks, Entered, Listed, VerdictOf, Judge, Accounted, Evaluates, CreatorUsable, Swept;
      ghost var l0, base := l, l;
      creator', base := SweepMember(g, user, listing.records[(g.chatID, user)].firstSeen, creator);
      PlacesMore(w, p, listing, l0.ix, g, users, user, at);
      MarksMore(w, p, listing, entry, l0, base, g, users, user, at);
      EnteringKeepsErrors(w, base, g.chatID, user, at, VerdictOf(w, p, listing, g, user));
    }

    /** Every listed member of one group, whatever happens to the others. */
    method SweepListed(g: Group)
      requires Accounted(w, l) && NotYet(l, g) && Swept(w, p, g)
      modifies this`l
      ensures Places(w, p, old(l).ix, l.ix, g, ListedIn(old(l).ix, g.chatID), at)
      ensures Marks(w, p, old(l).ix, old(l), l, g, ListedIn(old(l).ix, g.chatID))
    {
      ghost var entry := l;
      var listing := l.ix;
      var members := ListUsers(ListedIn(listing, g.chatID));
      NobodyEntered(w, p, l, g, at);
      assert Elements(members[..0]) == {};
      hide Places, Marks, Listed, Elements, Distinct, Accounted, CreatorUsable, NotYet, Swept;
      var creator: Option<bool> := None;
      for i := 0 to |members|
        invariant Places(w, p, listing, l.ix, g, Elements(members[..i]), at) &&
                    Marks(w, p, listing, entry, l, g, Elements(members[..i]))
        invariant creator.Some? ==> creator.value == CreatorUsable(w, g)
        invariant creator == Some(false) ==> l.errors > 0
      {
        OneMoreId(members, i);
        creator := EnterMember(g, members[i], listing, creator, entry, Elements(members[..i]));
      }
      assert members[..|members|] == members;
    }

    method SweepGroup(g: Group)
      requires Accounted(w, l) && NotYet(l, g)
      modifies this`l
      ensures GroupSettled(w, p, old(l).ix, l.ix, g, at) && GroupMarked(w, p, old(l), l, g)
    {
      ghost var before := l;
      NobodyEntered(w, p, l, g, at);
      if g.policy != p.name { return; }
      l := l.(groups := l.groups + 1);
      if w.fails(ListUntracked(g.chatID)) { l := l.(errors := l.errors + 1); return; }
      ghost var entry := l;
      hide Places, Marks, Accounted, GroupSettled, GroupMarked;
      SweepListed(g);
      GroupFinished(w, p, before, entry, l, g, at);
    }

    /** Every managed group in turn; a failure never stops the others. */
    method SweepAll(groups: seq<Group>) returns (ok: bool)
      requires DistinctChats(groups) && l == Ledger(l.ix, 0, 0, 0, 0, 0, {}, {})
      modifies this`l
      ensures SoFar(w, p, old(l).ix, l, groups, at) && ok == (l.errors == 0)
    {
      ghost var was := l.ix;
      NothingSwept(w, p, l, at);
      hide SoFar, Accounted, PlaceOf, Listed, AllClean, GroupSettled, GroupMarked;
      for i := 0 to |groups|
        invariant SoFar(w, p, was, l, groups[..i], at)
      {
        assert groups[..i + 1] == groups[..i] + [groups[i]];
        GroupUntouched(w, p, was, l, groups[..i], groups[i], at);
        ghost var before := l;
        SweepGroup(groups[i]);
        NextGroup(w, p, was, before, l, groups[..i], groups[i], at);
      }
      assert groups[..|groups|] == groups;
      ok := l.errors == 0;
    }

    /** The whole sweep; any failure makes the run partial. */
    method Run(groups: seq<Group>) returns (ok: bool)
      requires DistinctChats(groups) && l == Ledger(l.ix, 0, 0, 0, 0, 0, {}, {})
      modifies this`l
      ensures ok <==> forall g :: g in groups && g.policy == p.name ==>
                && !w.fails(ListUntracked(g.chatID))
                && forall u :: Observed(old(l).ix, g.chatID, u) ==> NoCallFails(w, p, old(l).ix, g, u)
      ensures forall k :: k in l.kicks <==>
                exists g :: g in groups && k.0 == g.chatID && Unwanted(w, p, old(l).ix, g, k.1)
      ensures forall k :: k in l.rescues <==>
                exists g :: g in groups && k.0 == g.chatID && Deserving(w, p, old(l).ix, g, k.1)
      ensures Accounted(w, l) && l.removed <= l.rescued + l.kicked && l.groups == PolicyGroups(groups, p.name)
      ensures forall g, u :: g in groups ==> PlaceOf(l.ix, g.chatID, u) == SettledPlace(w, p, old(l).ix, g, u, at)
      ensures forall c, u :: (forall g :: g in groups ==> g.chatID != c) ==>
                PlaceOf(l.ix, c, u) == PlaceOf(old(l).ix, c, u)
      ensures ok ==> forall g, u :: g in groups && g.policy == p.name && Observed(l.ix, g.chatID, u) ==>
                && (g.chatID, u) in old(l).ix.records && p.deadline.Some?
                && (|| old(l).ix.records[(g.chatID, u)].firstSeen == 0
                    || old(l).ix.records[(g.chatID, u)].firstSeen > p.deadline.value)
      ensures ok && p.deadline == None ==> forall g, u :: g in groups && g.policy == p.name ==>
                !Observed(l.ix, g.chatID, u)
      ensures forall k :: k in l.kicks + l.rescues ==>
                && k.1 !in w.gods && k.1 in SetAt(old(l).ix.untracked, k.0)
                && k in old(l).ix.records && old(l).ix.records[k].standing == Untracked
                && (p.deadline.Some? ==>
                      0 != old(l).ix.records[k].firstSeen && old(l).ix.records[k].firstSeen <= p.deadline.value)
      ensures forall k :: k in l.kicks ==>
                exists g :: g in groups && g.chatID == k.0 && g.policy == p.name &&
                            (|| k.1 !in old(l).ix.identity || old(l).ix.identity[k.1] == ""
                             || old(l).ix.identity[k.1] !in SetAt(w.subscribers, g.creatorID)
                             || (&& g.creatorID in w.blocklistSync && w.blocklistSync[g.creatorID]
                                 && old(l).ix.identity[k.1] in SetAt(w.blocked, g.creatorID)))
      ensures forall k :: k in l.rescues ==>
                exists g :: g in groups && g.chatID == k.0 && g.policy == p.name
                            && k.1 in old(l).ix.identity && old(l).ix.identity[k.1] != ""
                            && old(l).ix.identity[k.1] in SetAt(w.subscribers, g.creatorID)
                            && !(&& g.creatorID in w.blocklistSync && w.blocklistSync[g.creatorID]
                                 && old(l).ix.identity[k.1] in SetAt(w.blocked, g.creatorID))
      ensures forall k :: k in l.kicks && !w.fails(Cleanup(k.0, k.1)) ==>
                k.1 !in SetAt(l.ix.untracked, k.0) && k !in l.ix.records
      ensures forall k :: k in l.rescues ==>
                && k.1 in SetAt(l.ix.tracked, k.0) && k.0 in SetAt(l.ix.reverse, k.1)
                && k.1 !in SetAt(l.ix.untracked, k.0)
                && Get(l.ix.records, k) == if w.fails(Cleanup(k.0, k.1)) then Some(Record(Tracked, at)) else None
    {
      hide *;
      ok := SweepAll(groups);
      ghost var was := old(l).ix;
      AllSwept(w, p, was, l, groups, at);
      CleanReported(w, p, was, groups, l, at);
      HandledReported(w, p, was, groups, l, at);
    }
  }

  lemma CleanGroups(w: World, p: Policy, ix: Index, groups: seq<Group>)
    ensures (forall g :: g in groups ==> AllClean(w, p, ix, g)) <==>
            forall g :: g in groups && g.policy == p.name ==>
              && !w.fails(ListUntracked(g.chatID))
              && forall u :: Observed(ix, g.chatID, u) ==> NoCallFails(w, p, ix, g, u)
  {
    forall g {
      CleanExplained(w, p, ix, g);
    }
    hide AllClean, Observed, NoCallFails;
  }

  lemma StillObserved(w: World, p: Policy, was: Index, l: Ledger, groups: seq<Group>)
    requires l.errors == 0 ==> forall g, u :: g in groups && g.policy == p.name && Listed(l.ix, g.chatID, u) ==>
                                                SeenTooRecently(p, was, g.chatID, u)
    ensures l.errors == 0 ==> forall g, u :: g in groups && g.policy == p.name && Observed(l.ix, g.chatID, u) ==>
              && (g.chatID, u) in was.records && p.deadline.Some?
              && (|| was.records[(g.chatID, u)].firstSeen == 0
                  || was.records[(g.chatID, u)].firstSeen > p.deadline.value)
  {
    assert forall c, u :: Observed(l.ix, c, u) ==> Listed(l.ix, c, u);
    hide Observed, Listed;
  }

  lemma CleanReported(w: World, p: Policy, was: Index, groups: seq<Group>, l: Ledger, at: int)
    requires SoFar(w, p, was, l, groups, at)
    ensures l.errors == 0 <==>
            forall g :: g in groups && g.policy == p.name ==>
              && !w.fails(ListUntracked(g.chatID))
              && forall u :: Observed(was, g.chatID, u) ==> NoCallFails(w, p, was, g, u)
    ensures l.errors == 0 ==> forall g, u :: g in groups && g.policy == p.name && Observed(l.ix, g.chatID, u) ==>
              && (g.chatID, u) in was.records && p.deadline.Some?
              && (|| was.records[(g.chatID, u)].firstSeen == 0
                  || was.records[(g.chatID, u)].firstSeen > p.deadline.value)
  {
    hide *;
    AllSwept(w, p, was, l, groups, at);
    CleanGroups(w, p, was, groups);
    StillObserved(w, p, was, l, groups);
  }

  ghost predicate PlacedIn(w: World, p: Policy, was: Index, ix: Index, done: seq<Group>, at: int) {
    && ix.identity == was.identity
    && (forall g, u :: g in done ==> PlaceOf(ix, g.chatID, u) == SettledPlace(w, p, was, g, u, at))
    && (forall c, u :: (forall g :: g in done ==> g.chatID != c) ==> PlaceOf(ix, c, u) == PlaceOf(was, c, u))
  }

  ghost predicate MarkedIn(w: World, p: Policy, was: Index, done: seq<Group>, v: Verdict, pairs: set<Pair>) {
    forall k :: k in pairs <==> exists g :: g in done && k.0 == g.chatID && Gets(w, p, was, g, k.1, v)
  }

  /** After the groups in `done`: they are settled, the others untouched, and the ledger is about them alone. */
  ghost predicate SoFar(w: World, p: Policy, was: Index, l: Ledger, done: seq<Group>, at: int) {
    && Accounted(w, l) && l.groups == PolicyGroups(done, p.name)
    && PlacedIn(w, p, was, l.ix, done, at)
    && MarkedIn(w, p, was, done, Kicked, l.kicks) && MarkedIn(w, p, was, done, Rescued, l.rescues)
    && (l.errors == 0 <==> forall g :: g in done ==> AllClean(w, p, was, g))
  }

  lemma NothingSwept(w: World, p: Policy, l: Ledger, at: int)
    requires l == Ledger(l.ix, 0, 0, 0, 0, 0, {}, {})
    ensures SoFar(w, p, l.ix, l, [], at)
  {
    assert RemovedOf(w, {}) == {};
    hide PlaceOf;
  }

  /** A group looks to the sweep as it did before the run until the sweep reaches it. */
  lemma SameGroup(w: World, p: Policy, was: Index, ix: Index, g: Group, u: int, at: int)
    requires ix.identity == was.identity && PlaceOf(ix, g.chatID, u) == PlaceOf(was, g.chatID, u)
    ensures Listed(ix, g.chatID, u) == Listed(was, g.chatID, u)
    ensures Listed(was, g.chatID, u) ==> VerdictOf(w, p, ix, g, u) == VerdictOf(w, p, was, g, u)
    ensures SettledPlace(w, p, ix, g, u, at) == SettledPlace(w, p, was, g, u, at)
    ensures forall v :: Gets(w, p, ix, g, u, v) == Gets(w, p, was, g, u, v)
  {
    hide Judge, PlaceAfter;
  }

  lemma GroupUntouched(w: World, p: Policy, was: Index, l: Ledger, done: seq<Group>, g: Group, at: int)
    requires SoFar(w, p, was, l, done, at) && forall d :: d in done ==> d.chatID != g.chatID
    ensures Accounted(w, l) && NotYet(l, g)
    ensures forall u :: SettledPlace(w, p, l.ix, g, u, at) == SettledPlace(w, p, was, g, u, at)
    ensures forall u, v :: Gets(w, p, l.ix, g, u, v) == Gets(w, p, was, g, u, v)
    ensures AllClean(w, p, l.ix, g) == AllClean(w, p, was, g)
  {
    forall u {
      SameGroup(w, p, was, l.ix, g, u, at);
    }
    hide PlaceOf, Listed, VerdictOf, SettledPlace, Gets, Clean, Accounted;
  }

  lemma NextPlaces(w: World, p: Policy, was: Index, mid: Index, ix: Index, done: seq<Group>, g: Group, at: int)
    requires PlacedIn(w, p, was, mid, done, at) && forall d :: d in done ==> d.chatID != g.chatID
    requires GroupSettled(w, p, mid, ix, g, at)
    requires forall u :: SettledPlace(w, p, mid, g, u, at) == SettledPlace(w, p, was, g, u, at)
    ensures PlacedIn(w, p, was, ix, done + [g], at)
  {
    hide PlaceOf, SettledPlace;
    forall c, u | forall d :: d in done + [g] ==> d.chatID != c
      ensures PlaceOf(ix, c, u) == PlaceOf(was, c, u)
    {
      assert forall d :: d in done ==> d in done + [g];
      assert g in done + [g];
    }
  }

  lemma NextMarked(w: World, p: Policy, was: Index, mid: Index, done: seq<Group>, g: Group, v: Verdict,
      before: set<Pair>, pairs: set<Pair>)
    requires MarkedIn(w, p, was, done, v, before)
    requires forall k :: k in pairs <==> k in before || (k.0 == g.chatID && Gets(w, p, mid, g, k.1, v))
    requires forall u :: Gets(w, p, mid, g, u, v) == Gets(w, p, was, g, u, v)
    ensures MarkedIn(w, p, was, done + [g], v, pairs)
  {
    hide Gets;
    forall k
      ensures k in pairs <==> exists d :: d in done + [g] && k.0 == d.chatID && Gets(w, p, was, d, k.1, v)
    {
      assert forall d :: d in done + [g] <==> d in done || d == g;
    }
  }

  lemma NextGroup(w: World, p: Policy, was: Index, before: Ledger, l: Ledger, done: seq<Group>, g: Group, at: int)
    requires SoFar(w, p, was, before, done, at) && forall d :: d in done ==> d.chatID != g.chatID
    requires GroupSettled(w, p, before.ix, l.ix, g, at) && GroupMarked(w, p, before, l, g)
    ensures SoFar(w, p, was, l, done + [g], at)
  {
    GroupUntouched(w, p, was, before, done, g, at);
    OneMoreGroup(w, p, was, done, g);
    hide Gets, AllClean, Accounted, PlacedIn, MarkedIn, GroupSettled, PolicyGroups;
    NextPlaces(w, p, was, before.ix, l.ix, done, g, at);
    NextMarked(w, p, was, before.ix, done, g, Kicked, before.kicks, l.kicks);
    NextMarked(w, p, was, before.ix, done, g, Rescued, before.rescues, l.rescues);
  }

  lemma OneMoreGroup(w: World, p: Policy, was: Index, done: seq<Group>, g: Group)
    ensures PolicyGroups(done + [g], p.name) == PolicyGroups(done, p.name) + if g.policy == p.name then 1 else 0
    ensures (forall d :: d in done + [g] ==> AllClean(w, p, was, d)) <==>
              AllClean(w, p, was, g) && forall d :: d in done ==> AllClean(w, p, was, d)
  {
    assert (done + [g])[..|done|] == done;
    hide AllClean;
    assert forall d :: d in done + [g] <==> d in done || d == g;
  }

  lemma RemovedAreHandled(w: World, l: Ledger)
    requires Accounted(w, l)
    ensures l.removed <= l.rescued + l.kicked
  {
    assert |l.kicks + l.rescues| == |l.kicks| + |l.rescues|;
    FewerRemoved(w, l.kicks + l.rescues);
  }

  lemma {:induction false} FewerRemoved(w: World, handled: set<Pair>)
    ensures |RemovedOf(w, handled)| <= |handled|
  {
    if handled == {} {
      assert RemovedOf(w, handled) == {};
    } else {
      var k :| k in handled;
      FewerRemoved(w, handled - {k});
      RemovedMore(w, handled - {k}, k);
      assert handled - {k} + {k} == handled;
    }
  }

  /** With every call succeeding, whoever is still listed was seen too recently. */
  lemma StillListed(w: World, p: Policy, was: Index, ix: Index, g: Group, u: int, at: int)
    requires AllClean(w, p, was, g) && g.policy == p.name &&
              PlaceOf(ix, g.chatID, u) == SettledPlace(w, p, was, g, u, at)
    ensures Listed(ix, g.chatID, u) ==> SeenTooRecently(p, was, g.chatID, u)
  {
  }

  lemma AllSwept(w: World, p: Policy, was: Index, l: Ledger, groups: seq<Group>, at: int)
    requires SoFar(w, p, was, l, groups, at)
    ensures l.errors == 0 <==> forall g :: g in groups ==> AllClean(w, p, was, g)
    ensures forall k :: k in l.kicks <==> exists g :: g in groups && k.0 == g.chatID && Unwanted(w, p, was, g, k.1)
    ensures forall k :: k in l.rescues <==> exists g :: g in groups && k.0 == g.chatID && Deserving(w, p, was, g, k.1)
    ensures Accounted(w, l) && l.removed <= l.rescued + l.kicked && l.groups == PolicyGroups(groups, p.name)
    ensures forall g, u :: g in groups ==> PlaceOf(l.ix, g.chatID, u) == SettledPlace(w, p, was, g, u, at)
    ensures forall c, u :: (forall g :: g in groups ==> g.chatID != c) ==> PlaceOf(l.ix, c, u) == PlaceOf(was, c, u)
    ensures l.errors == 0 ==> forall g, u :: g in groups && g.policy == p.name && Listed(l.ix, g.chatID, u) ==>
                                               SeenTooRecently(p, was, g.chatID, u)
  {
    RemovedAreHandled(w, l);
    forall g, u {
      VerdictsExplained(w, p, was, g, u);
    }
    hide Accounted, PlaceOf, SettledPlace, Listed, AllClean, Gets, Unwanted, Deserving, SeenTooRecently;
    forall g, u | l.errors == 0 && g in groups && g.policy == p.name
      ensures Listed(l.ix, g.chatID, u) ==> SeenTooRecently(p, was, g.chatID, u)
    {
      StillListed(w, p, was, l.ix, g, u, at);
    }
  }

  /** Who is kicked and rescued, in terms of the stored facts alone. */
  lemma HandledAre(w: World, p: Policy, was: Index, groups: seq<Group>, l: Ledger)
    requires forall k :: k in l.kicks <==> exists g :: g in groups && k.0 == g.chatID && Unwanted(w, p, was, g, k.1)
    requires forall k :: k in l.rescues <==> exists g :: g in groups && k.0 == g.chatID && Deserving(w, p, was, g, k.1)
    ensures forall k :: k in l.kicks + l.rescues ==>
              && k.1 !in w.gods && k.1 in SetAt(was.untracked, k.0)
              && k in was.records && was.records[k].standing == Untracked
              && (p.deadline.Some? ==> 0 != was.records[k].firstSeen && was.records[k].firstSeen <= p.deadline.value)
    ensures forall k :: k in l.kicks ==>
              exists g :: g in groups && g.chatID == k.0 && g.policy == p.name &&
                          (|| k.1 !in was.identity || was.identity[k.1] == ""
                           || was.identity[k.1] !in SetAt(w.subscribers, g.creatorID)
                           || (&& g.creatorID in w.blocklistSync && w.blocklistSync[g.creatorID]
                               && was.identity[k.1] in SetAt(w.blocked, g.creatorID)))
    ensures forall k :: k in l.rescues ==>
              exists g :: g in groups && g.chatID == k.0 && g.policy == p.name
                          && k.1 in was.identity && was.identity[k.1] != ""
                          && was.identity[k.1] in SetAt(w.subscribers, g.creatorID)
                          && !(&& g.creatorID in w.blocklistSync && w.blocklistSync[g.creatorID]
                               && was.identity[k.1] in SetAt(w.blocked, g.creatorID))
  {
  }

  /** Where the members handled by the run end up. */
  lemma HandledEnd(w: World, p: Policy, was: Index, groups: seq<Group>, l: Ledger, at: int)
    requires forall k :: k in l.kicks <==> exists g :: g in groups && k.0 == g.chatID && Unwanted(w, p, was, g, k.1)
    requires forall k :: k in l.rescues <==> exists g :: g in groups && k.0 == g.chatID && Deserving(w, p, was, g, k.1)
    requires forall g, u :: g in groups ==> PlaceOf(l.ix, g.chatID, u) == SettledPlace(w, p, was, g, u, at)
    ensures forall k :: k in l.kicks && !w.fails(Cleanup(k.0, k.1)) ==>
              k.1 !in SetAt(l.ix.untracked, k.0) && k !in l.ix.records
    ensures forall k :: k in l.rescues ==>
              && k.1 in SetAt(l.ix.tracked, k.0) && k.0 in SetAt(l.ix.reverse, k.1)
              && k.1 !in SetAt(l.ix.untracked, k.0)
              && Get(l.ix.records, k) == if w.fails(Cleanup(k.0, k.1)) then Some(Record(Tracked, at)) else None
  {
    hide Unwanted, Deserving, SettledPlace, PlaceOf;
    forall k | k in l.kicks
      ensures !w.fails(Cleanup(k.0, k.1)) ==> k.1 !in SetAt(l.ix.untracked, k.0) && k !in l.ix.records
    {
      var g :| g in groups && k.0 == g.chatID && Unwanted(w, p, was, g, k.1);
      KickedEnds(w, p, was, l.ix, g, k.1, at);
    }
    forall k | k in l.rescues
      ensures k.1 in SetAt(l.ix.tracked, k.0) && k.0 in SetAt(l.ix.reverse, k.1) && k.1 !in SetAt(l.ix.untracked, k.0)
      ensures Get(l.ix.records, k) == if w.fails(Cleanup(k.0, k.1)) then Some(Record(Tracked, at)) else None
    {
      var g :| g in groups && k.0 == g.chatID && Deserving(w, p, was, g, k.1);
      RescuedEnds(w, p, was, l.ix, g, k.1, at);
    }
  }

  lemma KickedEnds(w: World, p: Policy, was: Index, ix: Index, g: Group, u: int, at: int)
    requires Unwanted(w, p, was, g, u) && PlaceOf(ix, g.chatID, u) == SettledPlace(w, p, was, g, u, at)
    ensures !w.fails(Cleanup(g.chatID, u)) ==> u !in SetAt(ix.untracked, g.chatID) && (g.chatID, u) !in ix.records
  {
    VerdictsExplained(w, p, was, g, u);
    hide Unwanted, Judge;
  }

  lemma RescuedEnds(w: World, p: Policy, was: Index, ix: Index, g: Group, u: int, at: int)
    requires Deserving(w, p, was, g, u) && PlaceOf(ix, g.chatID, u) == SettledPlace(w, p, was, g, u, at)
    ensures u in SetAt(ix.tracked, g.chatID) && g.chatID in SetAt(ix.reverse, u) && u !in SetAt(ix.untracked, g.chatID)
    ensures Get(ix.records, (g.chatID, u)) ==
            if w.fails(Cleanup(g.chatID, u)) then Some(Record(Tracked, at)) else None
  {
    VerdictsExplained(w, p, was, g, u);
    hide Deserving, Judge;
  }

  lemma HandledReported(w: World, p: Policy, was: Index, groups: seq<Group>, l: Ledger, at: int)
    requires SoFar(w, p, was, l, groups, at)
    ensures forall k :: k in l.kicks + l.rescues ==>
              && k.1 !in w.gods && k.1 in SetAt(was.untracked, k.0)
              && k in was.records && was.records[k].standing == Untracked
              && (p.deadline.Some? ==> 0 != was.records[k].firstSeen && was.records[k].firstSeen <= p.deadline.value)
    ensures forall k :: k in l.kicks ==>
              exists g :: g in groups && g.chatID == k.0 && g.policy == p.name &&
                          (|| k.1 !in was.identity || was.identity[k.1] == ""
                           || was.identity[k.1] !in SetAt(w.subscribers, g.creatorID)
                           || (&& g.creatorID in w.blocklistSync && w.blocklistSync[g.creatorID]
                               && was.identity[k.1] in SetAt(w.blocked, g.creatorID)))
    ensures forall k :: k in l.rescues ==>
              exists g :: g in groups && g.chatID == k.0 && g.policy == p.name
                          && k.1 in was.identity && was.identity[k.1] != ""
                          && was.identity[k.1] in SetAt(w.subscribers, g.creatorID)
                          && !(&& g.creatorID in w.blocklistSync && w.blocklistSync[g.creatorID]
                               && was.identity[k.1] in SetAt(w.blocked, g.creatorID))
    ensures forall k :: k in l.kicks && !w.fails(Cleanup(k.0, k.1)) ==>
              k.1 !in SetAt(l.ix.untracked, k.0) && k !in l.ix.records
    ensures forall k :: k in l.rescues ==>
              && k.1 in SetAt(l.ix.tracked, k.0) && k.0 in SetAt(l.ix.reverse, k.1)
              && k.1 !in SetAt(l.ix.untracked, k.0)
              && Get(l.ix.records, k) == if w.fails(Cleanup(k.0, k.1)) then Some(Record(Tracked, at)) else None
  {
    hide *;
    AllSwept(w, p, was, l, groups, at);
    HandledAre(w, p, was, groups, l);
    HandledEnd(w, p, was, groups, l, at);
  }

  lemma NobodyEntered(w: World, p: Policy, l: Ledger, g: Group, at: int)
    requires Accounted(w, l)
    ensures Places(w, p, l.ix, l.ix, g, {}, at) && Marks(w, p, l.ix, l, l, g, {})
    ensures !Swept(w, p, g) ==> GroupSettled(w, p, l.ix, l.ix, g, at)
    ensures g.policy != p.name ==> GroupMarked(w, p, l, l, g)
    ensures g.policy == p.name && !Swept(w, p, g) ==>
              GroupMarked(w, p, l, l.(groups := l.groups + 1, errors := l.errors + 1), g)
    ensures Accounted(w, l.(groups := l.groups + 1))
  {
    hide PlaceOf;
  }

  lemma MemberVerdict(w: World, p: Policy, was: Index, ix: Index, g: Group, users: set<int>, user: int, at: int)
    requires Places(w, p, was, ix, g, users, at) && Listed(was, g.chatID, user)
    ensures (g.chatID, user) in was.records && ix.identity == was.identity
    ensures Judge(w, p, ix.identity, g, user, was.records[(g.chatID, user)].firstSeen) == VerdictOf(w, p, was, g, user)
  {
  }

  lemma GroupFinished(w: World, p: Policy, before: Ledger, entry: Ledger, l: Ledger, g: Group, at: int)
    requires Swept(w, p, g) && entry == before.(groups := before.groups + 1)
    requires Places(w, p, before.ix, l.ix, g, ListedIn(before.ix, g.chatID), at)
    requires Marks(w, p, before.ix, entry, l, g, ListedIn(before.ix, g.chatID))
    ensures GroupSettled(w, p, before.ix, l.ix, g, at) && GroupMarked(w, p, before, l, g)
  {
    hide PlaceOf, VerdictOf, Listed, ListedIn, Accounted, PlaceAfter, Clean;
    ListedMembers(before.ix, g.chatID);
  }

  lemma ListedMembers(ix: Index, chat: int)
    ensures forall u :: u in ListedIn(ix, chat) <==> Listed(ix, chat, u)
  {
  }

  /** The ledger says nothing about the group yet. */
  ghost predicate NotYet(l: Ledger, g: Group) {
    forall u :: (g.chatID, u) !in l.kicks && (g.chatID, u) !in l.rescues
  }

  ghost predicate GroupSettled(w: World, p: Policy, was: Index, ix: Index, g: Group, at: int) {
    && ix.identity == was.identity
    && (forall u :: PlaceOf(ix, g.chatID, u) == SettledPlace(w, p, was, g, u, at))
    && (forall c, u :: c != g.chatID ==> PlaceOf(ix, c, u) == PlaceOf(was, c, u))
  }

  ghost predicate GroupMarked(w: World, p: Policy, before: Ledger, l: Ledger, g: Group) {
    && Accounted(w, l) && l.groups == before.groups + (if g.policy == p.name then 1 else 0)
    && (forall k :: k in l.kicks <==> k in before.kicks || (k.0 == g.chatID && Gets(w, p, before.ix, g, k.1, Kicked)))
    && (forall k :: k in l.rescues <==>
        k in before.rescues || (k.0 == g.chatID && Gets(w, p, before.ix, g, k.1, Rescued)))
    && (l.errors == 0 <==> before.errors == 0 && AllClean(w, p, before.ix, g))
  }
}
