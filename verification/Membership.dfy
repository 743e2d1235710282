/**
 Tracked and untracked group members, the per-user reverse index, and the Telegram to Twitch links,
 as the store writes them. Most operations are plain pipelines, so an interrupted one leaves the
 effect of its first `done` commands; the deletions end in one transaction.
 */
module Membership {
  import opened RedisCommands
  import opened IndexSets

  /** The member hash shared by the tracked and the untracked side; `Bare` has no state field yet. */
  datatype Standing = Bare | Tracked | Untracked
  datatype Record = Record(standing: Standing, firstSeen: int)

  datatype Index = Index(
    managed: set<int>,
    tracked: map<int, set<int>>,
    untracked: map<int, set<int>>,
    reverse: map<int, set<int>>,
    records: map<(int, int), Record>,
    users: set<int>,
    identity: map<int, string>,
    byTwitch: map<string, int>)

  const BLANK := Index({}, map[], map[], map[], map[], {}, map[], map[])

  // ----- One pipeline each -----

  function AddTracked(ix: Index, chat: int, user: int, at: int, done: nat): Index {
    ix.(tracked := if done >= 1 then AddAt(ix.tracked, chat, user) else ix.tracked,
        untracked := if done >= 2 then DropAt(ix.untracked, chat, user) else ix.untracked,
        reverse := if done >= 3 then AddAt(ix.reverse, user, chat) else ix.reverse,
        records := if done >= 4 then ix.records[(chat, user) := Record(Tracked, at)] else ix.records)
  }

  function RemoveTracked(ix: Index, chat: int, user: int, done: nat): Index {
    ix.(tracked := if done >= 1 then DropAt(ix.tracked, chat, user) else ix.tracked,
        reverse := if done >= 2 then DropAt(ix.reverse, user, chat) else ix.reverse,
        records := if done >= 3 then ix.records - {(chat, user)} else ix.records)
  }

  /** HSETNX keeps the first time a member was seen. */
  function FirstSeen(ix: Index, chat: int, user: int, at: int): int {
    if (chat, user) in ix.records then ix.records[(chat, user)].firstSeen else at
  }

  function UpsertUntracked(ix: Index, chat: int, user: int, at: int, done: nat): Index {
    ix.(untracked := if done >= 1 then AddAt(ix.untracked, chat, user) else ix.untracked,
        records :=
          if done >= 3 then ix.records[(chat, user) := Record(Untracked, FirstSeen(ix, chat, user, at))]
          else if done == 2 && (chat, user) !in ix.records then ix.records[(chat, user) := Record(Bare, at)]
          else ix.records)
  }

  function RemoveUntracked(ix: Index, chat: int, user: int, done: nat): Index {
    ix.(untracked := if done >= 1 then DropAt(ix.untracked, chat, user) else ix.untracked,
        records := if done >= 2 then ix.records - {(chat, user)} else ix.records)
  }

  // ----- Deletions -----

  function DeleteGroup(ix: Index, chat: int): Index {
    if chat !in ix.managed then ix
    else ix.(managed := ix.managed - {chat},
             tracked := ix.tracked - {chat},
             untracked := ix.untracked - {chat},
             reverse := DropFrom(ix.reverse, SetAt(ix.tracked, chat), chat))
  }

  /** The managed groups whose record of `user` says untracked. */
  function ObservedIn(ix: Index, user: int): set<int> {
    set g | g in ix.managed && (g, user) in ix.records && ix.records[(g, user)].standing == Untracked
  }

  function Forget(records: map<(int, int), Record>, groups: set<int>, user: int): map<(int, int), Record> {
    map m | m in records && !(m.0 in groups && m.1 == user) :: records[m]
  }

  function DeleteUntrackedIn(ix: Index, user: int, groups: set<int>): Index {
    ix.(untracked := DropFrom(ix.untracked, groups, user),
        records := Forget(ix.records, groups, user))
  }

  /** An erasure that fails among its first pipelines: some memberships are gone, one perhaps halfway. */
  function CutErasure(ix: Index, user: int, gone: set<int>, last: int, done: nat): Index {
    RemoveUntracked(DeleteUntrackedIn(ix, user, gone), last, user, done)
  }

  function DeleteUser(ix: Index, user: int): Index {
    var a := DeleteUntrackedIn(ix, user, ObservedIn(ix, user));
    var of := SetAt(a.reverse, user);
    a.(tracked := DropFrom(a.tracked, of, user),
       records := Forget(a.records, of, user),
       reverse := a.reverse - {user},
       identity := a.identity - {user},
       users := a.users - {user},
       byTwitch := if user in a.identity && a.identity[user] != "" then a.byTwitch - {a.identity[user]} else a.byTwitch)
  }

  // ----- Linking -----

  datatype LinkResult = DifferentTwitch | Linked(displaced: int)

  predicate LinkedElsewhere(ix: Index, user: int, twitch: string) {
    user in ix.identity && ix.identity[user] != "" && ix.identity[user] != twitch
  }

  /** The user the Twitch account belongs to now, when it is another one; 0 reads as nobody. */
  function Displaced(ix: Index, user: int, twitch: string): int {
    if twitch in ix.byTwitch && ix.byTwitch[twitch] != user then ix.byTwitch[twitch] else 0
  }

  function Prepared(ix: Index, user: int, twitch: string): Index {
    if Displaced(ix, user, twitch) == 0 then ix else DeleteUser(ix, Displaced(ix, user, twitch))
  }

  /** The script checks again and then writes the three keys. */
  function ScriptLink(ix: Index, user: int, twitch: string): Option<Index> {
    if LinkedElsewhere(ix, user, twitch) then None
    else Some(ix.(identity := ix.identity[user := twitch],
                  byTwitch := ix.byTwitch[twitch := user],
                  users := ix.users + {user}))
  }

  function Link(ix: Index, user: int, twitch: string): (Index, LinkResult) {
    if LinkedElsewhere(ix, user, twitch) then (ix, DifferentTwitch)
    else
      var prepared := Prepared(ix, user, twitch);
      match ScriptLink(prepared, user, twitch)
      case None => (prepared, DifferentTwitch)
      case Some(linked) => (linked, Linked(Displaced(ix, user, twitch)))
  }

  // ----- What the index should say -----

  /** Forward and reverse index disagree about this user and group. */
  predicate Mismatch(ix: Index, user: int, group: int) {
    (user in SetAt(ix.tracked, group)) != (group in SetAt(ix.reverse, user))
  }

  ghost predicate Dual(ix: Index) {
    forall u, g :: !Mismatch(ix, u, g)
  }

  ghost predicate TrackedAreManaged(ix: Index) {
    forall g :: SetAt(ix.tracked, g) != {} ==> g in ix.managed
  }

  /** Identities and Twitch map are inverse to each other, and the users set is the linked users. */
  ghost predicate LinksInverse(ix: Index) {
    ix.users == ix.identity.Keys && Inverse(ix.identity, ix.byTwitch)
  }

  ghost predicate Inverse(identity: map<int, string>, byTwitch: map<string, int>) {
    && (forall u :: u in identity ==> identity[u] in byTwitch && byTwitch[identity[u]] == u)
    && (forall t :: t in byTwitch ==> byTwitch[t] in identity && identity[byTwitch[t]] == t)
  }

  // ----- Repair -----

  function TrackedIn(tracked: map<int, set<int>>, groups: set<int>): set<int> {
    set g, u | g in groups && u in SetAt(tracked, g) :: u
  }

  /** Users the repair looks at: linked users and everyone tracked in a managed group. */
  function Candidates(ix: Index): set<int> {
    ix.users + TrackedIn(ix.tracked, ix.managed)
  }

  function Wanted(ix: Index, user: int): set<int> {
    set g | g in ix.managed && user in SetAt(ix.tracked, g)
  }

  function RepairOf(ix: Index, users: set<int>): Index {
    ix.(reverse := (ix.reverse - users) + map u | u in users && Wanted(ix, u) != {} :: Wanted(ix, u))
  }

  /** With no managed group the repair returns at once. */
  function Repaired(ix: Index): Index {
    if ix.managed == {} then ix else RepairOf(ix, Candidates(ix))
  }

  function MissingLinks(ix: Index, users: set<int>): set<(int, int)> {
    set u, g | u in users && g in Wanted(ix, u) - SetAt(ix.reverse, u) :: (u, g)
  }

  function StaleLinks(ix: Index, users: set<int>): set<(int, int)> {
    set u, g | u in users && g in SetAt(ix.reverse, u) - Wanted(ix, u) :: (u, g)
  }

  function WrongUsers(ix: Index, users: set<int>): set<int> {
    set u | u in users && SetAt(ix.reverse, u) != Wanted(ix, u)
  }
}
