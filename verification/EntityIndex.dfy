/**
 Managed groups and creators: a hash per entity, a set of ids, and secondary sets by creator or by
 owner. Answers filtered from the cached list are the answers the indexes give.
 */
module EntityIndex {
  import opened RedisCommands
  import opened ReadCache
  import opened IndexSets
  import opened TextOrder

  datatype Group = Group(chatID: int, creatorID: string, name: string, policy: string, tagSync: bool, threadID: int)

  datatype Creator = Creator(id: string, owner: int, login: string, authStatus: string)

  datatype GroupTables = GroupTables(index: set<int>, hashes: map<int, Group>, byCreator: map<string, set<int>>)

  datatype CreatorTables = CreatorTables(index: set<string>, hashes: map<string, Creator>, byOwner: map<int,
      set<string>>)

  // ----- Groups: the store operations on values -----

  /** HSET keeps fields it does not name: a thread id is only ever overwritten by a positive one. */
  function MergedGroup(old_: Option<Group>, g: Group): Group {
    var g' := if g.policy == "" then g.(policy := "observe") else g;
    if g.threadID > 0 then g'
    else g'.(threadID := match old_ case Some(o) => o.threadID case None => 0)
  }

  /** The transaction of an upsert that has read `seen` before: HSET merges with the hash as it is now,
      but the by-creator set to leave is the one that was read. */
  function UpsertSeeing(t: GroupTables, g: Group, seen: Option<Group>): GroupTables {
    var added := AddAt(t.byCreator, g.creatorID, g.chatID);
    GroupTables(
      t.index + {g.chatID},
      t.hashes[g.chatID := MergedGroup(Get(t.hashes, g.chatID), g)],
      if seen.Some? && seen.value.creatorID != "" && seen.value.creatorID != g.creatorID
      then DropAt(added, seen.value.creatorID, g.chatID) else added)
  }

  function Upsert(t: GroupTables, g: Group): GroupTables {
    UpsertSeeing(t, g, Get(t.hashes, g.chatID))
  }

  /** A partial hash parses to a group with no creator and the default policy. */
  function SetTagSync(t: GroupTables, chatID: int, enabled: bool): GroupTables {
    t.(hashes := t.hashes[chatID :=
         if chatID in t.hashes then t.hashes[chatID].(tagSync := enabled)
         else Group(chatID, "", "", "observe", enabled, 0)])
  }

  function Remove(t: GroupTables, chatID: int): GroupTables {
    if chatID !in t.hashes then t
    else GroupTables(t.index - {chatID}, t.hashes - {chatID}, DropAt(t.byCreator, t.hashes[chatID].creatorID, chatID))
  }

  /** What a lookup returns after an upsert, field by field; other groups are left alone. */
  lemma UpsertFields(t: GroupTables, g: Group, id: int)
    ensures var after := Upsert(t, g).hashes;
            if id != g.chatID then Get(after, id) == Get(t.hashes, id)
            else
              && id in after && after[id].chatID == g.chatID && after[id].creatorID == g.creatorID
              && after[id].name == g.name && after[id].tagSync == g.tagSync
              && after[id].policy == (if g.policy == "" then "observe" else g.policy)
              && after[id].threadID == (if g.threadID > 0 then g.threadID
                                        else if id in t.hashes then t.hashes[id].threadID else 0)
    ensures id in Upsert(t, g).index <==> id == g.chatID || id in t.index
    ensures forall c :: id in SetAt(Upsert(t, g).byCreator, c) <==>
              if id != g.chatID then id in SetAt(t.byCreator, c)
              else c == g.creatorID ||
                   (id in SetAt(t.byCreator, c) && !(id in t.hashes && t.hashes[id].creatorID == c && c != ""))
  {
  }

  lemma TagSyncFields(t: GroupTables, chatID: int, enabled: bool, id: int)
    ensures var after := SetTagSync(t, chatID, enabled).hashes;
            if id != chatID then Get(after, id) == Get(t.hashes, id)
            else
              && id in after && after[id].tagSync == enabled
              && (id in t.hashes ==>
                    && after[id].chatID == t.hashes[id].chatID && after[id].creatorID == t.hashes[id].creatorID
                    && after[id].name == t.hashes[id].name && after[id].policy == t.hashes[id].policy
                    && after[id].threadID == t.hashes[id].threadID)
  {
  }

  // ----- Groups: what the operations keep -----

  predicate GroupsIndexed(t: GroupTables) {
    t.index == t.hashes.Keys && forall id :: id in t.hashes ==> t.hashes[id].chatID == id
  }

  predicate ByCreatorExact(t: GroupTables, c: string) {
    && (forall id :: id in SetAt(t.byCreator, c) ==> id in t.hashes && t.hashes[id].creatorID == c)
    && (forall id :: id in t.hashes && t.hashes[id].creatorID == c ==> id in SetAt(t.byCreator, c))
  }

  lemma UpsertKeepsIndexes(t: GroupTables, g: Group, c: string)
    requires GroupsIndexed(t) && ByCreatorExact(t, c)
    ensures GroupsIndexed(Upsert(t, g))
    ensures ByCreatorExact(Upsert(t, g), c) <==>
            !(c == "" && g.creatorID != "" && g.chatID in t.hashes && t.hashes[g.chatID].creatorID == "")
  {
    var t' := Upsert(t, g);
    assert t'.hashes[g.chatID].creatorID == g.creatorID;
    if c == "" && g.creatorID != "" && g.chatID in t.hashes && t.hashes[g.chatID].creatorID == "" {
      assert g.chatID in SetAt(t'.byCreator, "");
    }
  }

  /** After an upsert that saw an older hash, the set of a creator is exact unless that creator has
      the group by now, was not seen and does not get it. */
  lemma StaleUpsertExact(t: GroupTables, g: Group, seen: Option<Group>, c: string)
    requires GroupsIndexed(t) && ByCreatorExact(t, c)
    ensures GroupsIndexed(UpsertSeeing(t, g, seen))
    ensures ByCreatorExact(UpsertSeeing(t, g, seen), c) <==>
            !(&& g.chatID in t.hashes && t.hashes[g.chatID].creatorID == c && c != g.creatorID
              && !(seen.Some? && seen.value.creatorID == c && c != ""))
  {
    var t' := UpsertSeeing(t, g, seen);
    assert t'.hashes[g.chatID].creatorID == g.creatorID;
    if g.chatID in t.hashes && t.hashes[g.chatID].creatorID == c && c != g.creatorID {
      assert g.chatID in SetAt(t.byCreator, c);
    }
  }

  /**
   Two upserts of one group that both read the same hash: the by-creator sets of all creators stay
   exact exactly when the first to write leaves the group with the creator both saw, with none, or
   with the second one's. Otherwise the first one's creator keeps a group that names another.
   */
  lemma RacingUpsertsExact(t: GroupTables, first: Group, second: Group)
    requires GroupsIndexed(t) && (forall c :: c != "" ==> ByCreatorExact(t, c)) && first.chatID == second.chatID
    ensures var end := UpsertSeeing(Upsert(t, first), second, Get(t.hashes, first.chatID));
            (forall c :: c != "" ==> ByCreatorExact(end, c)) <==>
            || first.creatorID == "" || first.creatorID == second.creatorID
            || (first.chatID in t.hashes && t.hashes[first.chatID].creatorID == first.creatorID)
  {
    var seen, mid := Get(t.hashes, first.chatID), Upsert(t, first);
    assert mid.hashes[first.chatID].creatorID == first.creatorID;
    forall c | c != ""
      ensures ByCreatorExact(mid, c) && GroupsIndexed(mid)
      ensures ByCreatorExact(UpsertSeeing(mid, second, seen), c) <==>
              !(&& mid.hashes[second.chatID].creatorID == c && c != second.creatorID
                && !(seen.Some? && seen.value.creatorID == c))
    {
      UpsertKeepsIndexes(t, first, c);
      StaleUpsertExact(mid, second, seen, c);
    }
    hide ByCreatorExact, GroupsIndexed, UpsertSeeing, Upsert;
    var end, c := UpsertSeeing(mid, second, seen), first.creatorID;
    assert c != "" ==> (ByCreatorExact(end, c) <==> c == second.creatorID || (seen.Some? && seen.value.creatorID == c));
  }

  lemma RemoveKeepsIndexes(t: GroupTables, chatID: int, c: string)
    requires GroupsIndexed(t) && ByCreatorExact(t, c)
    ensures GroupsIndexed(Remove(t, chatID)) && ByCreatorExact(Remove(t, chatID), c)
    ensures forall id :: Get(Remove(t, chatID).hashes, id) == if id == chatID then None else Get(t.hashes, id)
    ensures forall id :: id in SetAt(Remove(t, chatID).byCreator, c) <==> id != chatID && id in SetAt(t.byCreator, c)
  {
  }

  /** A field update leaves the id set complete exactly when it hits an existing hash. */
  lemma TagSyncKeepsIndexes(t: GroupTables, chatID: int, enabled: bool, c: string)
    requires GroupsIndexed(t) && ByCreatorExact(t, c)
    ensures GroupsIndexed(SetTagSync(t, chatID, enabled)) <==> chatID in t.hashes
    ensures chatID in t.hashes ==> ByCreatorExact(SetTagSync(t, chatID, enabled), c)
  {
    assert chatID in SetTagSync(t, chatID, enabled).hashes.Keys;
  }

  // ----- Groups: reads -----

  predicate ListsGroups(l: seq<Group>, t: GroupTables) {
    && (forall g :: g in l ==> g.chatID in t.index && Get(t.hashes, g.chatID) == Some(g))
    && (forall id :: id in t.index && id in t.hashes ==> t.hashes[id] in l)
    && OncePerChat(l)
  }

  predicate OncePerChat(l: seq<Group>) {
    forall i, j :: 0 <= i < j < |l| ==> l[i].chatID != l[j].chatID
  }

  function FindChat(l: seq<Group>, chatID: int): Option<Group> {
    if l == [] then None else if l[0].chatID == chatID then Some(l[0]) else FindChat(l[1..], chatID)
  }

  function FilterCreator(l: seq<Group>, c: string): seq<Group> {
    if l == [] then []
    else FilterCreator(l[..|l| - 1], c) + if l[|l| - 1].creatorID == c then [l[|l| - 1]] else []
  }

  lemma {:induction false} FindChatIn(l: seq<Group>, chatID: int)
    ensures match FindChat(l, chatID) case Some(g) => g in l && g.chatID == chatID
                                      case None => forall g :: g in l ==> g.chatID != chatID
  {
    if l != [] {
      FindChatIn(l[1..], chatID);
      assert l == [l[0]] + l[1..];
    }
  }

  lemma {:induction false} FilterCreatorIn(l: seq<Group>, c: string, g: Group)
    ensures g in FilterCreator(l, c) <==> g in l && g.creatorID == c
  {
    if l != [] {
      FilterCreatorIn(l[..|l| - 1], c, g);
      assert l == l[..|l| - 1] + [l[|l| - 1]];
    }
  }

  lemma {:induction false} FilterCreatorOnce(l: seq<Group>, c: string)
    requires OncePerChat(l)
    ensures OncePerChat(FilterCreator(l, c))
  {
    if l != [] {
      var init := l[..|l| - 1];
      FilterCreatorOnce(init, c);
      forall i | 0 <= i < |FilterCreator(init, c)|
        ensures FilterCreator(init, c)[i].chatID != l[|l| - 1].chatID
      {
        FilterCreatorIn(init, c, FilterCreator(init, c)[i]);
        var k :| 0 <= k < |init| && init[k] == FilterCreator(init, c)[i];
        assert l[k] == init[k];
      }
    }
  }

  /** The cached list answers every chat lookup as the hash does. */
  lemma CachedChatLookup(t: GroupTables, l: seq<Group>, chatID: int)
    requires GroupsIndexed(t) && ListsGroups(l, t)
    ensures FindChat(l, chatID) == Get(t.hashes, chatID)
  {
    FindChatIn(l, chatID);
    if chatID in t.hashes { assert t.hashes[chatID] in l; }
  }

  /** The groups whose hashes are found for a set of ids. */
  function LoadedOf(hashes: map<int, Group>, ids: set<int>): set<Group> {
    set id | id in ids && id in hashes :: hashes[id]
  }

  lemma LoadedOneMore(hashes: map<int, Group>, ids: set<int>, id: int)
    ensures LoadedOf(hashes, ids + {id}) == LoadedOf(hashes, ids) + if id in hashes then {hashes[id]} else {}
  {
  }

  /** The groups the by-creator set leads to. */
  function LoadedByCreator(t: GroupTables, c: string): set<Group> {
    LoadedOf(t.hashes, SetAt(t.byCreator, c))
  }

  /** The cached filter and the by-creator set give the same groups exactly when that set holds, of
      the ids that have a hash, those naming the creator. */
  lemma CachedCreatorFilter(t: GroupTables, l: seq<Group>, c: string)
    requires GroupsIndexed(t) && ListsGroups(l, t)
    ensures (forall g :: g in FilterCreator(l, c) <==> g in LoadedByCreator(t, c)) <==>
            (forall id :: id in t.hashes ==> (id in SetAt(t.byCreator, c) <==> t.hashes[id].creatorID == c))
  {
    forall g ensures g in FilterCreator(l, c) <==> g in l && g.creatorID == c { FilterCreatorIn(l, c, g); }
    if forall g :: g in FilterCreator(l, c) <==> g in LoadedByCreator(t, c) {
      forall id | id in t.hashes ensures id in SetAt(t.byCreator, c) <==> t.hashes[id].creatorID == c {
        var g := t.hashes[id];
        assert g in l;
        assert g in FilterCreator(l, c) <==> g in LoadedByCreator(t, c);
        if id in SetAt(t.byCreator, c) { assert g in LoadedByCreator(t, c); }
      }
    } else {
      var g :| !(g in FilterCreator(l, c) <==> g in LoadedByCreator(t, c));
      assert g.chatID in t.hashes;
    }
  }

  // ----- Creators: operations, invariants and reads on values -----

  function UpsertCreatorSeeing(t: CreatorTables, c: Creator, seen: Option<Creator>): CreatorTables {
    var added := AddAt(t.byOwner, c.owner, c.id);
    CreatorTables(
      t.index + {c.id},
      t.hashes[c.id := if c.authStatus == "" then c.(authStatus := "healthy") else c],
      if seen.Some? && seen.value.owner != 0 && seen.value.owner != c.owner
      then DropAt(added, seen.value.owner, c.id) else added)
  }

  function UpsertCreator(t: CreatorTables, c: Creator): CreatorTables {
    UpsertCreatorSeeing(t, c, Get(t.hashes, c.id))
  }

  lemma UpsertCreatorFields(t: CreatorTables, c: Creator, id: string)
    ensures var after := UpsertCreator(t, c).hashes;
            if id != c.id then Get(after, id) == Get(t.hashes, id)
            else
              && id in after && after[id].id == c.id && after[id].owner == c.owner && after[id].login == c.login
              && after[id].authStatus == if c.authStatus == "" then "healthy" else c.authStatus
    ensures id in UpsertCreator(t, c).index <==> id == c.id || id in t.index
    ensures forall o :: id in SetAt(UpsertCreator(t, c).byOwner, o) <==>
              if id != c.id then id in SetAt(t.byOwner, o)
              else o == c.owner ||
                   (id in SetAt(t.byOwner, o) && !(id in t.hashes && t.hashes[id].owner == o && o != 0))
  {
  }

  function DeleteCreator(t: CreatorTables, id: string, owner: int): CreatorTables {
    CreatorTables(t.index - {id}, t.hashes - {id}, DropAt(t.byOwner, owner, id))
  }

  predicate CreatorsIndexed(t: CreatorTables) {
    t.index == t.hashes.Keys && forall id :: id in t.hashes ==> t.hashes[id].id == id
  }

  predicate ByOwnerExact(t: CreatorTables, o: int) {
    && (forall id :: id in SetAt(t.byOwner, o) ==> id in t.hashes && t.hashes[id].owner == o)
    && (forall id :: id in t.hashes && t.hashes[id].owner == o ==> id in SetAt(t.byOwner, o))
  }

  lemma UpsertCreatorKeepsIndexes(t: CreatorTables, c: Creator, o: int)
    requires CreatorsIndexed(t) && ByOwnerExact(t, o)
    ensures CreatorsIndexed(UpsertCreator(t, c))
    ensures ByOwnerExact(UpsertCreator(t, c), o) <==>
            !(o == 0 && c.owner != 0 && c.id in t.hashes && t.hashes[c.id].owner == 0)
  {
    var t' := UpsertCreator(t, c);
    assert t'.hashes[c.id].owner == c.owner;
    if o == 0 && c.owner != 0 && c.id in t.hashes && t.hashes[c.id].owner == 0 {
      assert c.id in SetAt(t'.byOwner, 0);
    }
  }

  /** As for groups: only the owner of a newer hash that was not seen keeps what is no longer theirs. */
  lemma StaleCreatorUpsertExact(t: CreatorTables, c: Creator, seen: Option<Creator>, o: int)
    requires CreatorsIndexed(t) && ByOwnerExact(t, o) && o != 0
    ensures ByOwnerExact(UpsertCreatorSeeing(t, c, seen), o) <==>
            !(&& c.id in t.hashes && t.hashes[c.id].owner == o && o != c.owner
              && !(seen.Some? && seen.value.owner == o))
  {
    var t' := UpsertCreatorSeeing(t, c, seen);
    assert t'.hashes[c.id].owner == c.owner;
    if c.id in t.hashes && t.hashes[c.id].owner == o && o != c.owner {
      assert c.id in SetAt(t.byOwner, o);
    }
  }

  lemma RacingCreatorUpsertsExact(t: CreatorTables, first: Creator, second: Creator)
    requires CreatorsIndexed(t) && (forall o :: o != 0 ==> ByOwnerExact(t, o)) && first.id == second.id
    ensures var end := UpsertCreatorSeeing(UpsertCreator(t, first), second, Get(t.hashes, first.id));
            (forall o :: o != 0 ==> ByOwnerExact(end, o)) <==>
            || first.owner == 0 || first.owner == second.owner
            || (first.id in t.hashes && t.hashes[first.id].owner == first.owner)
  {
    var seen, mid := Get(t.hashes, first.id), UpsertCreator(t, first);
    assert mid.hashes[first.id].owner == first.owner;
    forall o | o != 0
      ensures ByOwnerExact(UpsertCreatorSeeing(mid, second, seen), o) <==>
              !(first.owner == o && o != second.owner && !(seen.Some? && seen.value.owner == o))
    {
      UpsertCreatorKeepsIndexes(t, first, o);
      StaleCreatorUpsertExact(mid, second, seen, o);
    }
    hide ByOwnerExact, UpsertCreatorSeeing, UpsertCreator;
    var end, o := UpsertCreatorSeeing(mid, second, seen), first.owner;
    assert o != 0 ==> (ByOwnerExact(end, o) <==> o == second.owner || (seen.Some? && seen.value.owner == o));
  }

  lemma DeleteCreatorKeepsIndexes(t: CreatorTables, id: string, owner: int, o: int)
    requires CreatorsIndexed(t) && ByOwnerExact(t, o) && id in t.hashes && t.hashes[id].owner == owner
    ensures CreatorsIndexed(DeleteCreator(t, id, owner)) && ByOwnerExact(DeleteCreator(t, id, owner), o)
    ensures forall x :: Get(DeleteCreator(t, id, owner).hashes, x) == if x == id then None else Get(t.hashes, x)
    ensures forall x :: x in SetAt(DeleteCreator(t, id, owner).byOwner, o) <==> x != id && x in SetAt(t.byOwner, o)
  {
  }

  predicate ListsCreators(l: seq<Creator>, t: CreatorTables) {
    && AscendingIds(l)
    && (forall c :: c in l ==> c.id in t.index && Get(t.hashes, c.id) == Some(c))
    && (forall id :: id in t.index && id in t.hashes ==> t.hashes[id] in l)
  }

  /** Creators for the ids, in the order of the ids, missing and filtered-out ones skipped. */
  function LoadCreators(hashes: map<string, Creator>, ids: seq<string>, keep: Creator -> bool): seq<Creator> {
    if ids == [] then []
    else
      var before := LoadCreators(hashes, ids[..|ids| - 1], keep);
      var id := ids[|ids| - 1];
      if id in hashes && keep(hashes[id]) then before + [hashes[id]] else before
  }

  predicate KeptAt(hashes: map<string, Creator>, ids: seq<string>, keep: Creator -> bool, i: int) {
    0 <= i < |ids| && ids[i] in hashes && keep(hashes[ids[i]])
  }

  /** The places of the ids that are kept, ascending, and the creators at them in that order. */
  ghost predicate KeptPlaces(hashes: map<string, Creator>, ids: seq<string>, keep: Creator -> bool,
                             ks: seq<nat>, l: seq<Creator>) {
    && (forall a :: 0 <= a < |ks| ==> KeptAt(hashes, ids, keep, ks[a]))
    && (forall a, b :: 0 <= a < b < |ks| ==> ks[a] < ks[b])
    && (forall i: nat :: KeptAt(hashes, ids, keep, i) ==> i in ks)
    && |l| == |ks| && forall j :: 0 <= j < |ks| ==> l[j] == hashes[ids[ks[j]]]
  }

  lemma {:induction false} LoadedAre(hashes: map<string, Creator>, ids: seq<string>, keep: Creator -> bool)
    returns (ks: seq<nat>)
    ensures KeptPlaces(hashes, ids, keep, ks, LoadCreators(hashes, ids, keep))
  {
    ks := [];
    if ids != [] {
      var init := ids[..|ids| - 1];
      var l := LoadCreators(hashes, init, keep);
      ks := LoadedAre(hashes, init, keep);
      KeptInit(hashes, ids, keep);
      KeptStays(hashes, ids, keep, ks, l);
      if KeptAt(hashes, ids, keep, |ids| - 1) {
        ks := ks + [|ids| - 1];
      }
    }
  }

  lemma KeptInit(hashes: map<string, Creator>, ids: seq<string>, keep: Creator -> bool)
    requires ids != []
    ensures forall i :: KeptAt(hashes, ids[..|ids| - 1], keep, i) <==> KeptAt(hashes, ids, keep, i) && i < |ids| - 1
    ensures forall i :: 0 <= i < |ids| - 1 ==> ids[..|ids| - 1][i] == ids[i]
  {
    forall i
      ensures KeptAt(hashes, ids[..|ids| - 1], keep, i) <==> KeptAt(hashes, ids, keep, i) && i < |ids| - 1
    {
      if 0 <= i < |ids| - 1 { assert ids[..|ids| - 1][i] == ids[i]; }
    }
  }

  /** One id more and nothing else: its place is the last one. */
  lemma KeptStays(hashes: map<string, Creator>, ids: seq<string>, keep: Creator -> bool, ks: seq<nat>, l: seq<Creator>)
    requires ids != [] && KeptPlaces(hashes, ids[..|ids| - 1], keep, ks, l)
    ensures var last := |ids| - 1;
            if KeptAt(hashes, ids, keep, last) then KeptPlaces(hashes, ids, keep, ks + [last], l + [hashes[ids[last]]])
            else KeptPlaces(hashes, ids, keep, ks, l)
  {
    KeptInit(hashes, ids, keep);
    var last := |ids| - 1;
    assert forall a :: 0 <= a < |ks| ==> KeptAt(hashes, ids, keep, ks[a]) && ks[a] < last;
    hide KeptAt;
  }

  function WithoutCreator(hashes: map<int, Group>, creator: string, id: int): Option<Group> {
    if id in hashes && hashes[id].creatorID == creator then None else Get(hashes, id)
  }

  predicate Chats(l: seq<Group>, id: int) {
    exists g :: g in l && g.chatID == id
  }

  // ----- The adapter -----

  class Adapter {
    var groups: GroupTables
    var creators: CreatorTables
    const groupCache: ListCache<Group>
    const creatorCache: ListCache<Creator>

    /** Both caches serve nothing but what the tables hold, and the id sets are complete. */
    ghost predicate Valid()
      reads this, groupCache, creatorCache
    {
      && groupCache as object != this && creatorCache as object != this &&
          groupCache as object != creatorCache as object
      && GroupsIndexed(groups) && CreatorsIndexed(creators)
      && (forall c :: c != "" ==> ByCreatorExact(groups, c))
      && (forall o :: o != 0 ==> ByOwnerExact(creators, o))
      && (forall t :: groupCache.Served(t).Some? ==> ListsGroups(groupCache.Served(t).value, groups))
      && (forall t :: creatorCache.Served(t).Some? ==> ListsCreators(creatorCache.Served(t).value, creators))
    }

    constructor ()
      ensures Valid() && groups == GroupTables({}, map[], map[]) && creators == CreatorTables({}, map[], map[])
    {
      groups := GroupTables({}, map[], map[]);
      creators := CreatorTables({}, map[], map[]);
      groupCache := new ListCache();
      creatorCache := new ListCache();
    }

    method ManagedGroupByChatID(now: int, chatID: int) returns (g: Option<Group>)
      requires Valid()
      ensures g == Get(groups.hashes, chatID)
    {
      var cached, _, ok := groupCache.Cached(now);
      if ok {
        CachedChatLookup(groups, cached, chatID);
        for i := 0 to |cached|
          invariant FindChat(cached, chatID) == FindChat(cached[i..], chatID)
        {
          if cached[i].chatID == chatID { return Some(cached[i]); }
        }
        return None;
      }
      if chatID in groups.hashes { return Some(groups.hashes[chatID]); }
      return None;
    }

    /** Hashes for the ids of a set, in any order; missing ones are skipped. */
    method LoadManagedGroups(ids: set<int>) returns (l: seq<Group>)
      ensures forall g :: g in l <==> g in LoadedOf(groups.hashes, ids)
      ensures GroupsIndexed(groups) ==> OncePerChat(l)
    {
      l := [];
      var left := ids;
      while left != {}
        invariant left <= ids
        invariant forall g :: g in l <==> g in LoadedOf(groups.hashes, ids - left)
        invariant GroupsIndexed(groups) ==> OncePerChat(l) && forall g :: g in l ==> g.chatID in ids - left
      {
        SomeInt(left);
        var id :| id in left;
        LoadedOneMore(groups.hashes, ids - left, id);
        assert ids - left + {id} == ids - (left - {id});
        left := left - {id};
        if id in groups.hashes {
          l := l + [groups.hashes[id]];
        }
      }
      assert ids - left == ids;
    }

    method ListManagedGroups(now: int) returns (l: seq<Group>)
      requires Valid()
      modifies groupCache
      ensures Valid() && ListsGroups(l, groups) && groupCache.gen == old(groupCache.gen)
      ensures forall g :: g in l <==> Get(groups.hashes, g.chatID) == Some(g)
      ensures forall i, j :: 0 <= i < j < |l| ==> l[i].chatID != l[j].chatID
    {
      var cached, gen, ok := groupCache.Cached(now);
      if ok { return cached; }
      l := LoadManagedGroups(groups.index);
      groupCache.Store(gen, l, now);
      assert groupCache.Served(now) == Some(l);
      ServesOnly(now, l);
    }

    twostate lemma ServesOnly(now: int, new l: seq<Group>)
      requires old(Valid()) && unchanged(this) && unchanged(creatorCache) && ListsGroups(l, groups)
      requires groupCache.isSet && groupCache.list == l
      ensures Valid()
    {
    }

    /** For a real creator id the two forms give the same groups; for an empty one each gives its own. */
    method ListManagedGroupsByCreator(now: int, creatorID: string) returns (l: seq<Group>)
      requires Valid()
      ensures groupCache.Served(now).Some? ==> forall g :: g in l <==>
                Get(groups.hashes, g.chatID) == Some(g) && g.creatorID == creatorID
      ensures groupCache.Served(now).None? ==> forall g :: g in l <==> g in LoadedByCreator(groups, creatorID)
      ensures creatorID != "" ==> forall g :: g in l <==> g in LoadedByCreator(groups, creatorID)
      ensures forall i, j :: 0 <= i < j < |l| ==> l[i].chatID != l[j].chatID
      ensures creatorID != "" ==> forall g :: g in l <==>
                Get(groups.hashes, g.chatID) == Some(g) && g.creatorID == creatorID
    {
      var cached, _, ok := groupCache.Cached(now);
      if ok {
        var out: seq<Group> := [];
        for i := 0 to |cached|
          invariant out == FilterCreator(cached[..i], creatorID)
        {
          assert cached[..i + 1][..i] == cached[..i];
          if cached[i].creatorID == creatorID { out := out + [cached[i]]; }
        }
        assert cached[..|cached|] == cached;
        CachedCreatorFilter(groups, cached, creatorID);
        forall g { FilterCreatorIn(cached, creatorID, g); }
        FilterCreatorOnce(cached, creatorID);
        l := out;
      } else {
        l := LoadManagedGroups(SetAt(groups.byCreator, creatorID));
      }
      assert creatorID != "" ==> ByCreatorExact(groups, creatorID);
    }

    method UpsertManagedGroup(now: int, g: Group)
      requires Valid()
      modifies this`groups, groupCache
      ensures Valid() && groups == Upsert(old(groups), g)
    {
      var existing := ManagedGroupByChatID(now, g.chatID);
      var g' := if g.policy == "" then g.(policy := "observe") else g;
      if g'.threadID <= 0 { g' := g'.(threadID := if existing.Some? then existing.value.threadID else 0); }
      var byCreator := AddAt(groups.byCreator, g.creatorID, g.chatID);
      if existing.Some? && existing.value.creatorID != "" && existing.value.creatorID != g.creatorID {
        byCreator := DropAt(byCreator, existing.value.creatorID, g.chatID);
      }
      groups := GroupTables(groups.index + {g.chatID}, groups.hashes[g.chatID := g'], byCreator);
      // The hook sees the group hash and the groups set.
      groupCache.Invalidate();
      groupCache.Invalidate();
      forall c | c != "" ensures ByCreatorExact(groups, c) { UpsertKeepsIndexes(old(groups), g, c); }
    }

    method UpdateManagedGroupMemberTagSyncEnabled(chatID: int, enabled: bool)
      requires Valid() && chatID in groups.hashes
      modifies this`groups, groupCache
      ensures Valid() && groups == SetTagSync(old(groups), chatID, enabled)
    {
      groups := groups.(hashes := groups.hashes[chatID := groups.hashes[chatID].(tagSync := enabled)]);
      groupCache.Invalidate();
      forall c | c != "" ensures ByCreatorExact(groups, c) { TagSyncKeepsIndexes(old(groups), chatID, enabled, c); }
    }

    method DeleteManagedGroup(now: int, chatID: int)
      requires Valid()
      modifies this`groups, groupCache
      ensures Valid() && groups == Remove(old(groups), chatID)
    {
      var g := ManagedGroupByChatID(now, chatID);
      if g == None { return; }
      groups := GroupTables(groups.index - {chatID}, groups.hashes - {chatID},
          DropAt(groups.byCreator, g.value.creatorID, chatID));
      groupCache.Invalidate();
      groupCache.Invalidate();
      forall c | c != "" ensures ByCreatorExact(groups, c) { RemoveKeepsIndexes(old(groups), chatID, c); }
    }

    // ----- Creators -----

    static method IndexByID(l: seq<Creator>, ghost hashes: map<string, Creator>) returns (byID: map<string, Creator>)
      requires forall c :: c in l ==> Get(hashes, c.id) == Some(c)
      requires forall id :: id in hashes ==> hashes[id].id == id && hashes[id] in l
      ensures byID == hashes
    {
      byID := map[];
      for i := 0 to |l|
        invariant forall id :: id in byID ==> id in hashes && byID[id] == hashes[id]
        invariant forall j :: 0 <= j < i ==> l[j].id in byID
      {
        assert l[i] in l;
        byID := byID[l[i].id := l[i]];
      }
      forall id | id in hashes
        ensures id in byID
      {
        var j :| 0 <= j < |l| && l[j] == hashes[id];
      }
    }

    method LoadCreatorsByIDs(now: int, ids: seq<string>, keep: Creator -> bool) returns (out: seq<Creator>)
      requires Valid()
      ensures out == LoadCreators(creators.hashes, ids, keep)
      ensures exists ks :: KeptPlaces(creators.hashes, ids, keep, ks, out)
    {
      ghost var ks := LoadedAre(creators.hashes, ids, keep);
      hide KeptPlaces;
      if ids == [] { return []; }
      var cached, _, ok := creatorCache.Cached(now);
      out := [];
      if ok {
        var byID := IndexByID(cached, creators.hashes);
        for i := 0 to |ids|
          invariant out == LoadCreators(byID, ids[..i], keep)
        {
          assert ids[..i + 1][..i] == ids[..i];
          if ids[i] in byID && keep(byID[ids[i]]) { out := out + [byID[ids[i]]]; }
        }
        assert ids[..|ids|] == ids;
      } else {
        out := LoadUncached(ids, keep);
      }
    }

    method LoadUncached(ids: seq<string>, keep: Creator -> bool) returns (out: seq<Creator>)
      ensures out == LoadCreators(creators.hashes, ids, keep)
    {
      out := [];
      for i := 0 to |ids|
        invariant out == LoadCreators(creators.hashes, ids[..i], keep)
      {
        assert ids[..i + 1][..i] == ids[..i];
        if ids[i] in creators.hashes && keep(creators.hashes[ids[i]]) { out := out + [creators.hashes[ids[i]]]; }
      }
      assert ids[..|ids|] == ids;
    }

    /** Every creator, in ascending order of the ids; a list loaded here is what the cache then serves. */
    method ListCreators(now: int) returns (l: seq<Creator>)
      requires Valid()
      modifies creatorCache
      ensures Valid() && creatorCache.gen == old(creatorCache.gen)
      ensures forall c :: c in l <==> Get(creators.hashes, c.id) == Some(c)
      ensures forall i, j :: 0 <= i < j < |l| ==> LexLess(l[i].id, l[j].id)
      ensures creatorCache.Served(now) == Some(l)
    {
      hide LexLess;
      var cached, gen, ok := creatorCache.Cached(now);
      if ok { return cached; }
      var ids := Sorted(creators.index);
      l := LoadUncached(ids, c => true);
      LoadedAll(creators.hashes, ids);
      LoadedAscend(creators.hashes, ids, c => true);
      assert forall id :: id in ids <==> id in Elements(ids);
      creatorCache.Store(gen, l, now);
      assert creatorCache.Served(now) == Some(l);
      ServesCreators(now, l);
    }

    twostate lemma ServesCreators(now: int, new l: seq<Creator>)
      requires old(Valid()) && unchanged(this) && unchanged(groupCache) && ListsCreators(l, creators)
      requires creatorCache.isSet && creatorCache.list == l
      ensures Valid()
    {
    }

    method GetCreator(now: int, id: string) returns (c: Option<Creator>)
      requires Valid()
      ensures c == Get(creators.hashes, id)
    {
      var cached, _, ok := creatorCache.Cached(now);
      if ok {
        assert id in creators.hashes ==> creators.hashes[id] in cached;
        for i := 0 to |cached|
          invariant forall j :: 0 <= j < i ==> cached[j].id != id
        {
          assert cached[i] in cached;
          if cached[i].id == id { return Some(cached[i]); }
        }
        return None;
      }
      if id in creators.hashes { return Some(creators.hashes[id]); }
      return None;
    }

    method StoreCreator(now: int, c: Creator)
      requires Valid()
      modifies this`creators, creatorCache
      ensures Valid() && creators == UpsertCreator(old(creators), c)
    {
      var existing := GetCreator(now, c.id);
      var c' := if c.authStatus == "" then c.(authStatus := "healthy") else c;
      var byOwner := AddAt(creators.byOwner, c.owner, c.id);
      if existing.Some? && existing.value.owner != 0 && existing.value.owner != c.owner {
        byOwner := DropAt(byOwner, existing.value.owner, c.id);
      }
      creators := CreatorTables(creators.index + {c.id}, creators.hashes[c.id := c'], byOwner);
      creatorCache.Invalidate();
      creatorCache.Invalidate();
      forall o | o != 0 ensures ByOwnerExact(creators, o) { UpsertCreatorKeepsIndexes(old(creators), c, o); }
      assert CreatorsIndexed(creators);
    }

    /** The first, in the order of the ids, whose hash still names the owner. */
    method OwnedCreatorForUser(now: int, owner: int) returns (c: Option<Creator>)
      requires Valid()
      ensures c.Some? ==> Get(creators.hashes, c.value.id) == c && c.value.owner == owner
      ensures owner != 0 ==> forall id :: id in creators.hashes && creators.hashes[id].owner == owner ==>
                                            c.Some? && (id == c.value.id || LexLess(c.value.id, id))
    {
      var ids := Sorted(SetAt(creators.byOwner, owner));
      assert owner != 0 ==> ByOwnerExact(creators, owner);
      assert owner != 0 ==> forall id :: id in creators.hashes && creators.hashes[id].owner == owner ==>
          id in Elements(ids);
      for i := 0 to |ids|
        invariant forall j :: 0 <= j < i && ids[j] in creators.hashes ==> creators.hashes[ids[j]].owner != owner
      {
        c := GetCreator(now, ids[i]);
        if c.Some? && c.value.owner == owner { return; }
      }
      return None;
    }

    /** The creator goes first, then every group that names it; no other group is touched. */
    method DeleteCreatorData(now: int, owner: int) returns (gone: Option<Creator>)
      requires Valid()
      modifies this`creators, this`groups, groupCache, creatorCache
      ensures Valid()
      ensures gone == None ==> creators == old(creators) && groups == old(groups)
      ensures owner != 0 && gone == None ==> forall id :: id in creators.hashes ==> creators.hashes[id].owner != owner
      ensures gone.Some? ==>
                Get(old(creators.hashes), gone.value.id) == gone &&
                creators == DeleteCreator(old(creators), gone.value.id, owner)
      ensures gone.Some? && gone.value.id != "" ==>
                forall id :: Get(groups.hashes, id) == WithoutCreator(old(groups.hashes), gone.value.id, id)
    {
      gone := OwnedCreatorForUser(now, owner);
      if gone == None { return; }
      var c := gone.value.id;
      creators := DeleteCreator(creators, c, owner);
      creatorCache.Invalidate();
      creatorCache.Invalidate();
      forall o | o != 0 ensures ByOwnerExact(creators, o) { DeleteCreatorKeepsIndexes(old(creators), c, owner, o); }
      var named := ListManagedGroupsByCreator(now, c);
      DeleteGroups(now, named);
    }

    method DeleteGroups(now: int, l: seq<Group>)
      requires Valid()
      modifies this`groups, groupCache
      ensures Valid()
      ensures forall id :: Get(groups.hashes, id) == if Chats(l, id) then None else Get(old(groups.hashes), id)
    {
      for i := 0 to |l|
        invariant Valid()
        invariant forall id :: Get(groups.hashes, id) == if Chats(l[..i], id) then None else Get(old(groups.hashes), id)
      {
        assert l[..i + 1] == l[..i] + [l[i]];
        ghost var before := groups.hashes;
        DeleteManagedGroup(now, l[i].chatID);
        assert forall id :: Get(groups.hashes, id) == if id == l[i].chatID then None else Get(before, id);
      }
      assert l[..|l|] == l;
    }

    /** Active creators paired with their groups: each managed group appears with its creator if that exists. */
    method ListActiveCreatorGroups(now: int) returns (out: seq<(Creator, seq<Group>)>)
      requires Valid()
      modifies groupCache
      ensures Valid()
      ensures forall i, j :: 0 <= i < j < |out| ==> LexLess(out[i].0.id, out[j].0.id)
      ensures forall p :: p in out ==> Get(creators.hashes, p.0.id) == Some(p.0) && p.1 != []
      ensures forall p :: p in out ==> forall g :: g in p.1 <==>
                Get(groups.hashes, g.chatID) == Some(g) && g.creatorID == p.0.id
      ensures forall p :: p in out ==> OncePerChat(p.1)
      ensures forall id :: id in groups.hashes && groups.hashes[id].creatorID in creators.hashes ==>
                exists p :: p in out && p.0.id == groups.hashes[id].creatorID && groups.hashes[id] in p.1
    {
      hide FilterCreator, OncePerChat, LexLess, LoadCreators;
      var all := ListManagedGroups(now);
      var unsorted, grouped := GroupByCreator(all);
      var ids := Sorted(Elements(unsorted));
      SameElements(ids, unsorted);
      var found := LoadCreatorsByIDs(now, ids, c => true);
      LoadedAll(creators.hashes, ids);
      LoadedAscend(creators.hashes, ids, c => true);
      out := [];
      for i := 0 to |found|
        invariant |out| == i && forall j :: 0 <= j < i ==> out[j] == (found[j], FilterCreator(all, found[j].id))
      {
        assert found[i] in found;
        out := out + [(found[i], grouped[found[i].id])];
      }
      PairsAreExact(groups.hashes, creators.hashes, all, ids, found, out);
      PairsOnce(all, found, out);
    }
  }

  lemma SameElements<T>(a: seq<T>, b: seq<T>)
    requires Elements(a) == Elements(b)
    ensures forall x :: x in a <==> x in b
  {
    assert forall x :: (x in a <==> x in Elements(a)) && (x in b <==> x in Elements(b));
  }

  predicate AscendingIds(l: seq<Creator>) {
    forall i, j :: 0 <= i < j < |l| ==> LexLess(l[i].id, l[j].id)
  }

  lemma LaterId(l: seq<Creator>, c: Creator)
    requires AscendingIds(l) && forall i :: 0 <= i < |l| ==> LexLess(l[i].id, c.id)
    ensures AscendingIds(l + [c])
  {
    hide LexLess;
  }

  /** The list keeps the order of the ids, each once. */
  lemma {:induction false} LoadedAscend(hashes: map<string, Creator>, ids: seq<string>, keep: Creator -> bool)
    requires Ascending(ids) && forall id :: id in hashes ==> hashes[id].id == id
    ensures AscendingIds(LoadCreators(hashes, ids, keep))
    ensures forall c :: c in LoadCreators(hashes, ids, keep) ==> c.id in ids
  {
    hide LexLess, AscendingIds;
    if ids == [] {
      NoIds();
    } else {
      var before, last := ids[..|ids| - 1], ids[|ids| - 1];
      LoadedAscend(hashes, before, keep);
      var l := LoadCreators(hashes, before, keep);
      forall i | 0 <= i < |l|
        ensures LexLess(l[i].id, last)
      {
        assert l[i] in l;
        var k :| 0 <= k < |before| && before[k] == l[i].id;
        assert ids[k] == l[i].id;
      }
      assert forall id :: id in before ==> id in ids;
      if last in hashes { LaterId(l, hashes[last]); }
    }
  }

  lemma NoIds()
    ensures AscendingIds([])
  {
  }

  lemma PairsAreExact(gs: map<int, Group>, cs: map<string, Creator>, all: seq<Group>, ids: seq<string>,
      found: seq<Creator>, out: seq<(Creator, seq<Group>)>)
    requires forall g :: g in all <==> Get(gs, g.chatID) == Some(g)
    requires forall id :: id in gs ==> gs[id].chatID == id
    requires forall c :: c in ids <==> exists g :: g in all && g.creatorID == c
    requires forall c :: c in found <==> c.id in ids && Get(cs, c.id) == Some(c)
    requires forall id :: id in cs ==> cs[id].id == id
    requires |out| == |found| && forall j :: 0 <= j < |out| ==> out[j] == (found[j], FilterCreator(all, found[j].id))
    ensures forall p :: p in out ==> Get(cs, p.0.id) == Some(p.0) && p.1 != []
    ensures forall p :: p in out ==> forall g :: g in p.1 <==> Get(gs, g.chatID) == Some(g) && g.creatorID == p.0.id
    ensures forall id :: id in gs && gs[id].creatorID in cs ==>
              exists p :: p in out && p.0.id == gs[id].creatorID && gs[id] in p.1
  {
    forall g, c
      ensures g in FilterCreator(all, c) <==> g in all && g.creatorID == c
    {
      FilterCreatorIn(all, c, g);
    }
    hide FilterCreator;
    forall p | p in out
      ensures Get(cs, p.0.id) == Some(p.0) && p.1 != [] && p.1 == FilterCreator(all, p.0.id)
    {
      var j :| 0 <= j < |out| && out[j] == p;
      assert found[j] in found;
      var g :| g in all && g.creatorID == p.0.id;
      assert g in p.1;
    }
    forall id | id in gs && gs[id].creatorID in cs
      ensures exists p :: p in out && p.0.id == gs[id].creatorID && gs[id] in p.1
    {
      var g := gs[id];
      assert g in all && cs[g.creatorID] in found;
      var j :| 0 <= j < |found| && found[j] == cs[g.creatorID];
      assert out[j] in out && out[j].0.id == g.creatorID && g in out[j].1;
    }
  }

  lemma PairsOnce(all: seq<Group>, found: seq<Creator>, out: seq<(Creator, seq<Group>)>)
    requires OncePerChat(all) && |out| == |found|
    requires forall j :: 0 <= j < |out| ==> out[j] == (found[j], FilterCreator(all, found[j].id))
    ensures forall p :: p in out ==> OncePerChat(p.1)
  {
    forall p | p in out
      ensures OncePerChat(p.1)
    {
      FilterCreatorOnce(all, p.0.id);
    }
  }

  lemma FilterCreatorGrows(all: seq<Group>, i: nat, c: string)
    requires i < |all|
    ensures FilterCreator(all[..i + 1], c) == FilterCreator(all[..i], c) + if all[i].creatorID == c then [all[i]]
              else []
  {
    assert all[..i + 1][..i] == all[..i];
  }

  lemma FilterCreatorSome(all: seq<Group>, c: string)
    ensures FilterCreator(all, c) != [] <==> exists g :: g in all && g.creatorID == c
  {
    forall g
      ensures g in FilterCreator(all, c) <==> g in all && g.creatorID == c
    {
      FilterCreatorIn(all, c, g);
    }
    if FilterCreator(all, c) != [] {
      assert FilterCreator(all, c)[0] in FilterCreator(all, c);
    }
  }

  method GroupByCreator(all: seq<Group>) returns (ids: seq<string>, grouped: map<string, seq<Group>>)
    ensures forall c :: c in grouped <==> c in ids
    ensures forall c :: c in ids <==> exists g :: g in all && g.creatorID == c
    ensures forall c :: c in grouped ==> grouped[c] == FilterCreator(all, c)
  {
    hide FilterCreator;
    ids, grouped := [], map[];
    NoneFiltered(all[..0]);
    for i := 0 to |all|
      invariant forall c :: c in grouped <==> c in ids
      invariant forall c :: FilterCreator(all[..i], c) == if c in grouped then grouped[c] else []
      invariant forall c :: c in grouped ==> grouped[c] != []
    {
      var g := all[i];
      if g.creatorID !in grouped { ids := ids + [g.creatorID]; }
      ghost var was := grouped;
      grouped := grouped[g.creatorID := (if g.creatorID in grouped then grouped[g.creatorID] else []) + [g]];
      forall c
        ensures FilterCreator(all[..i + 1], c) == if c in grouped then grouped[c] else []
      {
        FilterCreatorGrows(all, i, c);
        assert c != g.creatorID ==> FilterCreator(all[..i], c) + [] == FilterCreator(all[..i], c);
      }
    }
    assert all[..|all|] == all;
    forall c
      ensures c in ids <==> exists g :: g in all && g.creatorID == c
    {
      FilterCreatorSome(all, c);
    }
  }

  lemma NoneFiltered(all: seq<Group>)
    ensures all == [] ==> forall c :: FilterCreator(all, c) == []
  {
  }

  lemma {:induction false} LoadedAll(hashes: map<string, Creator>, ids: seq<string>)
    requires forall id :: id in hashes ==> hashes[id].id == id
    ensures forall c :: c in LoadCreators(hashes, ids, x => true) <==>
              c.id in ids && c.id in hashes && hashes[c.id] == c
  {
    if ids != [] {
      LoadedAll(hashes, ids[..|ids| - 1]);
      assert ids == ids[..|ids| - 1] + [ids[|ids| - 1]];
    }
  }
}
