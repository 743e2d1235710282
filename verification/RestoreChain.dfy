/**
 The admin tool's choice of backup objects to load: the base of the selected incremental, every
 incremental of that base up to the selected one, and the selected object, by upload time.
 */
module RestoreChain {
  import opened RedisCommands
  import opened BackupProtocol
  import opened TextOrder

  datatype ObjectInfo = ObjectInfo(key: string, lastModified: int)

  /** What reading the first record of an object shows. */
  datatype Inspection = Unreadable | NotABackup | FullBackup | Incremental(base: string)

  datatype ChainError = DownloadFailed | InspectFailed | BaseMissing | ListFailed

  datatype Result<T> = Ok(value: T) | Err(error: ChainError)

  // ----- Ordering -----

  predicate Before(a: ObjectInfo, b: ObjectInfo) {
    a.lastModified < b.lastModified || (a.lastModified == b.lastModified && LexLess(a.key, b.key))
  }

  lemma BeforeOrder(a: ObjectInfo, b: ObjectInfo, c: ObjectInfo)
    ensures a == b || Before(a, b) || Before(b, a)
    ensures !(Before(a, b) && Before(b, a)) && !Before(a, a)
    ensures Before(a, b) && Before(b, c) ==> Before(a, c)
  {
    LexTotal(a.key, b.key);
    LexTotal(a.key, a.key);
    if LexLess(a.key, b.key) && LexLess(b.key, c.key) { LexTransitive(a.key, b.key, c.key); }
  }

  // ----- Sorting and dropping adjacent repeats -----

  function Insert(o: ObjectInfo, s: seq<ObjectInfo>): seq<ObjectInfo> {
    if s != [] && Before(s[0], o) then [s[0]] + Insert(o, s[1..]) else [o] + s
  }

  function Sort(s: seq<ObjectInfo>): seq<ObjectInfo> {
    if s == [] then [] else Insert(s[0], Sort(s[1..]))
  }

  ghost predicate Ordered(s: seq<ObjectInfo>) {
    forall i, j :: 0 <= i < j < |s| ==> !Before(s[j], s[i])
  }

  lemma {:induction false} InsertOrdered(o: ObjectInfo, s: seq<ObjectInfo>)
    requires Ordered(s)
    ensures Ordered(Insert(o, s)) && multiset(Insert(o, s)) == multiset{o} + multiset(s)
  {
    hide Before;
    if s != [] && Before(s[0], o) {
      InsertOrdered(o, s[1..]);
      var rest := Insert(o, s[1..]);
      assert s == [s[0]] + s[1..];
      forall j | 0 <= j < |rest| ensures !Before(rest[j], s[0]) {
        assert rest[j] in multiset(rest);
        BeforeOrder(s[0], o, s[0]);
        if rest[j] != o { assert rest[j] in s[1..]; }
      }
    } else if s != [] {
      forall j | 0 <= j < |s| ensures !Before(s[j], o) {
        BeforeOrder(s[j], o, s[0]);
        BeforeOrder(o, s[0], s[0]);
        BeforeOrder(s[j], s[0], s[0]);
      }
    }
  }

  lemma {:induction false} SortOrdered(s: seq<ObjectInfo>)
    ensures Ordered(Sort(s)) && multiset(Sort(s)) == multiset(s)
  {
    if s != [] {
      SortOrdered(s[1..]);
      InsertOrdered(s[0], Sort(s[1..]));
      assert s == [s[0]] + s[1..];
    }
  }

  /** The keys in order, a key equal to the one just written skipped. */
  function CompactKeys(s: seq<ObjectInfo>): seq<string> {
    if s == [] then []
    else
      var r := CompactKeys(s[..|s| - 1]);
      var key := s[|s| - 1].key;
      if r != [] && r[|r| - 1] == key then r else r + [key]
  }

  // ----- Resolving the chain -----

  /** An object passes the name and time filter and so gets its manifest read. */
  predicate Considered(o: ObjectInfo, base: ObjectInfo, selected: ObjectInfo) {
    && o.key != base.key && o.key != selected.key && Contains(o.key, "/incremental/")
    && o.lastModified > base.lastModified && o.lastModified <= selected.lastModified
  }

  predicate Member(contents: map<string, Inspection>, o: ObjectInfo, base: ObjectInfo, selected: ObjectInfo) {
    Considered(o, base, selected) && o.key in contents && contents[o.key] == Incremental(base.key)
  }

  predicate Readable(contents: map<string, Inspection>, o: ObjectInfo) {
    o.key in contents && contents[o.key] != Unreadable
  }

  function MembersOf(contents: map<string, Inspection>, listing: seq<ObjectInfo>, base: ObjectInfo,
      selected: ObjectInfo): seq<ObjectInfo> {
    if listing == [] then []
    else
      var o := listing[|listing| - 1];
      MembersOf(contents, listing[..|listing| - 1], base, selected) +
      if Member(contents, o, base, selected) then [o] else []
  }

  /** The map the tool fills from the listing: a later object of the same key replaces an earlier one. */
  function Find(listing: seq<ObjectInfo>, key: string): Option<ObjectInfo> {
    if listing == [] then None
    else if listing[|listing| - 1].key == key then Some(listing[|listing| - 1])
    else Find(listing[..|listing| - 1], key)
  }

  /** An object missing from the listing has the zero time. */
  function SelectedInfo(listing: seq<ObjectInfo>, key: string): ObjectInfo {
    match Find(listing, key) case Some(o) => o case None => ObjectInfo(key, 0)
  }

  function ChainInfos(contents: map<string, Inspection>, listing: seq<ObjectInfo>, base: ObjectInfo,
      selected: ObjectInfo): seq<ObjectInfo> {
    [base] + MembersOf(contents, listing, base, selected) + [selected]
  }

  // ----- The sorted chain -----

  ghost predicate DistinctKeys(s: seq<ObjectInfo>) {
    forall i, j :: 0 <= i < j < |s| ==> s[i].key != s[j].key
  }

  ghost predicate Strict(s: seq<ObjectInfo>) {
    forall i, j :: 0 <= i < j < |s| ==> Before(s[i], s[j])
  }

  function Keys(s: seq<ObjectInfo>): (r: seq<string>)
    ensures |r| == |s| && forall i :: 0 <= i < |s| ==> r[i] == s[i].key
  {
    seq(|s|, i requires 0 <= i < |s| => s[i].key)
  }

  lemma {:induction false} InsertDistinct(o: ObjectInfo, s: seq<ObjectInfo>)
    requires DistinctKeys(s) && forall x :: x in s ==> x.key != o.key
    ensures DistinctKeys(Insert(o, s)) && forall x :: x in Insert(o, s) <==> x == o || x in s
  {
    if s != [] && Before(s[0], o) {
      InsertDistinct(o, s[1..]);
      var rest := Insert(o, s[1..]);
      assert s == [s[0]] + s[1..];
      forall x | x in s[1..]
        ensures x.key != s[0].key
      {
        var k :| 0 <= k < |s[1..]| && s[1..][k] == x;
        assert s[k + 1] == x;
      }
      forall j | 0 <= j < |rest|
        ensures rest[j].key != s[0].key
      {
        assert rest[j] in rest;
      }
    }
  }

  lemma {:induction false} SortDistinct(s: seq<ObjectInfo>)
    requires DistinctKeys(s)
    ensures DistinctKeys(Sort(s)) && forall x :: x in Sort(s) <==> x in s
  {
    if s != [] {
      SortDistinct(s[1..]);
      assert s == [s[0]] + s[1..];
      InsertDistinct(s[0], Sort(s[1..]));
    }
  }

  lemma SortStrict(s: seq<ObjectInfo>)
    requires DistinctKeys(s)
    ensures Strict(Sort(s)) && forall x :: x in Sort(s) <==> x in s
  {
    SortDistinct(s);
    SortOrdered(s);
    forall i, j | 0 <= i < j < |Sort(s)| ensures Before(Sort(s)[i], Sort(s)[j]) {
      BeforeOrder(Sort(s)[i], Sort(s)[j], Sort(s)[j]);
    }
  }

  lemma {:induction false} CompactDistinct(s: seq<ObjectInfo>)
    requires DistinctKeys(s)
    ensures CompactKeys(s) == Keys(s)
  {
    if s != [] { CompactDistinct(s[..|s| - 1]); }
  }

  lemma {:induction false} MembersDistinct(contents: map<string, Inspection>, listing: seq<ObjectInfo>,
      base: ObjectInfo, selected: ObjectInfo)
    requires DistinctKeys(listing)
    ensures var ms := MembersOf(contents, listing, base, selected);
            DistinctKeys(ms) && forall o :: o in ms <==> o in listing && Member(contents, o, base, selected)
  {
    if listing != [] {
      var before := listing[..|listing| - 1];
      MembersDistinct(contents, before, base, selected);
      assert listing == before + [listing[|listing| - 1]];
      var ms := MembersOf(contents, before, base, selected);
      forall i | 0 <= i < |ms| ensures ms[i].key != listing[|listing| - 1].key {
        assert ms[i] in before;
      }
    }
  }

  lemma InfosDistinct(contents: map<string, Inspection>, listing: seq<ObjectInfo>, base: ObjectInfo,
      selected: ObjectInfo)
    requires DistinctKeys(listing) && base.key != selected.key
    ensures var infos := ChainInfos(contents, listing, base, selected);
            DistinctKeys(infos) &&
            forall o :: o in infos <==>
                o == base || o == selected || (o in listing && Member(contents, o, base, selected))
  {
    MembersDistinct(contents, listing, base, selected);
    var ms := MembersOf(contents, listing, base, selected);
    forall i | 0 <= i < |ms| ensures Considered(ms[i], base, selected) {
      assert ms[i] in ms;
    }
  }

  /** Every object that may belong to the chain can be downloaded and inspected. */
  ghost predicate AllReadable(listing: seq<ObjectInfo>, contents: map<string, Inspection>, base: ObjectInfo,
      selected: ObjectInfo)
  {
    forall o :: o in listing && o.key != base.key && o.key != selected.key &&
                base.lastModified < o.lastModified <= selected.lastModified &&
                (exists i | 0 <= i <= |o.key| :: "/incremental/" <= o.key[i..]) ==>
                  o.key in contents && contents[o.key] != Unreadable
  }

  /** The base, the selection and the incrementals that name the base in between, and nothing else. */
  ghost predicate HoldsExactly(listing: seq<ObjectInfo>, contents: map<string, Inspection>, base: ObjectInfo,
      selected: ObjectInfo, out: seq<string>)
  {
    forall k :: k in out <==>
      || k == base.key || k == selected.key
      || exists o :: o in listing && o.key == k && k in contents && contents[k] == Incremental(base.key) &&
                     base.lastModified < o.lastModified <= selected.lastModified &&
                     exists i | 0 <= i <= |k| :: "/incremental/" <= k[i..]
  }

  /** Nothing twice, by upload time and then by key. */
  ghost predicate InLoadOrder(listing: seq<ObjectInfo>, out: seq<string>) {
    && (forall i, j :: 0 <= i < j < |out| ==> out[i] != out[j])
    && (forall i, j, a, b :: 0 <= i < j < |out| && a in listing && b in listing &&
                             a.key == out[i] && b.key == out[j] ==>
          a.lastModified < b.lastModified || (a.lastModified == b.lastModified && LexLess(a.key, b.key)))
  }

  lemma ChainSpelledOut(contents: map<string, Inspection>, listing: seq<ObjectInfo>, base: ObjectInfo,
      selected: ObjectInfo)
    requires DistinctKeys(listing) && base.key != selected.key && base in listing && selected in listing
    ensures var out := CompactKeys(Sort(ChainInfos(contents, listing, base, selected)));
            HoldsExactly(listing, contents, base, selected, out) && InLoadOrder(listing, out)
  {
    hide *;
    InfosDistinct(contents, listing, base, selected);
    var infos := ChainInfos(contents, listing, base, selected);
    SortStrict(infos);
    SortDistinct(infos);
    CompactDistinct(Sort(infos));
    ChainKeys(contents, listing, base, selected, Sort(infos));
    ChainOrder(listing, Sort(infos));
  }

  lemma ChainKeys(contents: map<string, Inspection>, listing: seq<ObjectInfo>, base: ObjectInfo,
      selected: ObjectInfo, chain: seq<ObjectInfo>)
    requires forall o :: o in chain <==>
                o == base || o == selected || (o in listing && Member(contents, o, base, selected))
    ensures HoldsExactly(listing, contents, base, selected, Keys(chain))
  {
    forall k
      ensures k in Keys(chain) <==>
                || k == base.key || k == selected.key
                || exists o :: o in listing && o.key == k && Member(contents, o, base, selected)
    {
      hide Member;
      InKeys(chain, k);
      assert base in chain && selected in chain;
    }
    forall o
      ensures Member(contents, o, base, selected) <==>
                && o.key != base.key && o.key != selected.key
                && o.key in contents && contents[o.key] == Incremental(base.key)
                && base.lastModified < o.lastModified <= selected.lastModified
                && exists i | 0 <= i <= |o.key| :: "/incremental/" <= o.key[i..]
    {
    }
  }

  lemma ChainOrder(listing: seq<ObjectInfo>, chain: seq<ObjectInfo>)
    requires DistinctKeys(listing) && Strict(chain) && DistinctKeys(chain) && forall o :: o in chain ==> o in listing
    ensures InLoadOrder(listing, Keys(chain))
  {
    hide LexLess;
    var out := Keys(chain);
    forall i, a | 0 <= i < |out| && a in listing && a.key == out[i]
      ensures a == chain[i]
    {
      assert chain[i] in chain;
      SameKeySame(listing, a, chain[i]);
    }
    assert forall i, j :: 0 <= i < j < |out| ==> Before(chain[i], chain[j]);
  }

  lemma ReadableExactly(listing: seq<ObjectInfo>, contents: map<string, Inspection>, base: ObjectInfo,
      selected: ObjectInfo)
    ensures AllReadable(listing, contents, base, selected) <==>
            !exists o :: o in listing && Considered(o, base, selected) && !Readable(contents, o)
  {
    forall o | o in listing
      ensures Considered(o, base, selected) <==>
                && o.key != base.key && o.key != selected.key
                && base.lastModified < o.lastModified <= selected.lastModified
                && exists i | 0 <= i <= |o.key| :: "/incremental/" <= o.key[i..]
    {
    }
  }

  lemma FoundIs(listing: seq<ObjectInfo>, o: ObjectInfo)
    requires DistinctKeys(listing) && o in listing
    ensures Find(listing, o.key) == Some(o) && SelectedInfo(listing, o.key) == o
  {
    FindHasKey(listing, o.key);
    assert Find(listing, o.key).Some?;
    SameKeySame(listing, o, Find(listing, o.key).value);
  }

  lemma InKeys(s: seq<ObjectInfo>, k: string)
    ensures k in Keys(s) <==> exists o :: o in s && o.key == k
  {
    if k in Keys(s) {
      var i :| 0 <= i < |s| && Keys(s)[i] == k;
      assert s[i] in s;
    }
    if o :| o in s && o.key == k {
      var i :| 0 <= i < |s| && s[i] == o;
      assert Keys(s)[i] == k;
    }
  }

  lemma SameKeySame(listing: seq<ObjectInfo>, a: ObjectInfo, b: ObjectInfo)
    requires DistinctKeys(listing) && a in listing && b in listing && a.key == b.key
    ensures a == b
  {
    var i :| 0 <= i < |listing| && listing[i] == a;
    var j :| 0 <= j < |listing| && listing[j] == b;
  }

  method ResolveRestoreChain(listing: seq<ObjectInfo>, lists: bool, contents: map<string, Inspection>,
      selectedKey: string)
    returns (r: Result<seq<string>>)
    ensures selectedKey !in contents ==> r == Err(DownloadFailed)
    ensures selectedKey in contents && contents[selectedKey] == Unreadable ==> r == Err(InspectFailed)
    ensures selectedKey in contents && (contents[selectedKey] == NotABackup || contents[selectedKey] == FullBackup) ==>
              r == Ok([selectedKey])
    ensures selectedKey in contents && contents[selectedKey].Incremental? ==>
              var baseKey := contents[selectedKey].base;
              var base := Find(listing, baseKey);
              var selected := SelectedInfo(listing, selectedKey);
              if baseKey == "" then r == Err(BaseMissing)
              else if !lists then r == Err(ListFailed)
              else if base == None then r == Err(BaseMissing)
              else if exists o :: o in listing && Considered(o, base.value, selected) && !Readable(contents, o) then
                r == Err(DownloadFailed) || r == Err(InspectFailed)
              else r == Ok(CompactKeys(Sort(ChainInfos(contents, listing, base.value, selected))))
    ensures selectedKey in contents && contents[selectedKey].Incremental? && lists ==>
              (forall o :: o in listing ==> o.key != contents[selectedKey].base) ==>
                r == Err(BaseMissing)
    ensures forall base, selected ::
              && base in listing && selected in listing && DistinctKeys(listing) && lists
              && selected.key == selectedKey && selectedKey in contents && base.key != "" && base.key != selected.key
              && contents[selectedKey] == Incremental(base.key) ==>
                && (AllReadable(listing, contents, base, selected) ==>
                      r.Ok? && HoldsExactly(listing, contents, base, selected, r.value) &&
                      InLoadOrder(listing, r.value))
                && (!AllReadable(listing, contents, base, selected) ==>
                      r == Err(DownloadFailed) || r == Err(InspectFailed))
  {
    hide *;
    r := ResolveObjects(listing, lists, contents, selectedKey);
    if selectedKey in contents && contents[selectedKey].Incremental? {
      FindHasKey(listing, contents[selectedKey].base);
      forall base, selected | base in listing && selected in listing && DistinctKeys(listing) && lists &&
          selected.key == selectedKey && base.key != "" && base.key != selected.key &&
          contents[selectedKey] == Incremental(base.key)
        ensures AllReadable(listing, contents, base, selected) ==>
                  r.Ok? && HoldsExactly(listing, contents, base, selected, r.value) && InLoadOrder(listing, r.value)
        ensures !AllReadable(listing, contents, base, selected) ==> r == Err(DownloadFailed) || r == Err(InspectFailed)
      {
        FoundIs(listing, base);
        FoundIs(listing, selected);
        ReadableExactly(listing, contents, base, selected);
        ChainSpelledOut(contents, listing, base, selected);
      }
    }
  }

  method ResolveObjects(listing: seq<ObjectInfo>, lists: bool, contents: map<string, Inspection>,
      selectedKey: string)
    returns (r: Result<seq<string>>)
    ensures selectedKey !in contents ==> r == Err(DownloadFailed)
    ensures selectedKey in contents && contents[selectedKey] == Unreadable ==> r == Err(InspectFailed)
    ensures selectedKey in contents && (contents[selectedKey] == NotABackup || contents[selectedKey] == FullBackup) ==>
              r == Ok([selectedKey])
    ensures selectedKey in contents && contents[selectedKey].Incremental? ==>
              var baseKey := contents[selectedKey].base;
              var base := Find(listing, baseKey);
              var selected := SelectedInfo(listing, selectedKey);
              if baseKey == "" then r == Err(BaseMissing)
              else if !lists then r == Err(ListFailed)
              else if base == None then r == Err(BaseMissing)
              else if exists o :: o in listing && Considered(o, base.value, selected) && !Readable(contents, o) then
                r == Err(DownloadFailed) || r == Err(InspectFailed)
              else r == Ok(CompactKeys(Sort(ChainInfos(contents, listing, base.value, selected))))
  {
    if selectedKey !in contents { return Err(DownloadFailed); }
    var manifest := contents[selectedKey];
    match manifest
    case Unreadable => return Err(InspectFailed);
    case NotABackup => return Ok([selectedKey]);
    case FullBackup => return Ok([selectedKey]);
    case Incremental(baseKey) =>
      if baseKey == "" { return Err(BaseMissing); }
      if !lists { return Err(ListFailed); }
      var objectByKey := IndexByKey(listing);
      var selected := if selectedKey in objectByKey then objectByKey[selectedKey] else ObjectInfo(selectedKey, 0);
      if baseKey !in objectByKey { return Err(BaseMissing); }
      var base := objectByKey[baseKey];
      FindHasKey(listing, baseKey);
      var members := CollectMembers(listing, contents, base, selected);
      if members.Err? { return Err(members.error); }
      var chain := Sort(members.value + [selected]);
      var out := WriteKeys(chain);
      return Ok(out);
  }

  method IndexByKey(listing: seq<ObjectInfo>) returns (objectByKey: map<string, ObjectInfo>)
    ensures forall k :: Find(listing, k) == if k in objectByKey then Some(objectByKey[k]) else None
  {
    objectByKey := map[];
    for i := 0 to |listing|
      invariant forall k :: Find(listing[..i], k) == if k in objectByKey then Some(objectByKey[k]) else None
    {
      objectByKey := objectByKey[listing[i].key := listing[i]];
      assert listing[..i + 1][..i] == listing[..i];
    }
    assert listing[..|listing|] == listing;
  }

  /** The base, then every considered object whose manifest names it; the first unreadable one aborts. */
  method CollectMembers(listing: seq<ObjectInfo>, contents: map<string, Inspection>, base: ObjectInfo,
      selected: ObjectInfo)
    returns (r: Result<seq<ObjectInfo>>)
    ensures if exists o :: o in listing && Considered(o, base, selected) && !Readable(contents, o)
            then r == Err(DownloadFailed) || r == Err(InspectFailed)
            else r == Ok([base] + MembersOf(contents, listing, base, selected))
  {
    var chain := [base];
    for i := 0 to |listing|
      invariant chain == [base] + MembersOf(contents, listing[..i], base, selected)
      invariant forall o :: o in listing[..i] && Considered(o, base, selected) ==> Readable(contents, o)
    {
      var o := listing[i];
      assert listing[..i + 1][..i] == listing[..i];
      if Considered(o, base, selected) {
        if o.key !in contents { return Err(DownloadFailed); }
        if contents[o.key] == Unreadable { return Err(InspectFailed); }
        if contents[o.key] == Incremental(base.key) { chain := chain + [o]; }
      }
    }
    assert listing[..|listing|] == listing;
    return Ok(chain);
  }

  method WriteKeys(chain: seq<ObjectInfo>) returns (out: seq<string>)
    ensures out == CompactKeys(chain)
  {
    out := [];
    for i := 0 to |chain|
      invariant out == CompactKeys(chain[..i])
    {
      assert chain[..i + 1][..i] == chain[..i];
      if out == [] || out[|out| - 1] != chain[i].key { out := out + [chain[i].key]; }
    }
    assert chain[..|chain|] == chain;
  }

  lemma {:induction false} FindHasKey(listing: seq<ObjectInfo>, key: string)
    ensures Find(listing, key).Some? ==> Find(listing, key).value.key == key && Find(listing, key).value in listing
    ensures Find(listing, key) == None ==> forall o :: o in listing ==> o.key != key
  {
    if listing != [] && listing[|listing| - 1].key != key { FindHasKey(listing[..|listing| - 1], key); }
  }
}
