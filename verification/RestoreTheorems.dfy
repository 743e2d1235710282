/**
 What the resolved chain is, exactly, and that loading it rebuilds the protocol's restored image.
 */
module RestoreTheorems {
  import opened RedisCommands
  import opened BackupProtocol
  import opened BackupTheorems
  import opened BackupKeys
  import opened RestoreChain
  import opened TextOrder

  // ----- The resolved chain -----

  /** The ends of a strictly ordered chain. */
  lemma StrictEnds(chain: seq<ObjectInfo>, o: ObjectInfo)
    requires Strict(chain) && o in chain
    ensures chain[0] == o <==> forall x :: x in chain ==> x == o || Before(o, x)
    ensures chain[|chain| - 1] == o <==> forall x :: x in chain ==> x == o || Before(x, o)
  {
    var i :| 0 <= i < |chain| && chain[i] == o;
    BeforeOrder(o, chain[0], o);
    BeforeOrder(o, chain[|chain| - 1], o);
    assert chain[0] in chain && chain[|chain| - 1] in chain;
  }

  /** In upload order; the base, the selected object and every incremental of the base in between,
      nothing else and nothing twice; first the base, exactly when it is older than the selected
      object; last the selected object, exactly when moreover no incremental ties with it under a greater key. */
  lemma ChainExact(contents: map<string, Inspection>, listing: seq<ObjectInfo>, base: ObjectInfo, selected: ObjectInfo)
    requires DistinctKeys(listing) && base.key != selected.key
    ensures var chain := Sort(ChainInfos(contents, listing, base, selected));
            && CompactKeys(chain) == Keys(chain) && Strict(chain) && |chain| >= 2
            && (forall o :: o in chain <==>
                o == base || o == selected || (o in listing && Member(contents, o, base, selected)))
            && (chain[0] == base <==> Before(base, selected))
            && (chain[|chain| - 1] == selected <==>
                  Before(base, selected) &&
                  !exists o :: o in listing && Member(contents, o, base, selected) &&
                               o.lastModified == selected.lastModified && LexLess(selected.key, o.key))
  {
    InfosDistinct(contents, listing, base, selected);
    var infos := ChainInfos(contents, listing, base, selected);
    SortStrict(infos);
    SortDistinct(infos);
    CompactDistinct(Sort(infos));
    var chain := Sort(infos);
    assert base in chain && selected in chain;
    assert |chain| >= 2;
    StrictEnds(chain, base);
    StrictEnds(chain, selected);
    BeforeOrder(base, selected, base);
    LastIsSelected(contents, listing, base, selected, chain);
  }

  lemma LastIsSelected(contents: map<string, Inspection>, listing: seq<ObjectInfo>, base: ObjectInfo,
      selected: ObjectInfo, chain: seq<ObjectInfo>)
    requires forall o :: o in chain <==>
              o == base || o == selected || (o in listing && Member(contents, o, base, selected))
    requires base.key != selected.key
    ensures (forall x :: x in chain ==> x == selected || Before(x, selected)) <==>
            (Before(base, selected) &&
             !exists o :: o in listing && Member(contents, o, base, selected) &&
                          o.lastModified == selected.lastModified && LexLess(selected.key, o.key))
  {
    if o :| o in listing && Member(contents, o, base, selected) && o.lastModified == selected.lastModified &&
            LexLess(selected.key, o.key) {
      BeforeOrder(o, selected, o);
      assert o in chain;
    }
    if Before(base, selected) {
      forall x | x in chain ensures x == selected || Before(x, selected) || (x != base && Before(selected, x)) {
        BeforeOrder(x, selected, x);
      }
    } else {
      assert base in chain;
    }
  }

  /** A selected object missing from the listing has the zero time: it is loaded before its base. */
  lemma UnlistedSelectionReversed(contents: map<string, Inspection>, listing: seq<ObjectInfo>, base: ObjectInfo,
      selectedKey: string)
    requires DistinctKeys(listing) && base.key != selectedKey && base.lastModified > 0 &&
              Find(listing, selectedKey) == None
    ensures CompactKeys(Sort(ChainInfos(contents, listing, base, SelectedInfo(listing, selectedKey)))) ==
              [selectedKey, base.key]
  {
    var selected := SelectedInfo(listing, selectedKey);
    ChainExact(contents, listing, base, selected);
    var chain := Sort(ChainInfos(contents, listing, base, selected));
    assert forall o :: o in chain ==> o == base || o == selected;
    assert Strict([selected, base]) && forall o :: o in [selected, base] <==> o in chain;
    StrictUnique(chain, [selected, base]);
  }

  lemma NotInTail(a: seq<ObjectInfo>)
    requires Strict(a) && a != []
    ensures a[0] !in a[1..]
  {
    BeforeOrder(a[0], a[0], a[0]);
    forall i | 0 <= i < |a[1..]| ensures a[1..][i] != a[0] {
      assert Before(a[0], a[i + 1]);
    }
  }

  lemma {:induction false} StrictUnique(a: seq<ObjectInfo>, b: seq<ObjectInfo>)
    requires Strict(a) && Strict(b) && forall o :: o in a <==> o in b
    ensures a == b
  {
    if a == [] {
      assert forall i :: 0 <= i < |b| ==> b[i] in b;
    } else {
      assert a[0] in b && b != [] && b[0] in a;
      var i :| 0 <= i < |b| && b[i] == a[0];
      var j :| 0 <= j < |a| && a[j] == b[0];
      BeforeOrder(a[0], b[0], a[0]);
      assert a[0] == b[0];
      assert a == [a[0]] + a[1..] && b == [b[0]] + b[1..];
      NotInTail(a);
      NotInTail(b);
      assert forall o :: o in a <==> o == a[0] || o in a[1..];
      assert forall o :: o in b <==> o == b[0] || o in b[1..];
      StrictUnique(a[1..], b[1..]);
    }
  }

  // ----- Loading the chain -----

  /** The objects built on one base, in upload order. */
  function BaseChain(objects: seq<BackupObject>, base: nat): seq<BackupObject> {
    if objects == [] then []
    else
      var o := objects[|objects| - 1];
      BaseChain(objects[..|objects| - 1], base) + if o.base == Some(base) then [o] else []
  }

  function LoadAll(s: Keyspace, chain: seq<BackupObject>): Keyspace {
    if chain == [] then s else ApplyEntries(LoadAll(s, chain[..|chain| - 1]), chain[|chain| - 1].entries)
  }

  lemma LoadOneMore(s: Keyspace, chain: seq<BackupObject>, o: BackupObject)
    ensures LoadAll(s, chain + [o]) == ApplyEntries(LoadAll(s, chain), o.entries)
  {
    assert (chain + [o])[..|chain|] == chain;
  }

  /** Loading the objects of one base into an empty keyspace gives the protocol's restored image. */
  lemma {:induction false} LoadingBaseChain(objects: seq<BackupObject>, base: nat)
    ensures LoadAll(map[], BaseChain(objects, base)) == Restored(objects, base)
  {
    if objects != [] {
      var before := objects[..|objects| - 1];
      var o := objects[|objects| - 1];
      LoadingBaseChain(before, base);
      if o.base == Some(base) {
        LoadOneMore(map[], BaseChain(before, base), o);
      } else {
        assert BaseChain(before, base) + [] == BaseChain(before, base);
      }
    }
  }

  /** Download and restore each object of the chain in turn; a missing object or a bad entry type aborts. */
  method LoadChain(store: Keyspace, chain: seq<BackupObject>) returns (s: Keyspace, count: nat)
    ensures s == LoadAll(store, chain)
  {
    s, count := store, 0;
    for i := 0 to |chain|
      invariant s == LoadAll(store, chain[..i])
    {
      var before := s;
      var es := chain[i].entries;
      for j := 0 to |es|
        invariant s == ApplyEntries(before, es[..j])
      {
        match es[j] {
          case KeyEntry(key, value) => s := s[key := value];
          case DeleteEntry(key) => s := s - {key};
        }
        count := count + 1;
        assert es[..j + 1][..j] == es[..j];
      }
      assert es[..|es|] == es;
      assert chain[..i + 1][..i] == chain[..i];
    }
    assert chain[..|chain|] == chain;
  }

  // ----- The listing of a protocol run's archive -----

  function Info(names: map<nat, string>, times: map<nat, int>, o: BackupObject): ObjectInfo
    requires o.id in names && o.id in times
  {
    ObjectInfo(names[o.id], times[o.id])
  }

  ghost predicate Named(objects: seq<BackupObject>, names: map<nat, string>, times: map<nat, int>) {
    && (forall o :: o in objects ==> o.id in names && o.id in times && o.base.Some? && o.base.value in names)
    && (forall a, b :: a in names && b in names && names[a] == names[b] ==> a == b)
    && (forall i, j :: 0 <= i < j < |objects| ==> times[objects[i].id] < times[objects[j].id])
  }

  ghost predicate Lists(objects: seq<BackupObject>, names: map<nat, string>, times: map<nat, int>,
      listing: seq<ObjectInfo>)
    requires Named(objects, names, times)
  {
    && DistinctKeys(listing)
    && (forall x :: x in listing ==> exists o :: o in objects && x == Info(names, times, o))
    && (forall o :: o in objects ==> Info(names, times, o) in listing)
  }

  ghost predicate ManifestOf(names: map<nat, string>, contents: map<string, Inspection>, o: BackupObject)
    requires o.id in names && o.base.Some? && o.base.value in names
  {
    && names[o.id] in contents
    && contents[names[o.id]] == (if o.full then FullBackup else Incremental(names[o.base.value]))
    && (!o.full ==> Contains(names[o.id], "/incremental/"))
  }

  /** Object storage as the uploads left it: distinct names, upload times in upload order, and
      manifests naming each incremental's base. The listing may come in any order. */
  ghost predicate Stored(objects: seq<BackupObject>, names: map<nat, string>, times: map<nat, int>,
                         listing: seq<ObjectInfo>, contents: map<string, Inspection>)
  {
    && Named(objects, names, times)
    && Lists(objects, names, times, listing)
    && (forall o :: o in objects ==> ManifestOf(names, contents, o))
  }

  lemma {:induction false} BaseChainElements(objects: seq<BackupObject>, base: nat, o: BackupObject)
    ensures o in BaseChain(objects, base) <==> o in objects && o.base == Some(base)
  {
    if objects != [] {
      BaseChainElements(objects[..|objects| - 1], base, o);
      assert objects == objects[..|objects| - 1] + [objects[|objects| - 1]];
    }
  }

  function Infos(names: map<nat, string>, times: map<nat, int>, chain: seq<BackupObject>): (r: seq<ObjectInfo>)
    requires forall o :: o in chain ==> o.id in names && o.id in times
    ensures |r| == |chain| && forall i :: 0 <= i < |r| ==> r[i] == Info(names, times, chain[i])
  {
    seq(|chain|, i requires 0 <= i < |chain| => Info(names, times, chain[i]))
  }

  lemma {:induction false} BaseChainStrict(objects: seq<BackupObject>, base: nat, names: map<nat, string>,
      times: map<nat, int>)
    requires forall o :: o in objects ==> o.id in names && o.id in times
    requires forall i, j :: 0 <= i < j < |objects| ==> times[objects[i].id] < times[objects[j].id]
    ensures forall o :: o in BaseChain(objects, base) ==> o in objects
    ensures Strict(Infos(names, times, BaseChain(objects, base)))
  {
    forall o ensures o in BaseChain(objects, base) ==> o in objects { BaseChainElements(objects, base, o); }
    if objects != [] {
      var before := objects[..|objects| - 1];
      BaseChainStrict(before, base, names, times);
      var c := BaseChain(before, base);
      forall i | 0 <= i < |c| ensures times[c[i].id] < times[objects[|objects| - 1].id] {
        assert c[i] in before;
        var j :| 0 <= j < |before| && before[j] == c[i];
        assert objects[j] == c[i];
      }
    }
  }

  /** Where the objects of one base sit: the base itself, then incrementals after it. */
  lemma BaseComesFirst(objects: seq<BackupObject>, r: nat, i: nat)
    requires BasesNewest(objects) && r < |objects| && objects[r].full && i < |objects|
    requires objects[i].base == Some(objects[r].id)
    ensures if objects[i].full then i == r else r < i
  {
    if !objects[i].full {
      var j :| 0 <= j < i && objects[j].full && objects[j].id == objects[i].base.value;
    }
  }

  lemma IdsIncrease(objects: seq<BackupObject>, i: nat, j: nat)
    requires BasesNewest(objects) && i < j < |objects|
    ensures objects[i].id < objects[j].id
  {
  }

  lemma MemberHasIndex(objects: seq<BackupObject>, names: map<nat, string>, times: map<nat, int>,
                       listing: seq<ObjectInfo>, contents: map<string, Inspection>, r: nat, n: nat, x: ObjectInfo)
                           returns (i: nat)
    requires Stored(objects, names, times, listing, contents)
    requires r < n < |objects| && objects[r].full && !objects[n].full
    requires x in listing && Member(contents, x, Info(names, times, objects[r]), Info(names, times, objects[n]))
    ensures i <= n && x == Info(names, times, objects[i]) && objects[i].base == Some(objects[r].id)
  {
    hide DistinctKeys, Contains;
    var o :| o in objects && x == Info(names, times, o);
    i :| 0 <= i < |objects| && objects[i] == o;
    assert ManifestOf(names, contents, o);
  }

  lemma InfoInChain(objects: seq<BackupObject>, names: map<nat, string>, times: map<nat, int>,
                    listing: seq<ObjectInfo>, contents: map<string, Inspection>, r: nat, n: nat, i: nat)
    requires Stored(objects, names, times, listing, contents) && BasesNewest(objects)
    requires r < n < |objects| && objects[r].full && !objects[n].full && objects[n].base == Some(objects[r].id)
    requires i <= n && objects[i].base == Some(objects[r].id) && i != r && i != n
    ensures Member(contents, Info(names, times, objects[i]), Info(names, times, objects[r]),
              Info(names, times, objects[n]))
  {
    hide BasesNewest, DistinctKeys, Lists, Contains;
    BaseComesFirst(objects, r, i);
    assert objects[i] in objects && ManifestOf(names, contents, objects[i]);
    assert objects[i].id != objects[r].id &&
        objects[i].id != objects[n].id by { IdsIncrease(objects, r, i); IdsIncrease(objects, i, n); }
  }

  /** For an incremental of a run with newest bases, the tool resolves exactly the objects of its
      base up to it, in upload order. */
  lemma ChainOfArchive(objects: seq<BackupObject>, names: map<nat, string>, times: map<nat, int>,
                       listing: seq<ObjectInfo>, contents: map<string, Inspection>, r: nat, n: nat)
    requires Stored(objects, names, times, listing, contents) && BasesNewest(objects)
    requires r < n < |objects| && objects[r].full && !objects[n].full && objects[n].base == Some(objects[r].id)
    ensures var up := BaseChain(objects[..n + 1], objects[r].id);
            && (forall o :: o in up ==> o in objects)
            && Sort(ChainInfos(contents, listing, Info(names, times, objects[r]), Info(names, times, objects[n]))) ==
                Infos(names, times, up)
            && CompactKeys(Infos(names, times, up)) == Keys(Infos(names, times, up))
  {
    hide Stored, BasesNewest, Sort, ChainInfos, Member, Before, DistinctKeys, CompactKeys, Keys, BaseChain, Strict;
    var root := objects[r].id;
    var up := BaseChain(objects[..n + 1], root);
    NamedPrefix(objects, names, times, listing, contents, n + 1);
    BaseChainStrict(objects[..n + 1], root, names, times);
    var base, selected := Info(names, times, objects[r]), Info(names, times, objects[n]);
    InfosDiffer(objects, names, times, listing, contents, r, n);
    ChainExact(contents, listing, base, selected);
    var chain := Sort(ChainInfos(contents, listing, base, selected));
    forall x | x in chain ensures x in Infos(names, times, up) {
      var i: nat;
      if x == base { i := r; RootBase(objects, r); } else if x == selected { i := n; } else {
        i := MemberHasIndex(objects, names, times, listing, contents, r, n, x);
      }
      assert objects[..n + 1][i] == objects[i];
      BaseChainElements(objects[..n + 1], root, objects[i]);
      var k :| 0 <= k < |up| && up[k] == objects[i];
      assert Infos(names, times, up)[k] == x;
    }
    forall x | x in Infos(names, times, up) ensures x in chain {
      var k :| 0 <= k < |up| && x == Infos(names, times, up)[k];
      BaseChainElements(objects[..n + 1], root, up[k]);
      var i :| 0 <= i < n + 1 && objects[..n + 1][i] == up[k];
      if i != r && i != n {
        InfoInChain(objects, names, times, listing, contents, r, n, i);
        InfoListed(objects, names, times, listing, contents, i);
      }
    }
    StrictUnique(chain, Infos(names, times, up));
  }

  lemma RootBase(objects: seq<BackupObject>, r: nat)
    requires BasesNewest(objects) && r < |objects| && objects[r].full
    ensures objects[r].base == Some(objects[r].id)
  {
  }

  lemma InfoListed(objects: seq<BackupObject>, names: map<nat, string>, times: map<nat, int>,
                   listing: seq<ObjectInfo>, contents: map<string, Inspection>, i: nat)
    requires Stored(objects, names, times, listing, contents) && i < |objects|
    ensures objects[i].id in names && objects[i].id in times && Info(names, times, objects[i]) in listing
  {
    assert objects[i] in objects;
  }

  lemma InfosDiffer(objects: seq<BackupObject>, names: map<nat, string>, times: map<nat, int>,
                    listing: seq<ObjectInfo>, contents: map<string, Inspection>, r: nat, n: nat)
    requires Stored(objects, names, times, listing, contents) && BasesNewest(objects) && r < n < |objects|
    ensures DistinctKeys(listing) && Info(names, times, objects[r]).key != Info(names, times, objects[n]).key
  {
    IdsIncrease(objects, r, n);
  }

  lemma NamedPrefix(objects: seq<BackupObject>, names: map<nat, string>, times: map<nat, int>,
                    listing: seq<ObjectInfo>, contents: map<string, Inspection>, n: nat)
    requires Stored(objects, names, times, listing, contents) && n <= |objects|
    ensures forall o :: o in objects ==> o.id in names && o.id in times
    ensures forall o :: o in objects[..n] ==> o in objects
    ensures forall i, j :: 0 <= i < j < n ==> times[objects[i].id] < times[objects[j].id]
  {
  }

  /** End to end: loading the chain the tool resolves for an incremental rebuilds the image restored
      from everything uploaded up to it. */
  lemma LoadedChainIsRestoredImage(objects: seq<BackupObject>, names: map<nat, string>, times: map<nat, int>,
                                   listing: seq<ObjectInfo>, contents: map<string, Inspection>, r: nat, n: nat)
    requires Stored(objects, names, times, listing, contents) && BasesNewest(objects)
    requires r < n < |objects| && objects[r].full && !objects[n].full && objects[n].base == Some(objects[r].id)
    ensures exists up: seq<BackupObject> ::
              && (forall o :: o in up ==> o in objects)
              && CompactKeys(Sort(ChainInfos(contents, listing, Info(names, times, objects[r]),
                  Info(names, times, objects[n])))) == Keys(Infos(names, times, up))
              && LoadAll(map[], up) == Restored(objects[..n + 1], objects[r].id)
  {
    ChainOfArchive(objects, names, times, listing, contents, r, n);
    LoadingBaseChain(objects[..n + 1], objects[r].id);
  }

  lemma RecoveryLoadsExported(start: State, steps: seq<Step>, names: map<nat, string>, times: map<nat, int>,
                              listing: seq<ObjectInfo>, contents: map<string, Inspection>)
    requires Init(start) && start.job.entries == [] && ValidRun(start, steps)
    requires CleanRun(start, steps) && ClockMonotoneAll(start, steps)
    requires var s := Run(start, steps);
             && Quiescent(s) && s.archive.objects != [] && s.archive.base.Some?
             && var last := s.archive.objects[|s.archive.objects| - 1]; !last.full && last.base == s.archive.base
    requires Stored(Run(start, steps).archive.objects, names, times, listing, contents)
    ensures var s := Run(start, steps);
            var objects := s.archive.objects;
            exists r, up: seq<BackupObject> ::
              && 0 <= r < |objects| - 1 && objects[r].full && objects[r].id == s.archive.base.value
              && (forall o :: o in up ==> o in objects)
              && CompactKeys(Sort(ChainInfos(contents, listing, Info(names, times, objects[r]),
                  Info(names, times, objects[|objects| - 1])))) == Keys(Infos(names, times, up))
              && LoadAll(map[], up) == ExportedPart(s.store)
  {
    hide Run, ValidRun, CleanRun, ClockMonotoneAll, Stored, Restored, Quiescent, ExportedPart, LoadAll, Sort;
    hide ChainInfos, CompactKeys, Infos, Keys, Info;
    var s := Run(start, steps);
    var objects := s.archive.objects;
    var n := |objects| - 1;
    NewestBaseFromStart(start, steps);
    CleanRunRestoresExactly(start, steps);
    assert NewestFull(objects, n, objects[n].base);
    var r :| 0 <= r < n && objects[r].full && objects[r].id == objects[n].base.value;
    assert objects[..n + 1] == objects;
    LoadedChainIsRestoredImage(objects, names, times, listing, contents, r, n);
  }

  /** The whole story: after a run that dropped no mark, with nothing pending and an incremental of
      the current base as the last upload, loading what the tool resolves gives back the exported store. */
  lemma RecoveryRebuildsStore(start: State, steps: seq<Step>, names: map<nat, string>, times: map<nat, int>,
                              listing: seq<ObjectInfo>, contents: map<string, Inspection>)
    requires Init(start) && start.job.entries == [] && ValidRun(start, steps)
    requires CleanRun(start, steps) && ClockMonotoneAll(start, steps)
    requires var s := Run(start, steps);
             && Quiescent(s) && s.archive.objects != [] && s.archive.base.Some?
             && var last := s.archive.objects[|s.archive.objects| - 1]; !last.full && last.base == s.archive.base
    requires Stored(Run(start, steps).archive.objects, names, times, listing, contents)
    ensures var s := Run(start, steps);
            var objects := s.archive.objects;
            exists r, up: seq<BackupObject> ::
              && 0 <= r < |objects| - 1 && objects[r].full && objects[r].id == s.archive.base.value
              && (forall o :: o in up ==> o in objects)
              && CompactKeys(Sort(ChainInfos(contents, listing, Info(names, times, objects[r]),
                  Info(names, times, objects[|objects| - 1])))) == Keys(Infos(names, times, up))
              && LoadAll(map[], up) == ExportedPart(s.store)
    ensures forall k :: Get(ExportedPart(Run(start, steps).store), k) ==
                        if && "imsub:" <= k
                           && !("imsub:oauth:" <= k) && !("imsub:backup:" <= k)
                           && !("imsub:cleanup_job_lock:" <= k) && !("imsub:sub_end_grace_lock:" <= k)
                           && !(&& ("imsub:creator:subscribers:" <= k || "imsub:creator:blocked:" <= k)
                                && exists i | 0 <= i <= |k| :: ":tmp:" <= k[i..])
                        then Get(Run(start, steps).store, k) else None
  {
    hide *;
    RecoveryLoadsExported(start, steps, names, times, listing, contents);
    ExportedPartExactly(Run(start, steps).store);
  }
}
