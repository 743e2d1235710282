/**
 Reading a whole upstream list page by page into a dump: ids are written in chunks, one expired
 token is refreshed, and the dump replaces the stored set only when the last page has arrived.
 */
module DumpPaging {
  import opened RedisCommands
  import opened IndexSets
  import opened DumpConvergence
  import opened DumpJournal

  const DUMP_ID_CHUNK_SIZE := 5000

  // ----- What the upstream answers, call by call -----

  datatype Answer = Page(ids: seq<string>, last: bool) | Unauthorized | Failed

  datatype Reading = Complete(pages: seq<seq<string>>) | Broken(pages: seq<seq<string>>)

  /** One expired token may be refreshed, at any page; the page is then asked for again. */
  function Read(answers: seq<Answer>, mayRefresh: bool): Reading
    decreases |answers|
  {
    if answers == [] then Broken([])
    else match answers[0]
         case Failed => Broken([])
         case Unauthorized => if mayRefresh then Read(answers[1..], false) else Broken([])
         case Page(ids, last) =>
           if last then Complete([ids])
           else match Read(answers[1..], mayRefresh)
                case Complete(pages) => Complete([ids] + pages)
                case Broken(pages) => Broken([ids] + pages)
  }

  /** Place `n` holds the last page, and before it come pages and at most one expired token. */
  ghost predicate EndsAt(answers: seq<Answer>, mayRefresh: bool, n: nat) {
    && n < |answers| && answers[n].Page? && answers[n].last
    && (forall i :: 0 <= i < n ==> !answers[i].Failed? && !(answers[i].Page? && answers[i].last))
    && (forall i :: 0 <= i < n && answers[i] == Unauthorized ==> mayRefresh)
    && forall i, j :: 0 <= i < j < n ==> !(answers[i] == Unauthorized && answers[j] == Unauthorized)
  }

  /** A reading is complete exactly when the last page comes before a failure or a second expired token. */
  lemma {:induction false} ReadExactly(answers: seq<Answer>, mayRefresh: bool)
    ensures Read(answers, mayRefresh).Complete? <==> exists n: nat :: EndsAt(answers, mayRefresh, n)
    decreases |answers|
  {
    if answers != [] {
      var rest, still := answers[1..], mayRefresh && answers[0] != Unauthorized;
      ReadExactly(rest, still);
      if n: nat :| EndsAt(answers, mayRefresh, n) && n > 0 {
        assert EndsAt(rest, still, n - 1);
      }
      var goesOn := if answers[0].Page? then !answers[0].last else answers[0] == Unauthorized && mayRefresh;
      if n: nat :| goesOn && EndsAt(rest, still, n) {
        EndsLater(answers, mayRefresh, n);
      }
      if answers[0].Page? && answers[0].last { assert EndsAt(answers, mayRefresh, 0); }
    }
  }

  lemma EndsLater(answers: seq<Answer>, mayRefresh: bool, n: nat)
    requires answers != [] && EndsAt(answers[1..], mayRefresh && answers[0] != Unauthorized, n)
    requires !answers[0].Failed? && !(answers[0].Page? && answers[0].last)
    requires answers[0] == Unauthorized ==> mayRefresh
    ensures EndsAt(answers, mayRefresh, n + 1)
  {
    assert forall i :: 0 < i < |answers| ==> answers[i] == answers[1..][i - 1];
  }

  /** The places of the pages up to the last one, ascending, and the pages in that order. */
  ghost predicate PagesAt(answers: seq<Answer>, n: nat, ks: seq<nat>, pages: seq<seq<string>>) {
    && n < |answers| && |ks| == |pages|
    && (forall a, b :: 0 <= a < b < |ks| ==> ks[a] < ks[b])
    && (forall a :: 0 <= a < |ks| ==> ks[a] <= n && answers[ks[a]].Page? && pages[a] == answers[ks[a]].ids)
    && forall i: nat :: i <= n && answers[i].Page? ==> i in ks
  }

  /** The pages of a complete reading: those that came up to the last one, each once and in order. */
  lemma {:induction false} ReadPagesAre(answers: seq<Answer>, mayRefresh: bool) returns (n: nat, ks: seq<nat>)
    requires Read(answers, mayRefresh).Complete?
    ensures EndsAt(answers, mayRefresh, n) && PagesAt(answers, n, ks, Read(answers, mayRefresh).pages)
    decreases |answers|
  {
    if answers[0].Page? && answers[0].last {
      n, ks := 0, [0];
    } else {
      n, ks := ReadPagesAre(answers[1..], mayRefresh && answers[0] != Unauthorized);
      EndsLater(answers, mayRefresh, n);
      ks := PagesLater(answers, n, ks, Read(answers[1..], mayRefresh && answers[0] != Unauthorized).pages);
      n := n + 1;
    }
  }

  lemma PagesLater(answers: seq<Answer>, n: nat, ks: seq<nat>, pages: seq<seq<string>>) returns (ks': seq<nat>)
    requires answers != [] && PagesAt(answers[1..], n, ks, pages)
    ensures PagesAt(answers, n + 1, ks', if answers[0].Page? then [answers[0].ids] + pages else pages)
  {
    hide *;
    var moved := PlacesMoved(answers, n, ks, pages);
    ks' := if answers[0].Page? then [0] + moved else moved;
    FirstPlace(answers, n + 1, moved, pages);
  }

  lemma FirstPlace(answers: seq<Answer>, n: nat, moved: seq<nat>, pages: seq<seq<string>>)
    requires n < |answers| && |moved| == |pages| && forall a, b :: 0 <= a < b < |moved| ==> moved[a] < moved[b]
    requires forall a :: 0 <= a < |moved| ==>
               0 < moved[a] <= n && answers[moved[a]].Page? && pages[a] == answers[moved[a]].ids
    requires forall i: nat :: 0 < i <= n && answers[i].Page? ==> i in moved
    ensures if answers[0].Page? then PagesAt(answers, n, [0] + moved, [answers[0].ids] + pages)
            else PagesAt(answers, n, moved, pages)
  {
    if answers[0].Page? {
      var ks, all := [0] + moved, [answers[0].ids] + pages;
      assert forall i: nat :: i in ks <==> i == 0 || i in moved;
      forall a, b | 0 <= a < b < |ks|
        ensures ks[a] < ks[b]
      {
        assert ks[b] == moved[b - 1] && (a > 0 ==> ks[a] == moved[a - 1]);
      }
      forall a | 0 <= a < |ks|
        ensures ks[a] <= n && answers[ks[a]].Page? && all[a] == answers[ks[a]].ids
      {
        if a > 0 { assert ks[a] == moved[a - 1] && all[a] == pages[a - 1]; }
      }
    }
  }

  lemma PlacesMoved(answers: seq<Answer>, n: nat, ks: seq<nat>, pages: seq<seq<string>>) returns (moved: seq<nat>)
    requires answers != [] && PagesAt(answers[1..], n, ks, pages)
    ensures n + 1 < |answers| && |moved| == |pages| && forall a, b :: 0 <= a < b < |moved| ==> moved[a] < moved[b]
    ensures forall a :: 0 <= a < |moved| ==>
              0 < moved[a] <= n + 1 && answers[moved[a]].Page? && pages[a] == answers[moved[a]].ids
    ensures forall i: nat :: 0 < i <= n + 1 && answers[i].Page? ==> i in moved
  {
    var rest := answers[1..];
    moved := seq(|ks|, j requires 0 <= j < |ks| => ks[j] + 1);
    forall i: nat | 0 < i <= n + 1 && answers[i].Page?
      ensures i in moved
    {
      var k: nat := i - 1;
      assert rest[k] == answers[i];
      assert k in ks;
      var j :| 0 <= j < |ks| && ks[j] == k;
      assert moved[j] == i;
    }
    forall a | 0 <= a < |moved|
      ensures 0 < moved[a] <= n + 1 && answers[moved[a]].Page? && pages[a] == answers[moved[a]].ids
    {
      assert rest[ks[a]] == answers[moved[a]];
    }
  }

  function Prepend(pages: seq<seq<string>>, r: Reading): Reading {
    match r
    case Complete(more) => Complete(pages + more)
    case Broken(more) => Broken(pages + more)
  }

  function Concat(batches: seq<seq<string>>): seq<string> {
    if batches == [] then [] else Concat(batches[..|batches| - 1]) + batches[|batches| - 1]
  }

  /** Every batch but the last is full and none is empty. */
  predicate Chunked(batches: seq<seq<string>>) {
    && (forall i :: 0 <= i < |batches| ==> 0 < |batches[i]| <= DUMP_ID_CHUNK_SIZE)
    && forall i :: 0 <= i < |batches| - 1 ==> |batches[i]| == DUMP_ID_CHUNK_SIZE
  }

  predicate AllFull(batches: seq<seq<string>>) {
    forall i :: 0 <= i < |batches| ==> |batches[i]| == DUMP_ID_CHUNK_SIZE
  }

  lemma {:induction false} ConcatMore(a: seq<seq<string>>, b: seq<seq<string>>)
    ensures Concat(a + b) == Concat(a) + Concat(b)
  {
    if b == [] {
      assert a + b == a;
    } else {
      assert (a + b)[..|a + b| - 1] == a + b[..|b| - 1];
      ConcatMore(a, b[..|b| - 1]);
    }
  }

  lemma ConcatOne(a: seq<seq<string>>, l: seq<string>)
    ensures Concat(a + [l]) == Concat(a) + l
  {
    assert (a + [l])[..|a|] == a;
  }

  /** A list has only one chunking: each batch is the next five thousand ids. */
  lemma {:induction false} ChunkingIsUnique(a: seq<seq<string>>, b: seq<seq<string>>)
    requires Chunked(a) && Chunked(b) && Concat(a) == Concat(b)
    ensures a == b
    decreases |a|
  {
    if a == [] || b == [] {
      NoBatches(a);
      NoBatches(b);
    } else {
      FirstBatch(a);
      FirstBatch(b);
      assert a[0] == Concat(a)[..|a[0]|] && b[0] == Concat(b)[..|b[0]|];
      assert Concat(a[1..]) == Concat(a)[|a[0]|..] && Concat(b[1..]) == Concat(b)[|b[0]|..];
      ChunkingIsUnique(a[1..], b[1..]);
      assert a == [a[0]] + a[1..] && b == [b[0]] + b[1..];
    }
  }

  lemma {:induction false} FullLength(a: seq<seq<string>>)
    requires AllFull(a)
    ensures |Concat(a)| == |a| * DUMP_ID_CHUNK_SIZE
  {
    if a != [] {
      FullLength(a[..|a| - 1]);
    }
  }

  lemma IdsJoin(a: seq<string>, b: seq<string>)
    ensures Elements(a + b) == Elements(a) + Elements(b)
  {
  }

  lemma NoBatches(a: seq<seq<string>>)
    requires Chunked(a)
    ensures a == [] <==> Concat(a) == []
  {
    if a != [] {
      assert |a[|a| - 1]| > 0;
    }
  }

  lemma FirstBatch(a: seq<seq<string>>)
    requires Chunked(a) && a != []
    ensures Concat(a) == a[0] + Concat(a[1..]) && Chunked(a[1..])
    ensures |a[0]| == if |Concat(a)| < DUMP_ID_CHUNK_SIZE then |Concat(a)| else DUMP_ID_CHUNK_SIZE
  {
    assert a == [a[0]] + a[1..];
    assert [a[0]][..0] == [];
    assert Concat([a[0]]) == a[0];
    ConcatMore([a[0]], a[1..]);
    if |a| > 1 {
      assert |a[0]| == DUMP_ID_CHUNK_SIZE;
    } else {
      assert a[1..] == [];
    }
  }

  // ----- The dump -----

  /** The loop's variables: the shared buffer, the batches written, the count; each write may fail. */
  class DumpWriter {
    const store: DumpStore
    const dest: string
    const tmp: string
    const failsAt: nat -> bool
    var buffer: seq<string>
    var batches: seq<seq<string>>
    var total: nat
    var wroteAny: bool
    ghost var pages: seq<seq<string>>

    ghost predicate Valid()
      reads this, store
    {
      && Written() && AllFull(batches) && |buffer| < DUMP_ID_CHUNK_SIZE
      && Concat(batches) + buffer == Concat(pages)
      && total == |Concat(pages)| && (wroteAny <==> batches != [])
    }

    /** The dump key holds the batches written so far, none of which failed. */
    ghost predicate Written()
      reads this`batches, store
    {
      && store.Valid() && Plain(dest) && IsDumpOf(tmp, dest)
      && (batches == [] <==> tmp !in store.sets) && SetAt(store.sets, tmp) == Elements(Concat(batches))
      && forall i :: 0 <= i < |batches| ==> !failsAt(i)
    }

    constructor (store: DumpStore, dest: string, tmp: string, failsAt: nat -> bool)
      requires store.Valid() && Plain(dest) && IsDumpOf(tmp, dest) && tmp !in store.sets
      ensures Valid() && this.store == store && this.dest == dest && this.tmp == tmp && this.failsAt == failsAt
      ensures pages == []
    {
      this.store, this.dest, this.tmp, this.failsAt, buffer, batches := store, dest, tmp, failsAt, [], [];
      total, wroteAny, pages := 0, false, [];
    }

    method Flush(ids: seq<string>) returns (ok: bool)
      requires Written()
      modifies store`sets, this`batches
      ensures Written() && ok == !failsAt(|old(batches)|)
      ensures batches == if ok then old(batches) + [ids] else old(batches)
      ensures forall k :: k != tmp ==> SetAt(store.sets, k) == old(SetAt(store.sets, k))
    {
      if failsAt(|batches|) { return false; }
      ConcatOne(batches, ids);
      IdsJoin(Concat(batches), ids);
      hide Plain, IsDumpOf, OneToOne, Displays, Concat;
      store.AddToDump(dest, tmp, Elements(ids));
      batches := batches + [ids];
      return true;
    }

    /** A full buffer is written out and emptied. */
    method FlushFull() returns (ok: bool)
      requires Written() && AllFull(batches) && |buffer| == DUMP_ID_CHUNK_SIZE
      modifies store`sets, this`buffer, this`batches
      ensures Written() && forall k :: k != tmp ==> SetAt(store.sets, k) == old(SetAt(store.sets, k))
      ensures ok ==> AllFull(batches) && buffer == [] && batches != []
      ensures ok ==> Concat(batches) == old(Concat(batches) + buffer)
      ensures !ok ==> forall length :: length >= |old(Concat(batches) + buffer)| ==> FailsBefore(failsAt, length)
    {
      hide Plain, IsDumpOf, OneToOne, Displays, Concat;
      FullLength(batches);
      ConcatOne(batches, buffer);
      ok := Flush(buffer);
      if ok { buffer := []; }
    }

    /** The buffer never holds a full chunk between calls, so every round of the loop has room. */
    method AppendDumpIDs(page: seq<string>) returns (ok: bool, flushed: bool)
      requires Written() && AllFull(batches) && |buffer| < DUMP_ID_CHUNK_SIZE
      modifies store`sets, this`buffer, this`batches
      ensures Written() && forall k :: k != tmp ==> SetAt(store.sets, k) == old(SetAt(store.sets, k))
      ensures ok ==> AllFull(batches) && |buffer| < DUMP_ID_CHUNK_SIZE
      ensures ok ==> Concat(batches) + buffer == old(Concat(batches) + buffer) + page
      ensures ok ==> (batches != [] <==> old(batches) != [] || flushed)
      ensures !ok ==> FailsBefore(failsAt, |old(Concat(batches) + buffer) + page|)
    {
      hide Plain, IsDumpOf, OneToOne, Displays, Concat;
      var ids := page;
      ok, flushed := true, false;
      while ids != []
        invariant Written() && AllFull(batches) && |buffer| < DUMP_ID_CHUNK_SIZE
        invariant Concat(batches) + buffer + ids == old(Concat(batches) + buffer) + page
        invariant batches != [] <==> old(batches) != [] || flushed
        invariant forall k :: k != tmp ==> SetAt(store.sets, k) == old(SetAt(store.sets, k))
        decreases |ids|
      {
        var space := DUMP_ID_CHUNK_SIZE - |buffer|;
        if |ids| < space { space := |ids|; }
        ghost var rest := buffer + ids;
        buffer, ids := buffer + ids[..space], ids[space..];
        assert buffer + ids == rest;
        if |buffer| == DUMP_ID_CHUNK_SIZE {
          ok := FlushFull();
          if !ok { return; }
          flushed := true;
        }
      }
    }

    method AddPage(ids: seq<string>) returns (ok: bool)
      requires Valid()
      modifies store`sets, this
      ensures store.Valid() && forall k :: k != tmp ==> SetAt(store.sets, k) == old(SetAt(store.sets, k))
      ensures pages == old(pages) + [ids] && total == |Concat(pages)| && (ok ==> Valid())
      ensures !ok ==> FailsBefore(failsAt, |Concat(pages)|)
    {
      ConcatOne(pages, ids);
      hide OneToOne, Plain, IsDumpOf, Displays, Concat, AllFull, FailsBefore;
      pages, total, ok := pages + [ids], total + |ids|, true;
      if ids != [] {
        var flushed;
        ok, flushed := AppendDumpIDs(ids);
        wroteAny := wroteAny || flushed;
      }
    }

    /** The last, partial batch. */
    method FlushRest() returns (ok: bool)
      requires Valid()
      modifies store`sets, this
      ensures Written() && pages == old(pages) && total == old(total)
      ensures forall k :: k != tmp ==> SetAt(store.sets, k) == old(SetAt(store.sets, k))
      ensures ok ==> Chunked(batches) && Concat(batches) == Concat(pages) && (wroteAny <==> Concat(pages) != [])
      ensures ok <==> NoneFails(failsAt, BatchesFor(|Concat(pages)|))
    {
      hide OneToOne, Plain, IsDumpOf, Displays, Concat;
      FullLength(batches);
      ConcatOne(batches, buffer);
      ok := true;
      if buffer != [] {
        ok := Flush(buffer);
        wroteAny := true;
      }
    }
  }

  /** One of the full chunks of a list of this length fails. */
  predicate FailsBefore(failsAt: nat -> bool, length: nat) {
    exists n: nat | n < length / DUMP_ID_CHUNK_SIZE :: failsAt(n)
  }

  predicate NoneFails(failsAt: nat -> bool, n: nat) {
    forall i :: 0 <= i < n ==> !failsAt(i)
  }

  /** How many batches a list of this length needs. */
  function BatchesFor(length: nat): nat {
    (length + DUMP_ID_CHUNK_SIZE - 1) / DUMP_ID_CHUNK_SIZE
  }

  /** All pages into the writer. */
  method ReadPages(w: DumpWriter, answers: seq<Answer>) returns (ok: bool)
    requires w.Valid() && w.pages == []
    modifies w.store`sets, w
    ensures w.store.Valid() && forall k :: k != w.tmp ==> SetAt(w.store.sets, k) == old(SetAt(w.store.sets, k))
    ensures ok ==> w.Valid() && Read(answers, true) == Complete(w.pages)
    ensures !ok ==>
              || Read(answers, true).Broken?
              || !NoneFails(w.failsAt, BatchesFor(|Concat(Read(answers, true).pages)|))
  {
    var i, refreshed := 0, false;
    assert answers[0..] == answers;
    ReadCases(answers, true);
    hide OneToOne, Plain, IsDumpOf, Displays, Read, Concat, FailsBefore, NoneFails, BatchesFor, DumpWriter.Valid,
        DumpWriter.Written, Prepend;
    while i < |answers|
      invariant i <= |answers| && w.Valid() && w.store.Valid()
      invariant forall k :: k != w.tmp ==> SetAt(w.store.sets, k) == old(SetAt(w.store.sets, k))
      invariant Read(answers, true) == Prepend(w.pages, Read(answers[i..], !refreshed))
    {
      var answer, rest := answers[i], answers[i..];
      i := i + 1;
      assert rest[1..] == answers[i..];
      ReadCases(rest, !refreshed);
      BrokenStays(w.pages);
      if answer.Page? {
        ReadOne(w.pages, answer.ids, rest, !refreshed);
        ok := w.AddPage(answer.ids);
        FailsWithin(w.failsAt, w.pages, Read(answers, true).pages);
        if !ok || answer.last { return; }
      } else if answer == Unauthorized && !refreshed {
        refreshed := true;
      } else {
        return false;
      }
    }
    ReadCases(answers[i..], !refreshed);
    BrokenStays(w.pages);
    return false;
  }

  lemma BrokenStays(pages: seq<seq<string>>)
    ensures Prepend(pages, Broken([])).Broken?
  {
  }

  lemma ReadCases(answers: seq<Answer>, mayRefresh: bool)
    ensures answers == [] || answers[0].Failed? ==> Read(answers, mayRefresh) == Broken([])
    ensures answers != [] && answers[0] == Unauthorized ==>
              Read(answers, mayRefresh) == if mayRefresh then Read(answers[1..], false) else Broken([])
    ensures Prepend([], Read(answers, mayRefresh)) == Read(answers, mayRefresh)
  {
  }

  lemma ReadOne(pages: seq<seq<string>>, ids: seq<string>, answers: seq<Answer>, mayRefresh: bool)
    requires answers != [] && answers[0].Page? && answers[0].ids == ids
    ensures Prepend(pages, Read(answers, mayRefresh)) ==
            if answers[0].last then Complete(pages + [ids]) else Prepend(pages + [ids], Read(answers[1..], mayRefresh))
    ensures pages + [ids] <= Prepend(pages, Read(answers, mayRefresh)).pages
  {
    if !answers[0].last {
      assert pages + ([ids] + Read(answers[1..], mayRefresh).pages) == pages + [ids] +
          Read(answers[1..], mayRefresh).pages;
    }
  }

  /** A chunk that fails is one of the batches the whole list needs. */
  lemma FailsWithin(failsAt: nat -> bool, pages: seq<seq<string>>, all: seq<seq<string>>)
    requires pages <= all
    ensures FailsBefore(failsAt, |Concat(pages)|) ==> !NoneFails(failsAt, BatchesFor(|Concat(all)|))
  {
    assert all == pages + all[|pages|..];
    ConcatMore(pages, all[|pages|..]);
  }

  /** Everything up to the replacement of the set succeeds. */
  predicate Replaces(answers: seq<Answer>, failsAt: nat -> bool, finalizeFails: bool) {
    && Read(answers, true).Complete? && !finalizeFails
    && NoneFails(failsAt, BatchesFor(|Concat(Read(answers, true).pages)|))
  }

  /**
   The whole dump of one list. The set is replaced exactly when the last page arrives and every batch
   and the finalizing are written; otherwise it is as it was and the dump is gone. Updating the
   creator's record comes last, so the dump can fail although the set was replaced.
   */
  method DumpCurrent(store: DumpStore, dest: string, nanos: nat, answers: seq<Answer>, failsAt: nat -> bool,
                     finalizeFails: bool, done: nat, updateFails: bool)
    returns (ok: bool, total: nat, batches: seq<seq<string>>)
    requires store.Valid() && Plain(dest) && DumpKey(dest, nanos) !in store.sets
    modifies store
    ensures store.Valid() && store.OthersKeep(dest) && dest !in store.active
    ensures ok <==> Replaces(answers, failsAt, finalizeFails) && !updateFails
    ensures Replaces(answers, failsAt, finalizeFails) ==>
              && total == |Concat(Read(answers, true).pages)|
              && Chunked(batches) && Concat(batches) == Concat(Read(answers, true).pages)
              && (forall i :: 0 <= i < |batches| - 1 ==> |batches[i]| == 5000)
              && (batches != [] ==> 0 < |batches[|batches| - 1]| <= 5000)
              && SetAt(store.sets, dest) == Elements(Concat(Read(answers, true).pages))
    ensures !Replaces(answers, failsAt, finalizeFails) ==>
              DumpKey(dest, nanos) !in store.sets && SetAt(store.sets, dest) == old(SetAt(store.sets, dest))
  {
    var tmp := store.NewDump(dest, nanos);
    DestOfDump(store.active, store.byTmp, dest, tmp);
    hide OneToOne, Plain, IsDumpOf, Displays, Read, NoneFails, BatchesFor, Concat, Chunked;
    var hasData;
    ghost var sets := store.sets;
    ok, total, batches, hasData := Collect(store, dest, tmp, answers, failsAt);
    OthersEffect(sets, store.active, store.byTmp, store.sets, store.active, store.byTmp, dest, tmp);
    if ok { ChunkSizes(batches); }
    if ok && !finalizeFails { ok := store.FinalizeDump(dest, tmp, hasData, done); } else { ok := false; }
    if !ok {
      store.CleanupDump(dest, tmp);
      return;
    }
    ok := !updateFails;
  }

  method Collect(store: DumpStore, dest: string, tmp: string, answers: seq<Answer>, failsAt: nat -> bool)
    returns (ok: bool, total: nat, batches: seq<seq<string>>, hasData: bool)
    requires store.Valid() && Plain(dest) && IsDumpOf(tmp, dest) && tmp !in store.sets
    modifies store`sets
    ensures store.Valid() && forall k :: k != tmp ==> SetAt(store.sets, k) == old(SetAt(store.sets, k))
    ensures ok <==> Read(answers, true).Complete? && NoneFails(failsAt, BatchesFor(|Concat(Read(answers, true).pages)|))
    ensures ok ==> var ids := Concat(Read(answers, true).pages);
                   && total == |ids| && Chunked(batches) && Concat(batches) == ids && (hasData <==> ids != [])
                   && SetAt(store.sets, tmp) == Elements(ids) && (hasData <==> tmp in store.sets)
  {
    var w := new DumpWriter(store, dest, tmp, failsAt);
    hide OneToOne, Plain, IsDumpOf, Displays, Read, NoneFails, BatchesFor, Concat, FailsBefore;
    ok := ReadPages(w, answers);
    if ok { ok := w.FlushRest(); }
    total, batches, hasData := w.total, w.batches, w.wroteAny;
    if ok { NoBatches(batches); }
  }

  lemma ChunkSizes(batches: seq<seq<string>>)
    requires Chunked(batches)
    ensures forall i :: 0 <= i < |batches| - 1 ==> |batches[i]| == 5000
    ensures batches != [] ==> 0 < |batches[|batches| - 1]| <= 5000
  {
  }
}
