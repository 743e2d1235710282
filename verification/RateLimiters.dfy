/**
 The two limiters. The chat limiter hands out send slots and prunes old entries; the HTTP limiter
 counts requests in fixed windows. Both are compared with their whole call history.
 */
module RateLimiters {
  import opened RedisCommands

  // ----- Slots per chat -----

  const PRUNE_THRESHOLD := 1000
  const PRUNE_INTERVAL := 60_000_000_000

  datatype Call = Call(now: int, chat: int)

  /** The next free slot of a chat if nothing were ever pruned. */
  function NextFree(h: seq<Call>, interval: int, chat: int): Option<int>
    decreases |h|, 0
  {
    if h == [] then None
    else if h[|h| - 1].chat == chat then Some(SlotAfter(h[..|h| - 1], interval, h[|h| - 1]) + interval)
    else NextFree(h[..|h| - 1], interval, chat)
  }

  function SlotAfter(h: seq<Call>, interval: int, c: Call): int
    decreases |h|, 1
  {
    match NextFree(h, interval, c.chat)
    case Some(t) => if t > c.now then t else c.now
    case None => c.now
  }

  function SlotAt(h: seq<Call>, interval: int, i: nat): int
    requires i < |h|
  {
    SlotAfter(h[..i], interval, h[i])
  }

  ghost predicate LastCall(h: seq<Call>, chat: int, i: int) {
    0 <= i < |h| && h[i].chat == chat && forall j :: i < j < |h| ==> h[j].chat != chat
  }

  lemma LastOfInit(h: seq<Call>, interval: int, chat: int, i: nat)
    requires h != [] && h[|h| - 1].chat != chat && LastCall(h[..|h| - 1], chat, i)
    ensures LastCall(h, chat, i) && SlotAt(h[..|h| - 1], interval, i) == SlotAt(h, interval, i)
  {
    var init := h[..|h| - 1];
    assert init[..i] == h[..i] && forall j :: 0 <= j < |init| ==> init[j] == h[j];
  }

  lemma {:induction false} NextFreeIsLast(h: seq<Call>, interval: int, chat: int)
    ensures match NextFree(h, interval, chat)
            case None => forall i :: 0 <= i < |h| ==> h[i].chat != chat
            case Some(t) => exists i :: LastCall(h, chat, i) && t == SlotAt(h, interval, i) + interval
  {
    hide SlotAfter;
    if h != [] && h[|h| - 1].chat == chat {
      assert LastCall(h, chat, |h| - 1) && NextFree(h, interval, chat) == Some(SlotAt(h, interval, |h| - 1) + interval);
    } else if h != [] {
      var init := h[..|h| - 1];
      NextFreeIsLast(init, interval, chat);
      if NextFree(init, interval, chat).Some? {
        var t := NextFree(init, interval, chat).value;
        var i :| LastCall(init, chat, i) && t == SlotAt(init, interval, i) + interval;
        LastOfInit(h, interval, chat, i);
      } else {
        assert forall j :: 0 <= j < |init| ==> init[j] == h[j];
      }
    }
  }

  /** Two slots of one chat are at least the interval apart. */
  lemma {:induction false} SlotsAreApart(h: seq<Call>, interval: int, i: nat, j: nat)
    requires interval >= 0 && i < j < |h| && h[i].chat == h[j].chat
    ensures SlotAt(h, interval, j) >= SlotAt(h, interval, i) + interval
    decreases j
  {
    NextFreeIsLast(h[..j], interval, h[j].chat);
    assert h[..j][i] == h[i];
    var t := NextFree(h[..j], interval, h[j].chat).value;
    var k :| LastCall(h[..j], h[j].chat, k) && t == SlotAt(h[..j], interval, k) + interval;
    assert h[..j][..k] == h[..k];
    if i < k {
      SlotsAreApart(h, interval, i, k);
    }
  }

  /** A schedule that serves each chat's calls in order, not before they arrive and spaced apart. */
  predicate Feasible(h: seq<Call>, interval: int, slots: seq<int>) {
    && |slots| == |h|
    && (forall i :: 0 <= i < |h| ==> slots[i] >= h[i].now)
    && forall i, j :: 0 <= i < j < |h| && h[i].chat == h[j].chat ==> slots[j] >= slots[i] + interval
  }

  /** No such schedule is earlier at any call: the limiter delays nobody longer than needed. */
  lemma {:induction false} SlotsAreEarliest(h: seq<Call>, interval: int, slots: seq<int>, j: nat)
    requires Feasible(h, interval, slots) && j < |h|
    ensures SlotAt(h, interval, j) <= slots[j]
    decreases j
  {
    NextFreeIsLast(h[..j], interval, h[j].chat);
    if NextFree(h[..j], interval, h[j].chat).Some? {
      var t := NextFree(h[..j], interval, h[j].chat).value;
      var k :| LastCall(h[..j], h[j].chat, k) && t == SlotAt(h[..j], interval, k) + interval;
      assert h[..j][..k] == h[..k] && h[k].chat == h[j].chat;
      SlotsAreEarliest(h, interval, slots, k);
    }
  }

  // ----- The limiter, which prunes -----

  datatype Table = Table(next: map<int, int>, lastPrune: Option<int>)

  predicate PruneDue(t: Table, now: int) {
    |t.next| > PRUNE_THRESHOLD && (t.lastPrune == None || now - t.lastPrune.value >= PRUNE_INTERVAL)
  }

  function Pruned(t: Table, now: int): Table {
    if PruneDue(t, now) then Table(map chat | chat in t.next && t.next[chat] >= now :: t.next[chat], Some(now)) else t
  }

  /** The slot the limiter gives a call, and its table afterwards. */
  function Given(t: Table, c: Call): int {
    var next := Pruned(t, c.now).next;
    if c.chat in next && next[c.chat] > c.now then next[c.chat] else c.now
  }

  function Reserved(t: Table, interval: int, c: Call): Table {
    Table(Pruned(t, c.now).next[c.chat := Given(t, c) + interval], Pruned(t, c.now).lastPrune)
  }

  function TableAfter(h: seq<Call>, interval: int): Table {
    if h == [] then Table(map[], None) else Reserved(TableAfter(h[..|h| - 1], interval), interval, h[|h| - 1])
  }

  function GivenAt(h: seq<Call>, interval: int, i: nat): int
    requires i < |h|
  {
    Given(TableAfter(h[..i], interval), h[i])
  }

  /** The end of the interval after the slot the limiter itself last gave the chat. */
  function OwnNext(h: seq<Call>, interval: int, chat: int): Option<int> {
    if h == [] then None
    else if h[|h| - 1].chat == chat then Some(GivenAt(h, interval, |h| - 1) + interval)
    else OwnNext(h[..|h| - 1], interval, chat)
  }

  class ChatLimiter {
    const interval: int
    var perChatNext: map<int, int>
    var lastPrune: Option<int>
    ghost var history: seq<Call>

    ghost predicate Valid()
      reads this`perChatNext, this`lastPrune, this`history
    {
      Table(perChatNext, lastPrune) == TableAfter(history, interval)
    }

    constructor (interval: int)
      ensures Valid() && history == [] && this.interval == interval
    {
      this.interval, perChatNext, lastPrune, history := interval, map[], None, [];
    }

    /** The clock is read before the lock is taken, so `now` may be behind an earlier call's. */
    method ReserveChatDelay(now: int, chat: int) returns (delay: int)
      requires Valid()
      modifies this`perChatNext, this`lastPrune, this`history
      ensures Valid() && history == old(history) + [Call(now, chat)]
      ensures delay == GivenAt(history, interval, |history| - 1) - now && delay >= 0
      ensures var prunes := |old(perChatNext)| > 1000 &&
                            (old(lastPrune) == None || now - old(lastPrune).value >= 60_000_000_000);
              && lastPrune == (if prunes then Some(now) else old(lastPrune))
              && (forall id :: id != chat ==>
                    Get(perChatNext, id) == if prunes && id in old(perChatNext) && old(perChatNext)[id] < now then None
                                            else Get(old(perChatNext), id))
      ensures delay ==
                if chat in old(perChatNext) && old(perChatNext)[chat] > now then old(perChatNext)[chat] - now else 0
      ensures Get(perChatNext, chat) == Some(now + delay + interval)
    {
      hide NextFree, SlotAfter, OwnNext;
      ghost var was := history;
      if |perChatNext| > PRUNE_THRESHOLD && (lastPrune == None || now - lastPrune.value >= PRUNE_INTERVAL) {
        perChatNext := map id | id in perChatNext && perChatNext[id] >= now :: perChatNext[id];
        lastPrune := Some(now);
      }
      var base := now;
      if chat in perChatNext && perChatNext[chat] > base {
        base := perChatNext[chat];
      }
      perChatNext := perChatNext[chat := base + interval];
      history := history + [Call(now, chat)];
      assert history[..|history| - 1] == was;
      delay := base - now;
    }
  }

  // ----- When pruning is seen -----

  /** Since the chat's last call, at call `i`, the table was pruned of what ended before a time after `e`. */
  ghost predicate PrunesPast(h: seq<Call>, interval: int, chat: int, e: int, i: int) {
    && 0 <= i < |h| && PruneDue(TableAfter(h[..i], interval), h[i].now) && e < h[i].now
    && forall j :: i <= j < |h| ==> h[j].chat != chat
  }

  ghost predicate PrunedSince(h: seq<Call>, interval: int, chat: int, e: int) {
    exists i :: PrunesPast(h, interval, chat, e, i)
  }

  lemma PrunesPastMore(h: seq<Call>, interval: int, c: Call, chat: int, e: int, i: int)
    ensures PrunesPast(h + [c], interval, chat, e, i) <==>
            c.chat != chat && (PrunesPast(h, interval, chat, e, i) ||
                (i == |h| && PruneDue(TableAfter(h, interval), c.now) && e < c.now))
  {
    var h' := h + [c];
    if 0 <= i <= |h| {
      assert h'[..i] == h[..i] && h[..|h|] == h;
      assert h'[|h|] == c && forall j :: 0 <= j < |h| ==> h'[j] == h[j];
    }
  }

  lemma PrunedSinceMore(h: seq<Call>, interval: int, c: Call, chat: int, e: int)
    ensures PrunedSince(h + [c], interval, chat, e) <==>
            c.chat != chat && (PrunedSince(h, interval, chat, e) ||
                (PruneDue(TableAfter(h, interval), c.now) && e < c.now))
  {
    forall i
      ensures PrunesPast(h + [c], interval, chat, e, i) <==>
              c.chat != chat && (PrunesPast(h, interval, chat, e, i) ||
                  (i == |h| && PruneDue(TableAfter(h, interval), c.now) && e < c.now))
    {
      PrunesPastMore(h, interval, c, chat, e, i);
    }
    hide TableAfter, PrunesPast, PruneDue;
    if c.chat != chat {
      assert PruneDue(TableAfter(h, interval), c.now) && e < c.now ==> PrunesPast(h + [c], interval, chat, e, |h|);
      assert forall i :: PrunesPast(h, interval, chat, e, i) ==> PrunesPast(h + [c], interval, chat, e, i);
    }
  }

  lemma AfterMore(h: seq<Call>, interval: int, c: Call)
    ensures TableAfter(h + [c], interval) == Reserved(TableAfter(h, interval), interval, c)
    ensures forall chat :: OwnNext(h + [c], interval, chat) ==
                           if c.chat == chat then Some(Given(TableAfter(h, interval), c) + interval)
                               else OwnNext(h, interval, chat)
  {
    assert (h + [c])[..|h + [c]| - 1] == h;
  }

  /** The table holds every chat's own next slot except those pruned since the chat's last call. */
  lemma {:induction false} TableExact(h: seq<Call>, interval: int, chat: int)
    ensures var next := TableAfter(h, interval).next;
            match OwnNext(h, interval, chat)
            case None => chat !in next
            case Some(e) => (chat in next <==> !PrunedSince(h, interval, chat, e)) && (chat in next ==> next[chat] == e)
  {
    if h != [] {
      var init, c := h[..|h| - 1], h[|h| - 1];
      assert h == init + [c];
      TableExact(init, interval, chat);
      AfterMore(init, interval, c);
      forall e {
        PrunedSinceMore(init, interval, c, chat, e);
      }
      hide TableAfter, OwnNext, PrunedSince;
    }
  }

  /** The call's clock is behind the end of the chat's last interval, which was pruned by one ahead of it. */
  ghost predicate Overtaken(h: seq<Call>, interval: int, c: Call) {
    OwnNext(h, interval, c.chat).Some? &&
    c.now < OwnNext(h, interval, c.chat).value && PrunedSince(h, interval, c.chat, OwnNext(h, interval, c.chat).value)
  }

  /**
   For any history, clocks out of order included: the slot given is the call's time or the end of
   the chat's last interval, whichever is later, exactly unless the call was overtaken by a pruning.
   */
  lemma PruningIsSeenExactly(h: seq<Call>, interval: int, c: Call)
    ensures var due := match OwnNext(h, interval, c.chat) case Some(e) => if e > c.now then e else c.now case None =>
              c.now;
            Given(TableAfter(h, interval), c) != due <==> Overtaken(h, interval, c)
  {
    TableExact(h, interval, c.chat);
    hide TableAfter, OwnNext, PrunedSince;
  }

  /** No call of the history was overtaken by a pruning. */
  ghost predicate NeverOvertaken(h: seq<Call>, interval: int) {
    forall i :: 0 <= i < |h| ==> !Overtaken(h[..i], interval, h[i])
  }

  ghost predicate LikeUnpruned(h: seq<Call>, interval: int) {
    forall i :: 0 <= i < |h| ==> GivenAt(h, interval, i) == SlotAt(h, interval, i)
  }

  lemma {:induction false} SameNext(h: seq<Call>, interval: int, chat: int)
    requires LikeUnpruned(h, interval)
    ensures OwnNext(h, interval, chat) == NextFree(h, interval, chat)
  {
    if h != [] {
      var init := h[..|h| - 1];
      LikeInit(h, interval);
      SameNext(init, interval, chat);
    }
  }

  lemma LikeInit(h: seq<Call>, interval: int)
    requires h != []
    ensures LikeUnpruned(h, interval) <==>
            LikeUnpruned(h[..|h| - 1], interval) && GivenAt(h, interval, |h| - 1) == SlotAt(h, interval, |h| - 1)
  {
    var init := h[..|h| - 1];
    assert forall i :: 0 <= i < |init| ==> init[..i] == h[..i] && init[i] == h[i];
    hide Given, SlotAfter;
    assert forall i :: 0 <= i < |init| ==>
                         GivenAt(init, interval, i) == GivenAt(h, interval, i) &&
                             SlotAt(init, interval, i) == SlotAt(h, interval, i);
  }

  lemma NeverInit(h: seq<Call>, interval: int)
    requires h != []
    ensures NeverOvertaken(h, interval) <==>
            NeverOvertaken(h[..|h| - 1], interval) && !Overtaken(h[..|h| - 1], interval, h[|h| - 1])
  {
    var init := h[..|h| - 1];
    assert forall i :: 0 <= i < |init| ==> init[..i] == h[..i] && init[i] == h[i];
    hide Overtaken;
  }

  /** Every delay of a history is that of a map never pruned exactly when no call was overtaken. */
  lemma {:induction false} LikeUnprunedExactly(h: seq<Call>, interval: int)
    ensures LikeUnpruned(h, interval) <==> NeverOvertaken(h, interval)
  {
    if h != [] {
      var init, c := h[..|h| - 1], h[|h| - 1];
      LikeUnprunedExactly(init, interval);
      LikeInit(h, interval);
      NeverInit(h, interval);
      if LikeUnpruned(init, interval) {
        SameNext(init, interval, c.chat);
        PruningIsSeenExactly(init, interval, c);
      }
    }
  }

  /** In lock order the clock never runs back, so no call is overtaken. */
  lemma PruningIsSafe(h: seq<Call>, interval: int)
    requires forall i, j :: 0 <= i < j < |h| ==> h[i].now <= h[j].now
    ensures LikeUnpruned(h, interval)
  {
    forall i | 0 <= i < |h|
      ensures !Overtaken(h[..i], interval, h[i])
    {
      assert forall j :: 0 <= j < i ==> h[..i][j] == h[j];
    }
    LikeUnprunedExactly(h, interval);
  }

  // ----- A call that is overtaken -----

  /** The first calls of `n` chats, all at time 0. */
  function Opening(n: nat): seq<Call> {
    seq(n, i requires 0 <= i < n => Call(0, i))
  }

  function FirstChats(n: nat): (chats: set<int>)
    ensures forall chat :: chat in chats <==> 0 <= chat < n
  {
    if n == 0 then {} else FirstChats(n - 1) + {n - 1}
  }

  lemma {:induction false} OpeningTable(n: nat, interval: int)
    requires n <= PRUNE_THRESHOLD + 1
    ensures var t := TableAfter(Opening(n), interval);
            t.next.Keys == FirstChats(n) && |t.next| == n && t.lastPrune == None
  {
    if n > 0 {
      OpeningTable(n - 1, interval);
      assert Opening(n)[..n - 1] == Opening(n - 1) && Opening(n)[n - 1] == Call(0, n - 1);
      var t := TableAfter(Opening(n - 1), interval);
      assert TableAfter(Opening(n), interval) == Reserved(t, interval, Call(0, n - 1));
      assert n - 1 !in t.next && Pruned(t, 0) == t;
    }
  }

  lemma NextFreeMore(h: seq<Call>, interval: int, c: Call, chat: int)
    ensures NextFree(h + [c], interval, chat) ==
            if c.chat == chat then Some(SlotAfter(h, interval, c) + interval) else NextFree(h, interval, chat)
  {
    assert (h + [c])[..|h + [c]| - 1] == h;
  }

  lemma OpeningMore(n: nat)
    requires n > 0
    ensures Opening(n) == Opening(n - 1) + [Call(0, n - 1)]
  {
  }

  lemma NothingFree(interval: int, chat: int)
    ensures NextFree(Opening(0), interval, chat) == None
  {
    assert Opening(0) == [];
  }

  lemma OneMoreFree(n: nat, interval: int, chat: int)
    requires n > 0 && NextFree(Opening(n - 1), interval, chat) == if 0 <= chat < n - 1 then Some(interval) else None
    ensures NextFree(Opening(n), interval, chat) == if 0 <= chat < n then Some(interval) else None
  {
    hide NextFree, Opening;
    OpeningMore(n);
    NextFreeMore(Opening(n - 1), interval, Call(0, n - 1), chat);
  }

  lemma {:induction false} OpeningFree(n: nat, interval: int, chat: int)
    ensures NextFree(Opening(n), interval, chat) == if 0 <= chat < n then Some(interval) else None
  {
    hide NextFree, Opening, SlotAfter;
    if n == 0 {
      NothingFree(interval, chat);
    } else {
      OpeningFree(n - 1, interval, chat);
      OneMoreFree(n, interval, chat);
    }
  }

  /** The opening calls and one more, by another chat and ahead of the interval's end, which prunes. */
  function Race(ahead: int): seq<Call> {
    Opening(PRUNE_THRESHOLD + 1) + [Call(ahead, -1)]
  }

  lemma RaceNext(interval: int, ahead: int)
    requires interval < ahead
    ensures OwnNext(Race(ahead), interval, 0) == NextFree(Race(ahead), interval, 0) == Some(interval)
    ensures PrunedSince(Race(ahead), interval, 0, interval)
  {
    var start := Opening(PRUNE_THRESHOLD + 1);
    OpeningTable(PRUNE_THRESHOLD + 1, interval);
    OpeningFree(PRUNE_THRESHOLD + 1, interval, 0);
    PruningIsSafe(start, interval);
    SameNext(start, interval, 0);
    hide TableAfter, OwnNext, NextFree, PrunedSince, FirstChats, Opening, LikeUnpruned;
    AfterMore(start, interval, Call(ahead, -1));
    NextFreeMore(start, interval, Call(ahead, -1), 0);
    PrunedSinceMore(start, interval, Call(ahead, -1), 0, interval);
  }

  /**
   With more than a thousand chats, a call whose clock was read before the end of its chat's
   interval, but which gets the lock after a pruning from beyond it, is sent at once.
   */
  lemma OvertakenCall(interval: int, ahead: int, behind: int)
    requires behind < interval < ahead
    ensures Overtaken(Race(ahead), interval, Call(behind, 0))
    ensures Given(TableAfter(Race(ahead), interval), Call(behind, 0)) == behind
    ensures SlotAfter(Race(ahead), interval, Call(behind, 0)) == interval
  {
    RaceNext(interval, ahead);
    TableExact(Race(ahead), interval, 0);
    hide TableAfter, OwnNext, NextFree, PrunedSince, Race;
  }

  // ----- Requests per window -----

  /** One request: when, from where, in which window it was judged, and the answer. */
  datatype Request = Request(at: int, ip: string, window: int, allowed: bool)

  predicate From(r: Request, ip: Option<string>) {
    ip == None || ip == Some(r.ip)
  }

  /** Requests let through that were judged in the window starting at `start`. */
  function InWindow(log: seq<Request>, start: int, ip: Option<string>): nat {
    if log == [] then 0
    else InWindow(log[..|log| - 1], start, ip) +
         if log[|log| - 1].allowed && log[|log| - 1].window == start && From(log[|log| - 1], ip) then 1 else 0
  }

  /** Requests let through at times in [lo, hi). */
  function InSpan(log: seq<Request>, lo: int, hi: int, ip: Option<string>): nat {
    if log == [] then 0
    else InSpan(log[..|log| - 1], lo, hi, ip) +
         if log[|log| - 1].allowed && lo <= log[|log| - 1].at < hi && From(log[|log| - 1], ip) then 1 else 0
  }

  /** The places of the requests let through in a span of time, or judged in a window. */
  ghost function SpanPlaces(log: seq<Request>, lo: int, hi: int, ip: Option<string>): set<nat> {
    set i: nat | i < |log| && log[i].allowed && lo <= log[i].at < hi && (ip == None || ip == Some(log[i].ip))
  }

  ghost function WindowPlaces(log: seq<Request>, start: int, ip: Option<string>): set<nat> {
    set i: nat | i < |log| && log[i].allowed && log[i].window == start && (ip == None || ip == Some(log[i].ip))
  }

  lemma PlacesMore(log: seq<Request>, r: Request, lo: int, hi: int, start: int, ip: Option<string>)
    ensures SpanPlaces(log + [r], lo, hi, ip) == SpanPlaces(log, lo, hi, ip) +
              if r.allowed && lo <= r.at < hi && From(r, ip) then {|log|} else {}
    ensures WindowPlaces(log + [r], start, ip) == WindowPlaces(log, start, ip) +
              if r.allowed && r.window == start && From(r, ip) then {|log|} else {}
    ensures |log| !in SpanPlaces(log, lo, hi, ip) && |log| !in WindowPlaces(log, start, ip)
    ensures log == [] ==> SpanPlaces(log, lo, hi, ip) == {} && WindowPlaces(log, start, ip) == {}
  {
    assert forall i :: 0 <= i < |log| ==> (log + [r])[i] == log[i];
  }

  lemma {:induction false} CountsArePlaces(log: seq<Request>, lo: int, hi: int, start: int, ip: Option<string>)
    ensures InSpan(log, lo, hi, ip) == |SpanPlaces(log, lo, hi, ip)|
    ensures InWindow(log, start, ip) == |WindowPlaces(log, start, ip)|
  {
    hide SpanPlaces, WindowPlaces, From;
    if log == [] {
      PlacesMore(log, Request(0, "", 0, false), lo, hi, start, ip);
    } else {
      var init, r := log[..|log| - 1], log[|log| - 1];
      CountsArePlaces(init, lo, hi, start, ip);
      assert log == init + [r];
      PlacesMore(init, r, lo, hi, start, ip);
    }
  }

  function AtLeast0(n: int): nat {
    if n < 0 then 0 else n
  }

  /** Windows are at least `width` apart, a request lies in the window it was judged in, and time runs on. */
  ghost predicate Windowed(log: seq<Request>, width: int) {
    && (forall i :: 0 <= i < |log| ==> log[i].window <= log[i].at < log[i].window + width)
    && (forall i, j :: 0 <= i < j < |log| ==> log[i].at <= log[j].at)
    && (forall i, j :: 0 <= i < j < |log| && log[i].window != log[j].window ==>
                         log[i].at <= log[j].window && log[i].window + width <= log[j].window)
  }

  lemma {:induction false} SpanInWindows(log: seq<Request>, lo: int, hi: int, ip: Option<string>, a: int, b: int)
    requires forall i :: 0 <= i < |log| && lo <= log[i].at < hi ==> log[i].window == a || log[i].window == b
    ensures InSpan(log, lo, hi, ip) <= InWindow(log, a, ip) + InWindow(log, b, ip)
  {
    if log != [] {
      SpanInWindows(log[..|log| - 1], lo, hi, ip, a, b);
    }
  }

  /** A span of one window's width meets two windows at most. */
  lemma TwoWindows(log: seq<Request>, width: int, lo: int) returns (a: int, b: int)
    requires Windowed(log, width)
    ensures forall i :: 0 <= i < |log| && lo <= log[i].at < lo + width ==> log[i].window == a || log[i].window == b
  {
    var first := FirstFrom(log, lo);
    a := if first < |log| then log[first].window else 0;
    b := a;
    if second :| first < second < |log| && log[second].window != a && log[second].at < lo + width {
      b := log[second].window;
      assert log[first].at <= log[second].window;
    }
  }

  function FirstFrom(log: seq<Request>, lo: int): (i: nat)
    ensures i <= |log| && (i < |log| ==> lo <= log[i].at) && forall j :: 0 <= j < i ==> log[j].at < lo
  {
    if log == [] then 0
    else
      var init := log[..|log| - 1];
      var i := FirstFrom(init, lo);
      assert forall j :: 0 <= j < |init| ==> init[j] == log[j];
      if i < |init| then i else if log[|log| - 1].at >= lo then |init| else |log|
  }

  // ----- Sums over the per-IP table -----

  ghost function Total(m: map<string, int>): int
    decreases |m|
  {
    if m == map[] then 0
    else
      var ip :| ip in m;
      m[ip] + Total(m - {ip})
  }

  lemma {:induction false} TotalWithout(m: map<string, int>, ip: string)
    requires ip in m
    ensures Total(m) == m[ip] + Total(m - {ip})
    decreases |m|
  {
    var k :| k in m && Total(m) == m[k] + Total(m - {k});
    if k != ip {
      TotalWithout(m - {k}, ip);
      TotalWithout(m - {ip}, k);
      assert m - {k} - {ip} == m - {ip} - {k};
    }
  }

  lemma TotalUpdate(m: map<string, int>, ip: string, n: int)
    ensures Total(m[ip := n]) == Total(m) - (if ip in m then m[ip] else 0) + n
  {
    TotalWithout(m[ip := n], ip);
    assert m[ip := n] - {ip} == m - {ip};
    if ip in m {
      TotalWithout(m, ip);
    } else {
      assert m - {ip} == m;
    }
  }

  ghost predicate Ordered(log: seq<Request>, width: int, start: int) {
    && Windowed(log, width)
    && forall i :: 0 <= i < |log| ==>
         log[i].window == start || (log[i].window + width <= start && log[i].at <= start)
  }

  function CountFor(perIP: map<string, int>, ip: string): int {
    if ip in perIP then perIP[ip] else 0
  }

  ghost predicate Counts(log: seq<Request>, start: int, globalCount: int, perIP: map<string, int>) {
    && globalCount == InWindow(log, start, None)
    && (forall ip :: CountFor(perIP, ip) == InWindow(log, start, Some(ip)))
    && Total(perIP) == globalCount
  }

  ghost predicate WithinLimits(log: seq<Request>, globalLimit: int, perIPLimit: int) {
    && (forall start :: InWindow(log, start, None) <= AtLeast0(globalLimit))
    && (forall start, ip :: InWindow(log, start, Some(ip)) <= AtLeast0(perIPLimit))
  }

  lemma InWindowMore(log: seq<Request>, start: int, ip: Option<string>, r: Request)
    ensures InWindow(log + [r], start, ip) == InWindow(log, start, ip) + if r.allowed && r.window == start &&
              From(r, ip) then 1 else 0
  {
    assert (log + [r])[..|log + [r]| - 1] == log;
  }

  lemma RollCounts(log: seq<Request>, width: int, start: int, now: int)
    requires Ordered(log, width, start) && width > 0 && now - start >= width && forall i :: 0 <= i < |log| ==>
              log[i].at <= now
    ensures Ordered(log, width, now) && Counts(log, now, 0, map[])
  {
    NothingAfter(log, now, None);
    hide InWindow;
    forall ip
      ensures InWindow(log, now, Some(ip)) == 0
    {
      NothingAfter(log, now, Some(ip));
    }
  }

  lemma OrderedMore(log: seq<Request>, width: int, r: Request)
    requires Ordered(log, width, r.window) && r.window <= r.at < r.window + width
    requires forall i :: 0 <= i < |log| ==> log[i].at <= r.at
    ensures Ordered(log + [r], width, r.window)
  {
    var all := log + [r];
    forall i, j | 0 <= i < j < |all|
      ensures all[i].at <= all[j].at
      ensures all[i].window != all[j].window ==>
                all[i].at <= all[j].window && all[i].window + width <= all[j].window
    {
      assert all[i] == log[i] && (if j < |log| then all[j] == log[j] else all[j] == r);
    }
  }

  /** A refused request leaves the counts; an admitted one adds one to two of them, below both limits. */
  lemma CountsMore(log: seq<Request>, r: Request, count: int, perIP: map<string, int>, globalLimit: int,
      perIPLimit: int)
    requires Counts(log, r.window, count, perIP) && WithinLimits(log, globalLimit, perIPLimit)
    requires r.allowed ==> count < globalLimit && CountFor(perIP, r.ip) < perIPLimit
    ensures WithinLimits(log + [r], globalLimit, perIPLimit)
    ensures if r.allowed then Counts(log + [r], r.window, count + 1, perIP[r.ip := CountFor(perIP, r.ip) + 1])
            else Counts(log + [r], r.window, count, perIP)
  {
    TotalUpdate(perIP, r.ip, CountFor(perIP, r.ip) + 1);
    hide InWindow, Total;
    forall start, ip
      ensures InWindow(log + [r], start, ip) == InWindow(log, start, ip) + if r.allowed && r.window == start &&
                From(r, ip) then 1 else 0
    {
      InWindowMore(log, start, ip, r);
    }
  }

  class FixedWindowLimiter {
    var windowStart: int
    var globalCount: int
    var perIP: map<string, int>
    const globalLimit: int
    const perIPLimit: int
    const window: int
    ghost var log: seq<Request>

    /** The counters are the history of the current window, and every window so far kept the limits. */
    ghost predicate Valid()
      reads this
    {
      && window > 0 && Ordered(log, window, windowStart)
      && Counts(log, windowStart, globalCount, perIP)
      && WithinLimits(log, globalLimit, perIPLimit)
    }

    constructor (globalLimit: int, perIPLimit: int, window: int, now: int)
      requires window > 0
      ensures Valid() && log == [] && windowStart == now
      ensures this.globalLimit == globalLimit && this.perIPLimit == perIPLimit && this.window == window
    {
      this.globalLimit, this.perIPLimit, this.window := globalLimit, perIPLimit, window;
      windowStart, globalCount, perIP, log := now, 0, map[], [];
    }

    method Allow(now: int, ip: string) returns (ok: bool)
      requires Valid() && windowStart <= now && forall i :: 0 <= i < |log| ==> log[i].at <= now
      modifies this
      ensures Valid() && windowStart <= now
      ensures windowStart == if now - old(windowStart) >= window then now else old(windowStart)
      ensures log == old(log) + [Request(now, ip, windowStart, ok)]
      ensures ok <==>
                && InWindow(old(log), windowStart, None) < globalLimit
                && InWindow(old(log), windowStart, Some(ip)) < perIPLimit
      ensures ok <==>
                && |WindowPlaces(old(log), windowStart, None)| < globalLimit
                && |WindowPlaces(old(log), windowStart, Some(ip))| < perIPLimit
    {
      hide Ordered, Counts, WithinLimits;
      if now - windowStart >= window {
        RollCounts(log, window, windowStart, now);
        windowStart, globalCount, perIP := now, 0, map[];
      }
      CountsAre(log, windowStart, globalCount, perIP, ip);
      ok := globalCount < globalLimit && CountFor(perIP, ip) < perIPLimit;
      ghost var r := Request(now, ip, windowStart, ok);
      OrderedMore(log, window, r);
      CountsMore(log, r, globalCount, perIP, globalLimit, perIPLimit);
      if ok {
        globalCount := globalCount + 1;
        perIP := perIP[ip := CountFor(perIP, ip) + 1];
      }
      CountsArePlaces(log, 0, 0, windowStart, None);
      CountsArePlaces(log, 0, 0, windowStart, Some(ip));
      log := log + [r];
    }
  }

  lemma CountsAre(log: seq<Request>, start: int, count: int, perIP: map<string, int>, ip: string)
    requires Counts(log, start, count, perIP)
    ensures count == InWindow(log, start, None) && CountFor(perIP, ip) == InWindow(log, start, Some(ip))
  {
  }

  lemma {:induction false} NothingAfter(log: seq<Request>, start: int, ip: Option<string>)
    requires forall i :: 0 <= i < |log| ==> log[i].window != start
    ensures InWindow(log, start, ip) == 0
  {
    if log != [] {
      NothingAfter(log[..|log| - 1], start, ip);
    }
  }

  /** Any span of one window's width lets through at most twice each limit. */
  lemma TwiceTheLimit(l: FixedWindowLimiter, lo: int, ip: string)
    requires l.Valid()
    ensures |SpanPlaces(l.log, lo, lo + l.window, None)| <= 2 * AtLeast0(l.globalLimit)
    ensures |SpanPlaces(l.log, lo, lo + l.window, Some(ip))| <= 2 * AtLeast0(l.perIPLimit)
  {
    CountsArePlaces(l.log, lo, lo + l.window, lo, None);
    CountsArePlaces(l.log, lo, lo + l.window, lo, Some(ip));
    hide SpanPlaces, WindowPlaces, Counts;
    var a, b := TwoWindows(l.log, l.window, lo);
    SpanInWindows(l.log, lo, lo + l.window, None, a, b);
    SpanInWindows(l.log, lo, lo + l.window, Some(ip), a, b);
  }

  lemma InSpanMore(log: seq<Request>, lo: int, hi: int, ip: Option<string>, r: Request)
    ensures InSpan(log + [r], lo, hi, ip) == InSpan(log, lo, hi, ip) + if r.allowed && lo <= r.at < hi && From(r, ip)
              then 1 else 0
  {
    assert (log + [r])[..|log + [r]| - 1] == log;
  }

  ghost predicate UpTo(log: seq<Request>, now: int) {
    forall i :: 0 <= i < |log| ==> log[i].at <= now
  }

  ghost predicate NoneIn(log: seq<Request>, window: int) {
    forall i :: 0 <= i < |log| ==> log[i].window != window
  }

  lemma LogMore(log: seq<Request>, r: Request)
    ensures UpTo(log, r.at) ==> UpTo(log + [r], r.at)
    ensures forall window :: window != r.window && NoneIn(log, window) ==> NoneIn(log + [r], window)
  {
  }

  lemma NothingLogged(now: int, window: int)
    ensures UpTo([], now) && NoneIn([], window)
  {
  }

  lemma StillUpTo(log: seq<Request>, now: int, later: int)
    requires UpTo(log, now) && now <= later
    ensures UpTo(log, later)
  {
  }

  function WindowOf(start: int, width: int, now: int): int {
    if now - start >= width then now else start
  }

  /** `n` requests of one address at one time, in a window that has room for them, are all let through. */
  method Burst(l: FixedWindowLimiter, now: int, ip: string, n: nat, lo: int, hi: int)
    requires l.Valid() && l.windowStart <= now && lo <= now < hi && n <= l.globalLimit && n <= l.perIPLimit
    requires UpTo(l.log, now) && NoneIn(l.log, WindowOf(l.windowStart, l.window, now))
    modifies l
    ensures l.Valid() && UpTo(l.log, now)
    ensures l.windowStart == if n == 0 then old(l.windowStart) else WindowOf(old(l.windowStart), l.window, now)
    ensures forall w :: w != WindowOf(old(l.windowStart), l.window, now) && NoneIn(old(l.log), w) ==> NoneIn(l.log, w)
    ensures InSpan(l.log, lo, hi, None) == old(InSpan(l.log, lo, hi, None)) + n
    ensures InSpan(l.log, lo, hi, Some(ip)) == old(InSpan(l.log, lo, hi, Some(ip))) + n
  {
    ghost var w := WindowOf(l.windowStart, l.window, now);
    NothingAfter(l.log, w, None);
    NothingAfter(l.log, w, Some(ip));
    hide InWindow, InSpan, FixedWindowLimiter.Valid, NoneIn;
    for i := 0 to n
      invariant l.Valid() && l.windowStart == (if i == 0 then old(l.windowStart) else w) && UpTo(l.log, now)
      invariant forall v :: v != w && NoneIn(old(l.log), v) ==> NoneIn(l.log, v)
      invariant InWindow(l.log, w, None) == InWindow(l.log, w, Some(ip)) == i
      invariant InSpan(l.log, lo, hi, None) == old(InSpan(l.log, lo, hi, None)) + i
      invariant InSpan(l.log, lo, hi, Some(ip)) == old(InSpan(l.log, lo, hi, Some(ip))) + i
    {
      ghost var was := l.log;
      var ok := l.Allow(now, ip);
      ghost var r := Request(now, ip, w, ok);
      LogMore(was, r);
      InWindowMore(was, w, None, r);
      InWindowMore(was, w, Some(ip), r);
      InSpanMore(was, lo, hi, None, r);
      InSpanMore(was, lo, hi, Some(ip), r);
    }
  }

  /** Twice is reached, for every pair of limits and every width: a burst at a window's end and one as
      the next begins. */
  method TwiceIsReached(globalLimit: nat, perIPLimit: nat, window: int, ip: string) returns (l: FixedWindowLimiter)
    requires window >= 2
    ensures l.Valid() && l.globalLimit == globalLimit && l.perIPLimit == perIPLimit && l.window == window
    ensures var n := if globalLimit <= perIPLimit then globalLimit else perIPLimit;
            && InSpan(l.log, window - 1, window - 1 + window, None) == 2 * n
            && InSpan(l.log, window - 1, window - 1 + window, Some(ip)) == 2 * n
  {
    hide FixedWindowLimiter.Valid, NoneIn, UpTo;
    l := new FixedWindowLimiter(globalLimit, perIPLimit, window, 0);
    var n := if globalLimit <= perIPLimit then globalLimit else perIPLimit;
    NothingLogged(window - 1, 0);
    NothingLogged(window - 1, window);
    Burst(l, window - 1, ip, n, window - 1, window - 1 + window);
    StillUpTo(l.log, window - 1, window);
    Burst(l, window, ip, n, window - 1, window - 1 + window);
  }
}
