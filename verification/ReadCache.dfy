/**
 The in-process list cache. Readers take a generation, read the index and then each hash in
 separate commands, and store the list only if no invalidation came in between; writers invalidate
 after their write. The groups list and the creators list are two instances.
 */
module ReadCache {
  import opened RedisCommands
  import opened Decimals

  // ----- The cache object -----

  const CACHE_TTL := 300

  class ListCache<T> {
    var gen: nat
    var list: seq<T>
    var at: int
    var isSet: bool

    constructor ()
      ensures gen == 0 && !isSet
    {
      gen, list, at, isSet := 0, [], 0, false;
    }

    /** What a reader at time `now` is served. */
    function Served(now: int): Option<seq<T>>
      reads this
    {
      if isSet && now - at < CACHE_TTL then Some(list) else None
    }

    method Cached(now: int) returns (l: seq<T>, g: nat, ok: bool)
      ensures g == gen && Served(now) == if ok then Some(l) else None
    {
      if isSet && now - at < CACHE_TTL { return list, gen, true; }
      return [], gen, false;
    }

    method Store(g: nat, l: seq<T>, now: int)
      modifies this
      ensures gen == old(gen)
      ensures forall t :: Served(t) == if g != gen then old(Served(t)) else if t - now < 300 then Some(l) else None
    {
      if gen != g { return; }
      list, at, isSet := l, now, true;
    }

    method Invalidate()
      modifies this
      ensures gen == old(gen) + 1 && forall t :: Served(t) == None
    {
      gen, list, isSet := gen + 1, [], false;
    }
  }

  // ----- Which keys invalidate which list -----

  const GROUPS_KEY := "imsub:groups"
  const CREATORS_KEY := "imsub:creators"

  predicate PlainChildOf(key: string, prefix: string) {
    HasPrefix(key, prefix) && |key| > |prefix| && ':' !in key[|prefix|..]
  }

  predicate IsManagedGroupHashKey(key: string) { PlainChildOf(key, "imsub:group:") }

  predicate IsCreatorHashKey(key: string) { PlainChildOf(key, "imsub:creator:") }

  predicate GroupsSource(key: string) { key == GROUPS_KEY || IsManagedGroupHashKey(key) }

  predicate CreatorsSource(key: string) { key == CREATORS_KEY || IsCreatorHashKey(key) }

  /** The keys that the lists are loaded from: both index sets and every hash behind them. */
  lemma LoadedKeysAreSources(chat: int, creator: string)
    requires creator != "" && ':' !in creator
    ensures GroupsSource("imsub:groups") && GroupsSource("imsub:group:" + FormatInt(chat))
    ensures CreatorsSource("imsub:creators") && CreatorsSource("imsub:creator:" + creator)
  {
    FormatHasNoColon(chat);
    FormatNatShape(if chat < 0 then -chat else chat);
    ChildIsPlain("imsub:group:", FormatInt(chat));
    ChildIsPlain("imsub:creator:", creator);
  }

  lemma ChildIsPlain(prefix: string, id: string)
    requires id != "" && ':' !in id
    ensures PlainChildOf(prefix + id, prefix)
  {
    assert (prefix + id)[|prefix|..] == id;
  }

  /** And nothing but these: other keys of a group or a creator have one more colon. */
  lemma SourcesAre(key: string)
    ensures GroupsSource(key) <==>
              key == "imsub:groups" || exists id :: id != "" && ':' !in id && key == "imsub:group:" + id
    ensures CreatorsSource(key) <==>
              key == "imsub:creators" || exists id :: id != "" && ':' !in id && key == "imsub:creator:" + id
  {
    PlainChildrenAre(key, "imsub:group:");
    PlainChildrenAre(key, "imsub:creator:");
  }

  lemma PlainChildrenAre(key: string, prefix: string)
    ensures PlainChildOf(key, prefix) <==> exists id :: id != "" && ':' !in id && key == prefix + id
  {
    if PlainChildOf(key, prefix) {
      assert key == prefix + key[|prefix|..];
    }
    if id :| id != "" && ':' !in id && key == prefix + id {
      ChildIsPlain(prefix, id);
    }
  }

  lemma PrefixChar(key: string, prefix: string, i: nat)
    requires i < |prefix|
    ensures HasPrefix(key, prefix) ==> |key| > i && key[i] == prefix[i]
  {
  }

  lemma SourceKeyLetters(key: string)
    requires GroupsSource(key) || CreatorsSource(key)
    ensures HasPrefix(key, "imsub:") && |key| > 7 && (key[6] == 'g' || (key[6] == 'c' && key[7] == 'r'))
  {
    PrefixChar(key, "imsub:group:", 6);
    PrefixChar(key, "imsub:creator:", 6);
    PrefixChar(key, "imsub:creator:", 7);
  }

  /** A subscribers or blocked key has a second colon after the creator id. */
  lemma SourceKeyIsNoDump(key: string)
    requires GroupsSource(key) || CreatorsSource(key)
    ensures !IsTemporaryDumpKey(key)
  {
    PrefixChar(key, "imsub:creator:subscribers:", 25);
    PrefixChar(key, "imsub:creator:blocked:", 21);
    PrefixChar(key, "imsub:creator:subscribers:", 6);
    PrefixChar(key, "imsub:creator:blocked:", 6);
    if IsCreatorHashKey(key) {
      assert |"imsub:creator:"| == 14;
      forall i | 14 <= i < |key|
        ensures key[i] != ':'
      {
        assert key[i] == key[14..][i - 14];
      }
    } else if IsManagedGroupHashKey(key) {
      PrefixChar(key, "imsub:group:", 6);
    } else {
      assert |key| <= 14;
    }
  }

  lemma OtherPrefix(key: string, prefix: string, i: nat)
    requires i < |prefix| && i < |key| && key[i] != prefix[i]
    ensures !HasPrefix(key, prefix)
  {
  }

  lemma OtherLetter(key: string, id: string)
    requires |key| > 7 && (key[6] == 'g' || key[6] == 'c')
    ensures key != IdentityKey(id) && key != ReverseKey(id)
  {
    assert IdentityKey(id)[6] == 'u' && ReverseKey(id)[6] == 't';
  }

  lemma SourceKeysExported(key: string)
    requires GroupsSource(key) || CreatorsSource(key)
    ensures IsExportedKey(key) && key != USERS_KEY
    ensures forall id :: key != IdentityKey(id) && key != ReverseKey(id)
  {
    SourceKeyLetters(key);
    SourceKeyIsNoDump(key);
    hide IsTemporaryDumpKey, GroupsSource, CreatorsSource, HasPrefix, IdentityKey, ReverseKey;
    OtherPrefix(key, "imsub:backup:", 6);
    OtherPrefix(key, "imsub:cleanup_job_lock:", if key[6] == 'g' then 6 else 7);
    OtherPrefix(key, "imsub:sub_end_grace_lock:", 6);
    OtherPrefix(key, "imsub:oauth:", 6);
    forall id {
      OtherLetter(key, id);
    }
  }

  /** Every successful command that changes a source of a cached list leads the hook to invalidate
      that list, even one whose backup mark is of the wrong sort. */
  lemma WritesInvalidate(s: Keyspace, c: Command, key: string)
    requires Execute(s, c).Applied? && Get(Execute(s, c).after, key) != Get(s, key)
    requires GroupsSource(key) || CreatorsSource(key)
    ensures key in TouchedKeys(c).dirty + TouchedKeys(c).deleted
  {
    SourceKeysExported(key);
  }

  // ----- The protocol -----

  /** `ids` is the index as read, `got` the hashes read so far. */
  datatype Reader<K, V> = Reader(gen: nat, ids: Option<set<K>>, got: map<K, Option<V>>)

  datatype State<K, V> = State(
    index: set<K>, hashes: map<K, V>,
    gen: nat, cached: Option<map<K, V>>,
    readers: map<nat, Reader<K, V>>,
    pending: set<nat>)

  datatype Step<K, V> =
    | Write(w: nat, index: set<K>, hashes: map<K, V>)   // any command or transaction of writer w
    | Invalidate(w: nat, last: bool)                    // its hook, once per touched source key
    | BeginRead(r: nat)
    | ReadIndex(r: nat)
    | ReadHash(r: nat, id: K)
    | StoreList(r: nat)
    | GiveUp(r: nat)
    | Expire

  predicate Enabled<K, V(==)>(s: State<K, V>, step: Step<K, V>) {
    match step
    case Write(_, _, _) => true
    case Invalidate(w, _) => w in s.pending
    case BeginRead(r) => r !in s.readers && s.cached == None
    case ReadIndex(r) => r in s.readers && s.readers[r].ids == None
    case ReadHash(r, id) =>
        r in s.readers && s.readers[r].ids.Some? && id in s.readers[r].ids.value && id !in s.readers[r].got
    case StoreList(r) => r in s.readers && s.readers[r].ids.Some? && s.readers[r].ids.value == s.readers[r].got.Keys
    case GiveUp(r) => r in s.readers
    case Expire => true
  }

  /** The list a reader ends up with: hashes found missing are skipped. */
  function ListOf<K, V>(got: map<K, Option<V>>): map<K, V> {
    map k | k in got && got[k].Some? :: got[k].value
  }

  function Do<K, V(==)>(s: State<K, V>, step: Step<K, V>): State<K, V>
    requires Enabled(s, step)
  {
    match step
    case Write(w, index, hashes) => s.(index := index, hashes := hashes, pending := s.pending + {w})
    case Invalidate(w, last) =>
      s.(gen := s.gen + 1, cached := None, pending := if last then s.pending - {w} else s.pending)
    case BeginRead(r) => s.(readers := s.readers[r := Reader(s.gen, None, map[])])
    case ReadIndex(r) => s.(readers := s.readers[r := s.readers[r].(ids := Some(s.index))])
    case ReadHash(r, id) =>
      s.(readers := s.readers[r := s.readers[r].(got := s.readers[r].got[id := Get(s.hashes, id)])])
    case StoreList(r) =>
      s.(cached := if s.readers[r].gen == s.gen then Some(ListOf(s.readers[r].got)) else s.cached,
         readers := s.readers - {r})
    case GiveUp(r) => s.(readers := s.readers - {r})
    case Expire => s.(cached := None)
  }

  predicate ValidRun<K, V(==)>(s: State<K, V>, steps: seq<Step<K, V>>)
    decreases steps
  {
    steps == [] || (Enabled(s, steps[0]) && ValidRun(Do(s, steps[0]), steps[1..]))
  }

  function Run<K, V(==)>(s: State<K, V>, steps: seq<Step<K, V>>): State<K, V>
    requires ValidRun(s, steps)
    decreases steps
  {
    if steps == [] then s else Run(Do(s, steps[0]), steps[1..])
  }

  predicate Init<K, V>(s: State<K, V>) {
    s.gen == 0 && s.cached.None? && s.readers == map[] && s.pending == {}
  }

  /** A load that no write interrupts. */
  function Fresh<K, V>(s: State<K, V>): map<K, V> {
    map k | k in s.index && k in s.hashes :: s.hashes[k]
  }

  // ----- Coherence -----

  predicate UpToDate<K, V(==)>(s: State<K, V>, r: Reader<K, V>) {
    && (r.ids.None? ==> r.got == map[])
    && (r.ids.Some? ==> r.ids.value == s.index)
    && (forall k :: k in r.got ==> k in s.index && r.got[k] == Get(s.hashes, k))
  }

  predicate Coherent<K, V(==)>(s: State<K, V>) {
    && (forall r :: r in s.readers ==> s.readers[r].gen <= s.gen)
    && (s.pending == {} ==>
          && (s.cached.Some? ==> s.cached.value == Fresh(s))
          && (forall r :: r in s.readers && s.readers[r].gen == s.gen ==> UpToDate(s, s.readers[r])))
  }

  lemma StepCoherent<K, V>(s: State<K, V>, step: Step<K, V>)
    requires Coherent(s) && Enabled(s, step)
    ensures Coherent(Do(s, step))
  {
    var s' := Do(s, step);
    match step
    case StoreList(r) =>
      if s.pending == {} && s.readers[r].gen == s.gen {
        assert UpToDate(s, s.readers[r]);
        assert ListOf(s.readers[r].got) == Fresh(s');
      }
    case _ =>
  }

  lemma {:induction false} RunCoherent<K, V>(s: State<K, V>, steps: seq<Step<K, V>>)
    requires Coherent(s) && ValidRun(s, steps)
    ensures Coherent(Run(s, steps))
    decreases steps
  {
    if steps != [] {
      StepCoherent(s, steps[0]);
      RunCoherent(Do(s, steps[0]), steps[1..]);
    }
  }

  /** Whenever a list is cached and no write waits for its invalidation, the list is what a fresh read returns. */
  lemma CachedListIsFresh<K, V>(start: State<K, V>, steps: seq<Step<K, V>>)
    requires Init(start) && ValidRun(start, steps)
    ensures var s := Run(start, steps);
            s.cached.Some? && s.pending == {} ==> s.cached.value == Fresh(s)
  {
    RunCoherent(start, steps);
  }

  // ----- Torn loads -----

  predicate Outdated<K, V>(s: State<K, V>, r: nat) {
    r in s.readers ==> s.readers[r].gen < s.gen
  }

  predicate NeverRestarts<K, V>(steps: seq<Step<K, V>>, r: nat) {
    forall i :: 0 <= i < |steps| ==> !(steps[i].BeginRead? && steps[i].r == r)
  }

  lemma {:induction false} StaysOutdated<K, V>(s: State<K, V>, steps: seq<Step<K, V>>, r: nat)
    requires Outdated(s, r) && ValidRun(s, steps) && NeverRestarts(steps, r)
    ensures Outdated(Run(s, steps), r)
    decreases steps
  {
    if steps != [] {
      StaysOutdated(Do(s, steps[0]), steps[1..], r);
    }
  }

  /** A load under way at a write's invalidation never reaches the cache, however late it ends. */
  lemma TornLoadNeverStored<K, V>(s: State<K, V>, w: nat, last: bool, steps: seq<Step<K, V>>, r: nat)
    requires Coherent(s) && r in s.readers && Enabled(s, Invalidate(w, last))
    requires ValidRun(Do(s, Invalidate(w, last)), steps) && NeverRestarts(steps, r)
    requires Enabled(Run(Do(s, Invalidate(w, last)), steps), StoreList(r))
    ensures var t := Run(Do(s, Invalidate(w, last)), steps);
            Do(t, StoreList(r)).cached == t.cached
  {
    StaysOutdated(Do(s, Invalidate(w, last)), steps, r);
  }
}
