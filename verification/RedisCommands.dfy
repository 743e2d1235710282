/**
 The keyspace the store writes to, the commands it sends, and the tracking hook's
 classification of each command into dirty and deleted keys.
 */
module RedisCommands {

  datatype Option<+T> = None | Some(value: T)

  datatype Value = Text(text: string) | Members(members: set<string>) | Fields(fields: map<string, string>)

  type Keyspace = map<string, Value>

  /** A write to one key leaves every other key alone; `LinkScript` is the one server-side script. */
  datatype Command =
    | Read(key: string)
    | SetText(key: string, text: string)
    | SetAdd(key: string, members: set<string>)
    | SetRemove(key: string, members: set<string>)
    | HashSet(key: string, fields: map<string, string>)
    | HashDelete(key: string, names: set<string>)
    | Delete(keys: set<string>)
    | Rename(src: string, dst: string)
    | LinkScript(telegramID: string, twitchID: string, profile: map<string, string>)

  /** What the client sees: an error leaves the keyspace as it was, and the hook skips the command. */
  datatype Reply = Failed | Applied(after: Keyspace)

  function Get<K, V>(m: map<K, V>, k: K): Option<V> {
    if k in m then Some(m[k]) else None
  }

  // ----- Keys -----

  predicate HasPrefix(key: string, prefix: string) {
    prefix <= key
  }

  predicate Contains(key: string, part: string) {
    exists i | 0 <= i <= |key| :: part <= key[i..]
  }

  predicate IsTemporaryDumpKey(key: string) {
    && Contains(key, ":tmp:")
    && (HasPrefix(key, "imsub:creator:subscribers:") || HasPrefix(key, "imsub:creator:blocked:"))
  }

  predicate IsExportedKey(key: string) {
    && HasPrefix(key, "imsub:")
    && !HasPrefix(key, "imsub:backup:")
    && !HasPrefix(key, "imsub:cleanup_job_lock:")
    && !HasPrefix(key, "imsub:sub_end_grace_lock:")
    && !HasPrefix(key, "imsub:oauth:")
    && !IsTemporaryDumpKey(key)
  }

  function IdentityKey(telegramID: string): string { "imsub:user:" + telegramID }

  function ReverseKey(twitchID: string): string { "imsub:twitch_to_tg:" + twitchID }

  const USERS_KEY := "imsub:users"

  lemma LinkKeysDiffer(telegramID: string, twitchID: string)
    ensures IdentityKey(telegramID) != ReverseKey(twitchID)
    ensures IdentityKey(telegramID) != USERS_KEY && ReverseKey(twitchID) != USERS_KEY
  {
    assert IdentityKey(telegramID)[6] != ReverseKey(twitchID)[6];
    assert IdentityKey(telegramID)[10] != USERS_KEY[10];
    assert ReverseKey(twitchID)[6] != USERS_KEY[6];
  }

  // ----- Command semantics -----

  /** Redis drops a set or hash that has no element left. */
  function Put(s: Keyspace, key: string, v: Value): Keyspace {
    if v == Members({}) || v == Fields(map[]) then s - {key} else s[key := v]
  }

  function MembersAt(s: Keyspace, key: string): set<string> {
    if key in s && s[key].Members? then s[key].members else {}
  }

  function FieldsAt(s: Keyspace, key: string): map<string, string> {
    if key in s && s[key].Fields? then s[key].fields else map[]
  }

  predicate HoldsMembers(s: Keyspace, key: string) {
    key in s ==> s[key].Members?
  }

  predicate HoldsFields(s: Keyspace, key: string) {
    key in s ==> s[key].Fields?
  }

  function Execute(s: Keyspace, c: Command): Reply {
    match c
    case Read(_) => Applied(s)
    case SetText(key, text) => Applied(s[key := Text(text)])
    case SetAdd(key, members) =>
      if members == {} || !HoldsMembers(s, key) then Failed
      else Applied(Put(s, key, Members(MembersAt(s, key) + members)))
    case SetRemove(key, members) =>
      if members == {} || !HoldsMembers(s, key) then Failed
      else Applied(Put(s, key, Members(MembersAt(s, key) - members)))
    case HashSet(key, fields) =>
      if fields == map[] || !HoldsFields(s, key) then Failed
      else Applied(Put(s, key, Fields(FieldsAt(s, key) + fields)))
    case HashDelete(key, names) =>
      if names == {} || !HoldsFields(s, key) then Failed
      else Applied(Put(s, key, Fields(FieldsAt(s, key) - names)))
    case Delete(keys) => if keys == {} then Failed else Applied(s - keys)
    case Rename(src, dst) =>
      if src !in s then Failed else Applied((s - {src})[dst := s[src]])
    case LinkScript(telegramID, twitchID, profile) => ExecuteLink(s, telegramID, twitchID, profile)
  }

  /** The script that links a viewer: refuses another Twitch identity, else writes three keys. */
  function ExecuteLink(s: Keyspace, telegramID: string, twitchID: string, profile: map<string, string>): Reply {
    var existing := FieldsAt(s, IdentityKey(telegramID));
    if !HoldsFields(s, IdentityKey(telegramID)) || !HoldsMembers(s, USERS_KEY) then Failed
    else if "twitch_user_id" in existing && existing["twitch_user_id"] != "" && existing["twitch_user_id"] != twitchID
        then Failed
    else
      Applied(s[IdentityKey(telegramID) := Fields(existing + profile + map["twitch_user_id" := twitchID])]
               [ReverseKey(twitchID) := Text(telegramID)]
               [USERS_KEY := Members(MembersAt(s, USERS_KEY) + {telegramID})])
  }

  // ----- The tracking hook's classification -----

  datatype Touched = Touched(dirty: set<string>, deleted: set<string>)

  function ExportedOf(keys: set<string>): (r: set<string>)
    ensures forall k :: k in r <==> k in keys && IsExportedKey(k)
  {
    set k | k in keys && IsExportedKey(k)
  }

  /** The hook sees command names and key arguments only; an EVALSHA matches no case. */
  function TouchedKeys(c: Command): Touched {
    match c
    case Read(_) => Touched({}, {})
    case Delete(keys) => Touched({}, ExportedOf(keys))
    case Rename(src, dst) => Touched(ExportedOf({dst}), ExportedOf({src}))
    case SetText(key, _) => Touched(ExportedOf({key}), {})
    case SetAdd(key, _) => Touched(ExportedOf({key}), {})
    case SetRemove(key, _) => Touched(ExportedOf({key}), {})
    case HashSet(key, _) => Touched(ExportedOf({key}), {})
    case HashDelete(key, _) => Touched(ExportedOf({key}), {})
    case LinkScript(_, _, _) => Touched({}, {})
  }

  /** A key the command left with another value is accounted for by a mark of the right sort. */
  ghost predicate MarkedFor(t: Touched, after: Keyspace, key: string) {
    if key in after then key in t.dirty else key in t.deleted
  }

  /** Keys a successful command changes behind the hook's back, read off its arguments beforehand. */
  function SilentKeys(s: Keyspace, c: Command): set<string> {
    match c
    case SetRemove(key, members) =>
      if key in s && MembersAt(s, key) <= members then ExportedOf({key}) else {}
    case HashDelete(key, names) =>
      if key in s && FieldsAt(s, key).Keys <= names then ExportedOf({key}) else {}
    case LinkScript(telegramID, twitchID, profile) =>
      var fields := FieldsAt(s, IdentityKey(telegramID));
      ExportedOf(
        (if IdentityKey(telegramID) in s && fields == fields + profile + map["twitch_user_id" := twitchID]
         then {} else {IdentityKey(telegramID)}) +
        (if Get(s, ReverseKey(twitchID)) == Some(Text(telegramID)) then {} else {ReverseKey(twitchID)}) +
        (if USERS_KEY in s && telegramID in MembersAt(s, USERS_KEY) then {} else {USERS_KEY}))
    case _ => {}
  }

  /** A changed key escapes the marks exactly when it is one of `SilentKeys`. */
  lemma SilentKeysExact(s: Keyspace, c: Command, key: string)
    requires Execute(s, c).Applied? && IsExportedKey(key)
    ensures key in SilentKeys(s, c) <==>
            (Get(s, key) != Get(Execute(s, c).after, key) && !MarkedFor(TouchedKeys(c), Execute(s, c).after, key))
  {
    match c
    case SetRemove(k, members) =>
      assert MembersAt(s, k) <= members ==> MembersAt(s, k) - members == {};
      if !(MembersAt(s, k) <= members) {
        var m :| m in MembersAt(s, k) && m !in members;
        assert m in MembersAt(s, k) - members;
      }
    case HashDelete(k, names) =>
      if !(FieldsAt(s, k).Keys <= names) {
        var f :| f in FieldsAt(s, k).Keys && f !in names;
        assert f in FieldsAt(s, k) - names;
      }
    case LinkScript(telegramID, twitchID, profile) =>
      LinkKeysDiffer(telegramID, twitchID);
      var members := MembersAt(s, USERS_KEY);
      assert members + {telegramID} == members <==> telegramID in members;
    case _ =>
  }
}
