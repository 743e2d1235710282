/** What backups and restores do to the keys of the store, each named by its text. */
module BackupKeys {
  import opened RedisCommands
  import opened BackupProtocol
  import opened BackupAgreement
  import opened BackupTheorems
  import opened ExportedKeys

  /** Over every run, no uploaded entry is about a login state, a lock, the backup's own keys or a dump. */
  lemma NothingPassingIsExported(start: State, steps: seq<Step>, o: BackupObject, e: Entry)
    requires Init(start) && start.job.entries == [] && ValidRun(start, steps)
    requires o in Run(start, steps).archive.objects && e in o.entries
    ensures "imsub:" <= e.key
    ensures !("imsub:oauth:" <= e.key) && !("imsub:backup:" <= e.key)
    ensures !("imsub:cleanup_job_lock:" <= e.key) && !("imsub:sub_end_grace_lock:" <= e.key)
    ensures forall id, rest :: e.key != "imsub:creator:subscribers:" + id + ":tmp:" + rest
    ensures forall id, rest :: e.key != "imsub:creator:blocked:" + id + ":tmp:" + rest
  {
    RunExportsOnly(start, steps);
    ExportedExactly(e.key);
    forall id, rest
      ensures e.key != "imsub:creator:subscribers:" + id + ":tmp:" + rest
      ensures e.key != "imsub:creator:blocked:" + id + ":tmp:" + rest
    {
      PassingKeysDropped(id, rest);
    }
  }

  /** The exported part of a keyspace, spelled out. */
  lemma ExportedPartExactly(s: Keyspace)
    ensures forall k :: Get(ExportedPart(s), k) ==
                        if && "imsub:" <= k
                           && !("imsub:oauth:" <= k) && !("imsub:backup:" <= k)
                           && !("imsub:cleanup_job_lock:" <= k) && !("imsub:sub_end_grace_lock:" <= k)
                           && !(&& ("imsub:creator:subscribers:" <= k || "imsub:creator:blocked:" <= k)
                                && exists i | 0 <= i <= |k| :: ":tmp:" <= k[i..])
                        then Get(s, k) else None
  {
    forall k {
      ExportedExactly(k);
    }
  }

  /** After a clean quiescent run every kind of lasting key is restored to the store's value. */
  lemma CleanRunRestoresKeys(start: State, steps: seq<Step>, id: string)
    requires Init(start) && start.job.entries == [] && ValidRun(start, steps) && CleanRun(start, steps)
    requires Quiescent(Run(start, steps)) && Run(start, steps).archive.base.Some?
    ensures var s := Run(start, steps);
            var image := Restored(s.archive.objects, s.archive.base.value);
            && Get(image, "imsub:user:" + id) == Get(s.store, "imsub:user:" + id)
            && Get(image, "imsub:user:groups:tracked:" + id) == Get(s.store, "imsub:user:groups:tracked:" + id)
            && Get(image, "imsub:twitch_to_tg:" + id) == Get(s.store, "imsub:twitch_to_tg:" + id)
            && Get(image, "imsub:users") == Get(s.store, "imsub:users")
            && Get(image, "imsub:group:" + id) == Get(s.store, "imsub:group:" + id)
            && Get(image, "imsub:groups") == Get(s.store, "imsub:groups")
            && Get(image, "imsub:groups:by_creator:" + id) == Get(s.store, "imsub:groups:by_creator:" + id)
            && Get(image, "imsub:cleanup_job:" + id) == Get(s.store, "imsub:cleanup_job:" + id)
            && Get(image, "imsub:cleanup_jobs:" + id) == Get(s.store, "imsub:cleanup_jobs:" + id)
            && Get(image, "imsub:sub_end_grace:" + id) == Get(s.store, "imsub:sub_end_grace:" + id)
            && Get(image, "imsub:privacy:" + id) == Get(s.store, "imsub:privacy:" + id)
            && Get(image, "imsub:oauth:" + id) == None && Get(image, "imsub:cleanup_job_lock:" + id) == None
            && Get(image, "imsub:sub_end_grace_lock:" + id) == None && Get(image, "imsub:backup:" + id) == None
  {
    CleanRunRestoresExactly(start, steps);
    UserKeysKept(id);
    GroupKeysKept(id);
    JobKeysKept(id);
    OwnKeysKept(id);
    PassingKeysDropped(id, "");
    hide Run, ValidRun, CleanRun, Quiescent, Restored, IsExportedKey;
  }

  lemma CleanRunRestoresCreators(start: State, steps: seq<Step>, id: string)
    requires Init(start) && start.job.entries == [] && ValidRun(start, steps) && CleanRun(start, steps)
    requires Quiescent(Run(start, steps)) && Run(start, steps).archive.base.Some? && ':' !in id
    ensures var s := Run(start, steps);
            var image := Restored(s.archive.objects, s.archive.base.value);
            && Get(image, "imsub:creator:" + id) == Get(s.store, "imsub:creator:" + id)
            && Get(image, "imsub:creators") == Get(s.store, "imsub:creators")
            && Get(image, "imsub:creator:by_owner:" + id) == Get(s.store, "imsub:creator:by_owner:" + id)
            && Get(image, "imsub:creator:subscribers:" + id) == Get(s.store, "imsub:creator:subscribers:" + id)
            && Get(image, "imsub:creator:blocked:" + id) == Get(s.store, "imsub:creator:blocked:" + id)
            && forall rest :: Get(image, "imsub:creator:subscribers:" + id + ":tmp:" + rest) == None
                              && Get(image, "imsub:creator:blocked:" + id + ":tmp:" + rest) == None
  {
    CleanRunRestoresExactly(start, steps);
    CreatorKeysKept(id);
    forall rest {
      PassingKeysDropped(id, rest);
    }
    hide Run, ValidRun, CleanRun, Quiescent, Restored, IsExportedKey;
  }

  /**
   Which commands drop no mark, told from the store before and after them: every one except a link
   that changes something and a removal that empties a set or hash which a backup keeps.
   */
  lemma CleanWriteExactly(s: State, w: nat, c: Command)
    requires Enabled(s, Write(w, c))
    ensures var after := Execute(s.store, c).after;
            Clean(s, Write(w, c)) <==>
              match c
              case LinkScript(_, _, _) => after == s.store
              case SetRemove(key, _) => key in s.store && IsExportedKey(key) ==> key in after
              case HashDelete(key, _) => key in s.store && IsExportedKey(key) ==> key in after
              case _ => true
  {
    match c
    case LinkScript(telegramID, twitchID, profile) => LinkChangesSilently(s.store, telegramID, twitchID, profile);
    case SetRemove(key, members) => RemovalEmpties(s.store, key, members);
    case HashDelete(key, names) => DeletionEmpties(s.store, key, names);
    case _ =>
  }

  lemma LinkChangesSilently(s: Keyspace, telegramID: string, twitchID: string, profile: map<string, string>)
    requires Execute(s, LinkScript(telegramID, twitchID, profile)).Applied?
    ensures SilentKeys(s, LinkScript(telegramID, twitchID, profile)) == {} <==>
            Execute(s, LinkScript(telegramID, twitchID, profile)).after == s
  {
    var c := LinkScript(telegramID, twitchID, profile);
    var after := Execute(s, c).after;
    UserKeysKept(telegramID);
    UserKeysKept(twitchID);
    LinkKeysDiffer(telegramID, twitchID);
    hide IsExportedKey;
    forall key | IsExportedKey(key) {
      SilentKeysExact(s, c, key);
    }
    if after == s {
      assert forall key :: key !in SilentKeys(s, c);
    } else if SilentKeys(s, c) == {} {
      assert forall key :: Get(after, key) == Get(s, key);
      SameLookups(after, s);
    }
  }

  lemma OneExported(key: string)
    ensures ExportedOf({key}) == if IsExportedKey(key) then {key} else {}
  {
  }

  lemma RemovalEmpties(s: Keyspace, key: string, members: set<string>)
    requires Execute(s, SetRemove(key, members)).Applied?
    ensures SilentKeys(s, SetRemove(key, members)) == {} <==>
            (key in s && IsExportedKey(key) ==> key in Execute(s, SetRemove(key, members)).after)
  {
    hide IsExportedKey;
    if !(MembersAt(s, key) <= members) {
      var m :| m in MembersAt(s, key) && m !in members;
      assert m in MembersAt(s, key) - members;
    } else {
      assert MembersAt(s, key) - members == {};
    }
    OneExported(key);
  }

  lemma DeletionEmpties(s: Keyspace, key: string, names: set<string>)
    requires Execute(s, HashDelete(key, names)).Applied?
    ensures SilentKeys(s, HashDelete(key, names)) == {} <==>
            (key in s && IsExportedKey(key) ==> key in Execute(s, HashDelete(key, names)).after)
  {
    hide IsExportedKey;
    if !(FieldsAt(s, key).Keys <= names) {
      var f :| f in FieldsAt(s, key).Keys && f !in names;
      assert f in FieldsAt(s, key) - names;
    } else {
      assert FieldsAt(s, key) - names == map[];
    }
    OneExported(key);
  }

  /** Any other command marks every kept key it changes: dirty where it leaves a value, else deleted. */
  lemma ChangesAreMarked(s: Keyspace, c: Command, key: string)
    requires Execute(s, c).Applied? && !c.LinkScript? && IsExportedKey(key)
    requires Get(s, key) != Get(Execute(s, c).after, key)
    ensures key in Execute(s, c).after ==> key in TouchedKeys(c).dirty
    ensures key !in Execute(s, c).after && (c.Delete? || c.Rename?) ==> key in TouchedKeys(c).deleted
    ensures key !in Execute(s, c).after ==> c.Delete? || c.Rename? || c.SetRemove? || c.HashDelete?
  {
    SilentKeysExact(s, c, key);
  }
}
