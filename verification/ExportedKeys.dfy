/** Which keys a backup keeps, by name: the store's own keys, locks, login states and dumps. */
module ExportedKeys {
  import opened RedisCommands

  lemma ExportedExactly(key: string)
    ensures IsExportedKey(key) <==>
            && "imsub:" <= key
            && !("imsub:oauth:" <= key) && !("imsub:backup:" <= key)
            && !("imsub:cleanup_job_lock:" <= key) && !("imsub:sub_end_grace_lock:" <= key)
            && !(&& ("imsub:creator:subscribers:" <= key || "imsub:creator:blocked:" <= key)
                 && exists i | 0 <= i <= |key| :: ":tmp:" <= key[i..])
  {
  }

  lemma Differs(key: string, prefix: string, i: nat)
    requires i < |prefix| && i < |key| && key[i] != prefix[i]
    ensures !(prefix <= key)
  {
  }

  /** A key whose seventh letter begins none of the excluded prefixes. */
  lemma KeptByLetter(key: string)
    requires "imsub:" <= key && |key| > 6 && key[6] !in {'o', 'b', 'c', 's'}
    ensures IsExportedKey(key)
  {
    hide IsTemporaryDumpKey;
    assert !HasPrefix(key, "imsub:oauth:") by { Differs(key, "imsub:oauth:", 6); }
    assert !HasPrefix(key, "imsub:backup:") by { Differs(key, "imsub:backup:", 6); }
    assert !HasPrefix(key, "imsub:cleanup_job_lock:") by { Differs(key, "imsub:cleanup_job_lock:", 6); }
    assert !HasPrefix(key, "imsub:sub_end_grace_lock:") by { Differs(key, "imsub:sub_end_grace_lock:", 6); }
    NoDumpByLetter(key, 6);
  }

  lemma NoDumpByLetter(key: string, i: nat)
    requires i < 14 && i < |key| && key[i] != "imsub:creator:"[i]
    ensures !IsTemporaryDumpKey(key)
  {
    assert "imsub:creator:subscribers:"[i] == "imsub:creator:"[i] == "imsub:creator:blocked:"[i];
    Differs(key, "imsub:creator:subscribers:", i);
    Differs(key, "imsub:creator:blocked:", i);
  }

  lemma UserKeysKept(id: string)
    ensures IsExportedKey("imsub:user:" + id) && IsExportedKey("imsub:user:groups:tracked:" + id)
    ensures IsExportedKey("imsub:twitch_to_tg:" + id) && IsExportedKey("imsub:users")
  {
    hide IsExportedKey;
    KeptByLetter("imsub:user:" + id);
    KeptByLetter("imsub:user:groups:tracked:" + id);
    KeptByLetter("imsub:twitch_to_tg:" + id);
    KeptByLetter("imsub:users");
  }

  /** A group's hash, its member sets and its tags. */
  lemma GroupKeysKept(id: string)
    ensures IsExportedKey("imsub:group:" + id)
    ensures IsExportedKey("imsub:groups") && IsExportedKey("imsub:groups:by_creator:" + id)
  {
    hide IsExportedKey;
    KeptByLetter("imsub:group:" + id);
    KeptByLetter("imsub:groups");
    KeptByLetter("imsub:groups:by_creator:" + id);
  }

  lemma NoTmp(prefix: string, id: string)
    requires prefix != "" && ':' !in id
    requires forall i :: 0 <= i < |prefix| - 1 && prefix[i] == ':' ==> prefix[i + 1] != 't'
    ensures !Contains(prefix + id, ":tmp:")
  {
    var key := prefix + id;
    assert forall j :: |prefix| <= j < |key| ==> key[j] == id[j - |prefix|];
    forall i | 0 <= i <= |key|
      ensures !(":tmp:" <= key[i..])
    {
      if i + 4 < |key| {
        assert key[i..][0] == key[i] && key[i..][1] == key[i + 1] && key[i..][4] == key[i + 4];
      }
    }
  }

  lemma CreatorKeysKept(id: string)
    requires ':' !in id
    ensures IsExportedKey("imsub:creator:" + id) && IsExportedKey("imsub:creators")
    ensures IsExportedKey("imsub:creator:by_owner:" + id)
    ensures IsExportedKey("imsub:creator:subscribers:" + id) && IsExportedKey("imsub:creator:blocked:" + id)
  {
    hide Contains, HasPrefix, IsExportedKey;
    NoTmp("imsub:creator:", id);
    NoTmp("imsub:creator:by_owner:", id);
    NoTmp("imsub:creator:subscribers:", id);
    NoTmp("imsub:creator:blocked:", id);
    NoTmp("imsub:creators", "");
    CreatorKeyKept("imsub:creator:" + id);
    CreatorKeyKept("imsub:creator:by_owner:" + id);
    CreatorKeyKept("imsub:creator:subscribers:" + id);
    CreatorKeyKept("imsub:creator:blocked:" + id);
    assert "imsub:creators" + "" == "imsub:creators";
    CreatorKeyKept("imsub:creators");
  }

  lemma CreatorKeyKept(key: string)
    requires "imsub:cr" <= key && !Contains(key, ":tmp:")
    ensures IsExportedKey(key)
  {
    Differs(key, "imsub:oauth:", 6);
    Differs(key, "imsub:backup:", 6);
    Differs(key, "imsub:cleanup_job_lock:", 7);
    Differs(key, "imsub:sub_end_grace_lock:", 6);
  }

  lemma JobKeysKept(id: string)
    ensures IsExportedKey("imsub:cleanup_job:" + id) && IsExportedKey("imsub:cleanup_jobs:" + id)
    ensures IsExportedKey("imsub:sub_end_grace:" + id)
  {
    hide IsExportedKey;
    JobKeyKept("imsub:cleanup_job:" + id);
    JobKeyKept("imsub:cleanup_jobs:" + id);
    GraceKeyKept("imsub:sub_end_grace:" + id);
  }

  lemma JobKeyKept(key: string)
    requires "imsub:cl" <= key && |key| > 17 && key[17] != '_'
    ensures IsExportedKey(key)
  {
    Differs(key, "imsub:oauth:", 6);
    Differs(key, "imsub:backup:", 6);
    Differs(key, "imsub:cleanup_job_lock:", 17);
    Differs(key, "imsub:sub_end_grace_lock:", 6);
    NoDumpByLetter(key, 7);
  }

  lemma GraceKeyKept(key: string)
    requires "imsub:s" <= key && |key| > 19 && key[19] != '_'
    ensures IsExportedKey(key)
  {
    Differs(key, "imsub:oauth:", 6);
    Differs(key, "imsub:backup:", 6);
    Differs(key, "imsub:cleanup_job_lock:", 6);
    Differs(key, "imsub:sub_end_grace_lock:", 19);
    NoDumpByLetter(key, 6);
  }

  lemma OwnKeysKept(id: string)
    ensures IsExportedKey("imsub:privacy:" + id) && IsExportedKey("imsub:eventmsg:" + id)
    ensures IsExportedKey("imsub:metrics:" + id)
  {
    hide IsExportedKey;
    KeptByLetter("imsub:privacy:" + id);
    KeptByLetter("imsub:eventmsg:" + id);
    KeptByLetter("imsub:metrics:" + id);
  }

  lemma PassingKeysDropped(id: string, rest: string)
    ensures !IsExportedKey("imsub:oauth:" + id) && !IsExportedKey("imsub:backup:" + id)
    ensures !IsExportedKey("imsub:cleanup_job_lock:" + id) && !IsExportedKey("imsub:sub_end_grace_lock:" + id)
    ensures !IsExportedKey("imsub:creator:subscribers:" + id + ":tmp:" + rest)
    ensures !IsExportedKey("imsub:creator:blocked:" + id + ":tmp:" + rest)
  {
    HoldsTmp("imsub:creator:subscribers:" + id, rest);
    HoldsTmp("imsub:creator:blocked:" + id, rest);
  }

  lemma HoldsTmp(dest: string, rest: string)
    ensures Contains(dest + ":tmp:" + rest, ":tmp:")
  {
    assert (dest + ":tmp:" + rest)[|dest|..] == ":tmp:" + rest;
  }

  lemma NamedKeys()
    ensures forall id :: IsExportedKey("imsub:user:" + id)
    ensures forall k :: IsExportedKey(k) ==>
                          && !("imsub:oauth:" <= k) && !("imsub:backup:" <= k)
                          && !("imsub:cleanup_job_lock:" <= k) && !("imsub:sub_end_grace_lock:" <= k)
  {
    forall id
      ensures IsExportedKey("imsub:user:" + id)
    {
      UserKeysKept(id);
    }
    forall k {
      ExportedExactly(k);
    }
  }
}
