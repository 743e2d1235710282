/** Member tags: cleaning a tag up, and reconciling the tags a group shows with the tags it should show. */
module MemberTags {
  import opened RedisCommands
  import opened IndexSets

  // ----- Cleaning up one tag -----

  const MAX_TAG_RUNES := 16

  predicate IsSpace(c: char) {
    || '\t' <= c <= '\r' || c == ' ' || c == '\U{85}' || c == '\U{A0}' || c == '\U{1680}'
    || '\U{2000}' <= c <= '\U{200A}' || c == '\U{2028}' || c == '\U{2029}' || c == '\U{202F}' || c == '\U{205F}' ||
        c == '\U{3000}'
  }

  function TrimLeft(s: string): string {
    if s != "" && IsSpace(s[0]) then TrimLeft(s[1..]) else s
  }

  function TrimRight(s: string): string {
    if s != "" && IsSpace(s[|s| - 1]) then TrimRight(s[..|s| - 1]) else s
  }

  function Trim(s: string): string {
    TrimRight(TrimLeft(s))
  }

  function Sanitize(tag: string): string {
    var t := Trim(tag);
    if |t| <= MAX_TAG_RUNES then t else Trim(t[..MAX_TAG_RUNES])
  }

  predicate Trimmed(s: string) {
    s != "" ==> !IsSpace(s[0]) && !IsSpace(s[|s| - 1])
  }

  /** The tags that survive cleaning unchanged. */
  predicate Sanitized(tag: string) {
    Trimmed(tag) && |tag| <= MAX_TAG_RUNES
  }

  lemma {:induction false} TrimLeftShape(s: string)
    ensures TrimLeft(s) != "" ==> !IsSpace(TrimLeft(s)[0]) && TrimLeft(s)[|TrimLeft(s)| - 1] == s[|s| - 1]
    ensures |TrimLeft(s)| <= |s| && (TrimLeft(s) == s <==> s == "" || !IsSpace(s[0]))
    ensures (forall c :: c in s ==> IsSpace(c)) <==> TrimLeft(s) == ""
  {
    if s != "" && IsSpace(s[0]) {
      TrimLeftShape(s[1..]);
      assert s == [s[0]] + s[1..];
    }
  }

  lemma {:induction false} TrimRightShape(s: string)
    ensures TrimRight(s) != "" ==> !IsSpace(TrimRight(s)[|TrimRight(s)| - 1])
    ensures |TrimRight(s)| <= |s| && TrimRight(s) == s[..|TrimRight(s)|]
    ensures TrimRight(s) == s <==> s == "" || !IsSpace(s[|s| - 1])
    ensures s != "" && !IsSpace(s[0]) ==> TrimRight(s) != ""
  {
    if s != "" && IsSpace(s[|s| - 1]) {
      TrimRightShape(s[..|s| - 1]);
    }
  }

  lemma TrimIsTrimmed(s: string)
    ensures Trimmed(Trim(s)) && |Trim(s)| <= |s|
    ensures Trim(s) == s <==> Trimmed(s)
    ensures Trim(s) == "" <==> forall c :: c in s ==> IsSpace(c)
  {
    TrimLeftShape(s);
    TrimRightShape(TrimLeft(s));
  }

  /** The result is clean, cleaning again changes nothing, and only blank tags become empty. */
  lemma SanitizeSettles(tag: string)
    ensures Sanitized(Sanitize(tag)) && Sanitize(Sanitize(tag)) == Sanitize(tag)
    ensures Sanitize(tag) == tag <==> Sanitized(tag)
    ensures Sanitize(tag) == "" <==> forall c :: c in tag ==> IsSpace(c)
  {
    var t := Trim(tag);
    TrimIsTrimmed(tag);
    if |t| > MAX_TAG_RUNES {
      TrimIsTrimmed(t[..MAX_TAG_RUNES]);
      assert t[0] in t[..MAX_TAG_RUNES];
    }
    TrimIsTrimmed(Sanitize(tag));
  }

  predicate Spaces(s: string, lo: int, hi: int) {
    forall i :: lo <= i < hi && 0 <= i < |s| ==> IsSpace(s[i])
  }

  lemma {:induction false} TrimLeftIs(s: string) returns (a: nat)
    ensures a <= |s| && TrimLeft(s) == s[a..] && Spaces(s, 0, a) && (a < |s| ==> !IsSpace(s[a]))
  {
    hide IsSpace;
    a := 0;
    if s != "" && IsSpace(s[0]) {
      var more := TrimLeftIs(s[1..]);
      a := more + 1;
      assert forall i :: 1 <= i < |s| ==> s[i] == s[1..][i - 1];
    }
  }

  lemma {:induction false} TrimRightIs(s: string) returns (b: nat)
    ensures b <= |s| && TrimRight(s) == s[..b] && Spaces(s, b, |s|) && (b > 0 ==> !IsSpace(s[b - 1]))
  {
    hide IsSpace;
    b := |s|;
    if s != "" && IsSpace(s[|s| - 1]) {
      b := TrimRightIs(s[..|s| - 1]);
      assert forall i :: 0 <= i < |s| - 1 ==> s[i] == s[..|s| - 1][i];
    }
  }

  lemma TrimIs(s: string) returns (a: nat, b: nat)
    ensures a <= b <= |s| && Trim(s) == s[a..b] && Spaces(s, 0, a) && Spaces(s, b, |s|)
    ensures a < b ==> !IsSpace(s[a]) && !IsSpace(s[b - 1])
  {
    hide IsSpace, TrimLeft, TrimRight;
    a := TrimLeftIs(s);
    var n := TrimRightIs(s[a..]);
    b := a + n;
    assert forall i :: a <= i < |s| ==> s[i] == s[a..][i - a];
    assert s[a..][..n] == s[a..b];
  }

  /**
   `r` is the part of the tag between its outer spaces, or, when that is longer than sixteen runes,
   the first sixteen of it without the spaces at their end.
   */
  ghost predicate CleanedFrom(tag: string, r: string, a: nat, b: nat) {
    && a <= b <= |tag| && r == tag[a..b] && b - a <= 16
    && (forall i :: 0 <= i < a ==> IsSpace(tag[i]))
    && (a < b ==> !IsSpace(tag[a]) && !IsSpace(tag[b - 1]))
    && (|| (forall i :: b <= i < |tag| ==> IsSpace(tag[i]))
        || (&& a < b && a + 16 < |tag| && (forall i :: b <= i < a + 16 ==> IsSpace(tag[i]))
            && exists i :: a + 16 <= i < |tag| && !IsSpace(tag[i])))
  }

  lemma SanitizeIs(tag: string) returns (a: nat, b: nat)
    ensures CleanedFrom(tag, Sanitize(tag), a, b)
  {
    hide IsSpace, Trim;
    a, b := TrimIs(tag);
    if b - a > 16 {
      var u := tag[a..b][..16];
      assert u == tag[a..a + 16];
      var p, q := TrimIs(u);
      assert u[0] == tag[a];
      assert p == 0 && Trim(u) == tag[a..a + q];
      assert forall i :: a <= i < a + 16 ==> tag[i] == u[i - a];
      assert !IsSpace(tag[b - 1]);
      b := a + q;
    }
  }

  /** Only one text is cleaned from a tag. */
  lemma CleanedOnce(tag: string, r: string, a: nat, b: nat, r': string, a': nat, b': nat)
    requires CleanedFrom(tag, r, a, b) && CleanedFrom(tag, r', a', b')
    ensures r == r'
  {
    hide IsSpace;
  }

  method SanitizeMemberTag(tag: string) returns (r: string)
    ensures r == Sanitize(tag)
    ensures exists a, b :: CleanedFrom(tag, r, a, b)
  {
    ghost var a, b := SanitizeIs(tag);
    var t := Trim(tag);
    if t == "" { return ""; }
    if |t| <= MAX_TAG_RUNES { return t; }
    var out: string := [];
    for i := 0 to |t|
      invariant out == t[..i] && i < MAX_TAG_RUNES
    {
      assert t[..i + 1] == t[..i] + [t[i]];
      out := out + [t[i]];
      if |out| == MAX_TAG_RUNES {
        return Trim(out);
      }
    }
  }

  // ----- The tags a group should show -----

  datatype Identity = Identity(displayName: string, login: string)

  const UNTRACKED_TAG := "Untracked"

  function TrackedTag(id: Identity): string {
    if Trim(id.displayName) != "" then Trim(id.displayName) else id.login
  }

  /** With a snapshot of the live members, only those are wanted. */
  predicate Live(snapshot: Option<set<int>>, user: int) {
    snapshot.Some? ==> user in snapshot.value
  }

  /** The tag a user should have, if any: the untracked side wins over the tracked one. */
  function DesiredTag(tracked: set<int>, untracked: set<int>, identities: map<int, Identity>,
      snapshot: Option<set<int>>, user: int): Option<string> {
    if !Live(snapshot, user) then None
    else if user in untracked then Some(UNTRACKED_TAG)
    else if user in tracked && user in identities then Some(TrackedTag(identities[user]))
    else None
  }

  /** `r` is `s` without its outer spaces, of which it is not empty. */
  ghost predicate TrimmedFrom(s: string, r: string) {
    exists a, b :: 0 <= a < b <= |s| && r == s[a..b] && !IsSpace(s[a]) && !IsSpace(s[b - 1])
                   && (forall i :: 0 <= i < a || b <= i < |s| ==> IsSpace(s[i]))
  }

  /** Without the names above: the fixed tag, the trimmed display name, or the login where that is blank. */
  lemma DesiredSpelledOut(tracked: set<int>, untracked: set<int>, identities: map<int, Identity>,
                          snapshot: Option<set<int>>, user: int)
    ensures var d := DesiredTag(tracked, untracked, identities, snapshot, user);
            var live := snapshot.Some? ==> user in snapshot.value;
            && (live && user in untracked ==> d == Some("Untracked"))
            && (live && user !in untracked && user in tracked && user in identities ==>
                  && d.Some?
                  && var name := identities[user].displayName;
                  if forall i :: 0 <= i < |name| ==> IsSpace(name[i]) then d.value == identities[user].login
                  else TrimmedFrom(name, d.value))
            && (!live || (user !in untracked && (user !in tracked || user !in identities)) ==> d == None)
  {
    if user in identities {
      var name := identities[user].displayName;
      var a, b := TrimIs(name);
      assert Trim(name) != "" ==> TrimmedFrom(name, Trim(name));
      hide IsSpace, TrimmedFrom, Trim;
      assert Trim(name) == "" <==> a == b;
    }
  }

  method DesiredTags(tracked: set<int>, untracked: set<int>, identities: map<int, Identity>, snapshot: Option<set<int>>)
    returns (desired: map<int, string>)
    ensures forall u :: Get(desired, u) == DesiredTag(tracked, untracked, identities, snapshot, u)
    ensures forall u :: (snapshot.Some? ==> u in snapshot.value) && u in untracked ==>
              Get(desired, u) == Some("Untracked")
    ensures forall u :: (snapshot.Some? ==> u in snapshot.value) &&
                        u !in untracked && u in tracked && u in identities ==>
              && u in desired
              && var name := identities[u].displayName;
                 if forall i :: 0 <= i < |name| ==> IsSpace(name[i]) then desired[u] == identities[u].login
                 else TrimmedFrom(name, desired[u])
    ensures forall u :: snapshot.Some? && u !in snapshot.value ==> u !in desired
    ensures forall u :: u !in untracked && (u !in tracked || u !in identities) ==> u !in desired
  {
    desired := CollectTags(tracked, untracked, identities, snapshot);
    hide DesiredTag, TrimmedFrom, IsSpace;
    forall u {
      DesiredSpelledOut(tracked, untracked, identities, snapshot, u);
    }
  }

  method CollectTags(tracked: set<int>, untracked: set<int>, identities: map<int, Identity>, snapshot: Option<set<int>>)
    returns (desired: map<int, string>)
    ensures forall u :: Get(desired, u) == DesiredTag(tracked, untracked, identities, snapshot, u)
  {
    hide TrackedTag;
    desired := map[];
    var left := tracked;
    while left != {}
      invariant left <= tracked
      invariant forall u :: Get(desired, u) == DesiredTag(tracked - left, {}, identities, snapshot, u)
    {
      SomeInt(left);
      var u: int :| u in left;
      left := left - {u};
      ghost var before := desired;
      if Live(snapshot, u) && u in identities {
        desired := desired[u := TrackedTag(identities[u])];
      }
      assert forall x :: x != u ==> Get(desired, x) == Get(before, x);
    }
    left := untracked;
    while left != {}
      invariant left <= untracked
      invariant forall u :: Get(desired, u) == DesiredTag(tracked, untracked - left, identities, snapshot, u)
    {
      SomeInt(left);
      var u: int :| u in left;
      left := left - {u};
      ghost var before := desired;
      if Live(snapshot, u) {
        desired := desired[u := UNTRACKED_TAG];
      }
      assert forall x :: x != u ==> Get(desired, x) == Get(before, x);
    }
  }
}
