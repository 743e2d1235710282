/** Every word, number and button text, letter by letter. */
module CallbackTexts {
  import opened RedisCommands
  import opened Decimals
  import opened CallbackWords
  import opened Callbacks
  import opened CallbackForms
  import opened CallbackTheorems

  lemma DomainsAndVerbs()
    ensures DomainText(ViewerD) == "viewer" && DomainText(CreatorD) == "creator"
    ensures DomainText(GroupD) == "group" && DomainText(ResetD) == "reset"
    ensures VerbText(Refresh) == "refresh" && VerbText(Register) == "register" && VerbText(Reconnect) == "reconnect"
    ensures VerbText(Open) == "open" && VerbText(Pick) == "pick" && VerbText(Back) == "back" && VerbText(Menu) == "menu"
    ensures VerbText(Cancel) == "cancel" && VerbText(Execute) == "exec" && VerbText(Export) == "export"
  {
  }

  lemma Targets()
    ensures TargetText(Groups) == "groups" && TargetText(OneGroup) == "group"
    ensures TargetText(GroupConfirm) == "group_confirm" && TargetText(Blocklist) == "blocklist"
    ensures TargetText(GraceTarget) == "grace" && TargetText(PolicyTarget) == "policy"
    ensures TargetText(LanguageTarget) == "language" && TargetText(MemberTags) == "member_tags"
  {
  }

  lemma Settings()
    ensures GroupPolicyText(Observe) == "observe" && GroupPolicyText(ObserveWarn) == "observe_warn"
    ensures GroupPolicyText(Kick) == "kick" && GroupPolicyText(GraceWeek) == "grace_7d"
    ensures LanguageText(English) == "en" && LanguageText(Italian) == "it"
    ensures GraceText(GraceOff) == "off" && GraceText(Grace24h) == "24h"
    ensures GraceText(Grace48h) == "48h" && GraceText(Grace72h) == "72h"
    ensures ToggleText(On) == "on" && ToggleText(Off) == "off"
    ensures ResetActionText(KeepMembers) == "keep_members"
    ensures ResetActionText(KickTrackedMembers) == "kick_tracked_members"
    ensures OriginText(FromViewer) == "viewer" && OriginText(FromCreator) == "creator"
    ensures OriginText(FromCommand) == "command"
    ensures ScopeText(ViewerData) == "viewer" && ScopeText(CreatorData) == "creator" && ScopeText(BothData) == "both"
  {
  }

  lemma Glue2(a: string, b: string)
    ensures Join([a, b]) == a + ":" + b
  {
    assert [a, b][1..] == [b];
  }

  lemma Glue3(a: string, b: string, c: string)
    ensures Join([a, b, c]) == a + ":" + b + ":" + c
  {
    assert [a, b, c][1..] == [b, c];
    Glue2(b, c);
  }

  lemma Glue4(a: string, b: string, c: string, d: string)
    ensures Join([a, b, c, d]) == a + ":" + b + ":" + c + ":" + d
  {
    assert [a, b, c, d][1..] == [b, c, d];
    Glue3(b, c, d);
  }

  lemma Glue5(a: string, b: string, c: string, d: string, e: string)
    ensures Join([a, b, c, d, e]) == a + ":" + b + ":" + c + ":" + d + ":" + e
  {
    assert [a, b, c, d, e][1..] == [b, c, d, e];
    Glue4(b, c, d, e);
  }

  /** The text of every button, word by word; `Glue2` to `Glue5` say what joining is. */
  lemma ButtonTexts(b: Button)
    requires Exists(b) && ValidNumbers(b)
    ensures match b
            case ViewerRefresh => Build(b) == Join(["viewer", "refresh"])
            case CreatorPlain(v) => Build(b) == Join(["creator", VerbText(v)])
            case CreatorManageGroups => Build(b) == Join(["creator", "open", "groups"])
            case CreatorGraceOpen => Build(b) == Join(["creator", "open", "grace"])
            case CreatorGroupBack => Build(b) == Join(["creator", "back", "groups"])
            case CreatorBlocklistToggle => Build(b) == Join(["creator", "exec", "blocklist"])
            case CreatorGraceExecute(g) => Build(b) == Join(["creator", "exec", "grace", GraceText(g)])
            case CreatorGroupPick(c) => Build(b) == Join(["creator", "pick", "group", FormatInt(c)])
            case CreatorGroupOpen(t, c) => Build(b) == Join(["creator", "open", TargetText(t), FormatInt(c)])
            case CreatorPolicy(v, c, p) =>
              Build(b) == Join(["creator", VerbText(v), "policy", GroupPolicyText(p), FormatInt(c)])
            case CreatorLanguageExecute(c, l) =>
              Build(b) == Join(["creator", "exec", "language", LanguageText(l), FormatInt(c)])
            case CreatorTagsExecute(c, t) =>
              Build(b) == Join(["creator", "exec", "member_tags", ToggleText(t), FormatInt(c)])
            case CreatorGroupExecute(c, r) =>
              Build(b) == Join(["creator", "exec", "group", ResetActionText(r), FormatInt(c)])
            case GroupRegister(c, t, p) =>
              Build(b) == if t == 0 then Join(["group", "pick", GroupPolicyText(p), FormatInt(c)])
                          else Join(["group", "pick", GroupPolicyText(p), FormatInt(c), FormatInt(t)])
            case GroupUnregister(c, r) => Build(b) == Join(["group", "exec", ResetActionText(r), FormatInt(c)])
            case ResetPlain(v, o) => Build(b) == Join(["reset", VerbText(v), OriginText(o)])
            case ResetScoped(v, o, s) => Build(b) == Join(["reset", VerbText(v), OriginText(o), ScopeText(s)])
            case ResetWithAction(v, o, s, r) =>
              Build(b) == Join(["reset", VerbText(v), OriginText(o), ScopeText(s), ResetActionText(r)])
  {
    hide DomainText, VerbText, OriginText, ScopeText, TargetText, GroupPolicyText, LanguageText, GraceText,
         ToggleText, ResetActionText, FormatInt, Join, BuildParts, ValidNumbers, Exists;
    ButtonBuilds(b);
    DomainsAndVerbs();
    Targets();
  }

  /** Numbers are printed digit by digit in base ten. */
  lemma PrintsDecimal(n: nat)
    ensures n >= 10 ==> FormatNat(n) == FormatNat(n / 10) + FormatNat(n % 10)
    ensures n > 0 ==> FormatInt(-(n as int)) == "-" + FormatNat(n)
    ensures FormatInt(n) == FormatNat(n)
    ensures FormatNat(0) == "0" && FormatNat(1) == "1" && FormatNat(2) == "2" && FormatNat(3) == "3"
    ensures FormatNat(4) == "4" && FormatNat(5) == "5" && FormatNat(6) == "6" && FormatNat(7) == "7"
    ensures FormatNat(8) == "8" && FormatNat(9) == "9"
  {
  }
}
