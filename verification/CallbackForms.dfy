/** The grammar of the callback texts: every form with its words, and the action each form means. */
module CallbackForms {
  import opened RedisCommands
  import opened Decimals
  import opened CallbackWords
  import opened Callbacks

  datatype Form =
    | RefreshViewer
    | OfCreator(verb: Verb)
    | Screen(verb: Verb, target: Target)
    | GroupScreen(verb: Verb, target: Target, chat: int)
    | ToggleBlocklist
    | SetGrace(grace: Grace)
    | PickGroup(verb: Verb, chat: int)
    | SetPolicy(verb: Verb, policy: GroupPolicy, chat: int)
    | SetLanguage(verb: Verb, language: Language, chat: int)
    | SetTags(verb: Verb, toggle: Toggle, chat: int)
    | Unregister(action: ResetAction, chat: int)
    | RegisterHere(policy: GroupPolicy, chat: int, thread: int)
    | UnregisterHere(action: ResetAction, chat: int)
    | OfReset(verb: Verb, origin: Origin)
    | ResetScope(verb: Verb, origin: Origin, scope: Scope)
    | ResetScopeWith(verb: Verb, origin: Origin, scope: Scope, action: ResetAction)

  // ----- Which forms there are -----

  predicate Opens(v: Verb) { v == Open || v == Back }

  predicate Picks(v: Verb) { v == Pick || v == Execute }

  /** The verbs and targets go together. */
  predicate Fits(f: Form) {
    match f
    case OfCreator(v) => v == Refresh || v == Register || v == Reconnect || v == Menu
    case Screen(v, t) => Opens(v) && (t == Groups || t == Blocklist || t == GraceTarget)
    case GroupScreen(v, t, _) =>
        Opens(v) && (t == GroupConfirm || t == PolicyTarget || t == LanguageTarget || t == MemberTags)
    case PickGroup(v, _) => Picks(v)
    case SetPolicy(v, _, _) => Picks(v)
    case SetLanguage(v, _, _) => Picks(v)
    case SetTags(v, _, _) => Picks(v)
    case OfReset(v, _) => Opens(v) || v == Menu || v == Cancel || v == Export
    case ResetScope(v, _, _) => Picks(v)
    case ResetScopeWith(v, _, _, _) => Picks(v)
    case _ => true
  }

  predicate NumbersFit(f: Form) {
    match f
    case GroupScreen(_, _, c) => ValidChat(c)
    case PickGroup(_, c) => ValidChat(c)
    case SetPolicy(_, _, c) => ValidChat(c)
    case SetLanguage(_, _, c) => ValidChat(c)
    case SetTags(_, _, c) => ValidChat(c)
    case Unregister(_, c) => ValidChat(c)
    case RegisterHere(_, c, t) => ValidChat(c) && 0 <= t <= MAX_INT64
    case UnregisterHere(_, c) => ValidChat(c)
    case _ => true
  }

  predicate InLanguage(f: Form) {
    Fits(f) && NumbersFit(f)
  }

  // ----- What they mean and how they are written -----

  function Means(f: Form): Action {
    match f
    case RefreshViewer => Bare(ViewerD, Refresh)
    case OfCreator(v) => Bare(CreatorD, v)
    case Screen(v, t) => Bare(CreatorD, v).(target := Some(t))
    case GroupScreen(v, t, c) => Bare(CreatorD, v).(target := Some(t), chatID := c)
    case ToggleBlocklist => Bare(CreatorD, Execute).(target := Some(Blocklist))
    case SetGrace(g) => Bare(CreatorD, Execute).(target := Some(GraceTarget), grace := Some(g))
    case PickGroup(v, c) => Bare(CreatorD, v).(target := Some(OneGroup), chatID := c)
    case SetPolicy(v, p, c) => Bare(CreatorD, v).(target := Some(PolicyTarget), policy := Some(p), chatID := c)
    case SetLanguage(v, l, c) => Bare(CreatorD, v).(target := Some(LanguageTarget), language := Some(l), chatID := c)
    case SetTags(v, t, c) => Bare(CreatorD, v).(target := Some(MemberTags), toggle := Some(t), chatID := c)
    case Unregister(r, c) => Bare(CreatorD, Execute).(target := Some(OneGroup), resetAction := Some(r), chatID := c)
    case RegisterHere(p, c, t) => Bare(GroupD, Pick).(policy := Some(p), chatID := c, threadID := t)
    case UnregisterHere(r, c) => Bare(GroupD, Execute).(resetAction := Some(r), chatID := c)
    case OfReset(v, o) => Bare(ResetD, v).(origin := Some(o))
    case ResetScope(v, o, s) => Bare(ResetD, v).(origin := Some(o), scope := Some(s))
    case ResetScopeWith(v, o, s, r) => Bare(ResetD, v).(origin := Some(o), scope := Some(s), resetAction := Some(r))
  }

  function Words(f: Form): seq<string> {
    match f
    case RefreshViewer => [DomainText(ViewerD), VerbText(Refresh)]
    case OfCreator(v) => [DomainText(CreatorD), VerbText(v)]
    case Screen(v, t) => [DomainText(CreatorD), VerbText(v), TargetText(t)]
    case GroupScreen(v, t, c) => [DomainText(CreatorD), VerbText(v), TargetText(t), FormatInt(c)]
    case ToggleBlocklist => [DomainText(CreatorD), VerbText(Execute), TargetText(Blocklist)]
    case SetGrace(g) => [DomainText(CreatorD), VerbText(Execute), TargetText(GraceTarget), GraceText(g)]
    case PickGroup(v, c) => [DomainText(CreatorD), VerbText(v), TargetText(OneGroup), FormatInt(c)]
    case SetPolicy(v, p, c) =>
        [DomainText(CreatorD), VerbText(v), TargetText(PolicyTarget), GroupPolicyText(p), FormatInt(c)]
    case SetLanguage(v, l, c) =>
        [DomainText(CreatorD), VerbText(v), TargetText(LanguageTarget), LanguageText(l), FormatInt(c)]
    case SetTags(v, t, c) => [DomainText(CreatorD), VerbText(v), TargetText(MemberTags), ToggleText(t), FormatInt(c)]
    case Unregister(r, c) =>
        [DomainText(CreatorD), VerbText(Execute), TargetText(OneGroup), ResetActionText(r), FormatInt(c)]
    case RegisterHere(p, c, 0) => [DomainText(GroupD), VerbText(Pick), GroupPolicyText(p), FormatInt(c)]
    case RegisterHere(p, c, t) => [DomainText(GroupD), VerbText(Pick), GroupPolicyText(p), FormatInt(c), FormatInt(t)]
    case UnregisterHere(r, c) => [DomainText(GroupD), VerbText(Execute), ResetActionText(r), FormatInt(c)]
    case OfReset(v, o) => [DomainText(ResetD), VerbText(v), OriginText(o)]
    case ResetScope(v, o, s) => [DomainText(ResetD), VerbText(v), OriginText(o), ScopeText(s)]
    case ResetScopeWith(v, o, s, r) =>
        [DomainText(ResetD), VerbText(v), OriginText(o), ScopeText(s), ResetActionText(r)]
  }

  // ----- An action comes from one form -----

  function FormOf(a: Action): Form {
    match a.domain
    case ViewerD => RefreshViewer
    case GroupD =>
      if a.policy.Some? then RegisterHere(a.policy.value, a.chatID, a.threadID)
      else if a.resetAction.Some? then UnregisterHere(a.resetAction.value, a.chatID)
      else RefreshViewer
    case ResetD =>
      if a.origin == None then RefreshViewer
      else if a.scope == None then OfReset(a.verb, a.origin.value)
      else if a.resetAction == None then ResetScope(a.verb, a.origin.value, a.scope.value)
      else ResetScopeWith(a.verb, a.origin.value, a.scope.value, a.resetAction.value)
    case CreatorD =>
      if a.target == None then OfCreator(a.verb)
      else if Opens(a.verb) then
        match a.target.value
        case Groups | Blocklist | GraceTarget => Screen(a.verb, a.target.value)
        case _ => GroupScreen(a.verb, a.target.value, a.chatID)
      else if a.policy.Some? then SetPolicy(a.verb, a.policy.value, a.chatID)
      else if a.language.Some? then SetLanguage(a.verb, a.language.value, a.chatID)
      else if a.toggle.Some? then SetTags(a.verb, a.toggle.value, a.chatID)
      else if a.grace.Some? then SetGrace(a.grace.value)
      else if a.resetAction.Some? then Unregister(a.resetAction.value, a.chatID)
      else if a.target == Some(Blocklist) then ToggleBlocklist
      else PickGroup(a.verb, a.chatID)
  }

  lemma OneForm(f: Form)
    requires Fits(f)
    ensures FormOf(Means(f)) == f
  {
  }

  // ----- A form is parsed as what it means -----

  lemma ChatRoundTrip(n: int)
    requires ValidChat(n)
    ensures ParseChat(FormatInt(n)) == Some(n)
  {
    ParseOfFormat(n);
  }

  lemma NumbersRoundTrip(f: Form)
    requires NumbersFit(f)
    ensures var a := Means(f);
            && (a.chatID != 0 ==> ParseChat(FormatInt(a.chatID)) == Some(a.chatID))
            && (a.threadID != 0 ==> ParseInt64(FormatInt(a.threadID)) == Some(a.threadID))
  {
    if Means(f).chatID != 0 { ChatRoundTrip(Means(f).chatID); }
    if Means(f).threadID != 0 { ParseOfFormat(Means(f).threadID); }
  }

  lemma ScreenParses(f: Form)
    requires InLanguage(f) && (f.Screen? || f.GroupScreen?)
    ensures ParseOpenBack(Bare(CreatorD, f.verb), Words(f)) == Some(Means(f))
  {
    hide DomainText, VerbText, TargetText, ParseTarget, FormatInt, ParseInt64, ParseChat;
    TargetWord(f.target);
    NumbersRoundTrip(f);
  }

  lemma SettingParses(norm: string -> string, f: Form)
    requires InLanguage(f) && Normalizes(norm) && (f.SetPolicy? || f.SetLanguage? || f.SetTags? || f.Unregister?)
    ensures ParseSetting(norm, Bare(CreatorD, Means(f).verb), Words(f)) == Some(Means(f))
  {
    hide DomainText, VerbText, TargetText, GroupPolicyText, LanguageText, ToggleText, ResetActionText, FormatInt;
    hide ParseTarget, ParseGroupPolicy, ParseLanguage, ParseToggle, ParseResetAction, ParseInt64, ParseChat;
    TargetWord(Means(f).target.value);
    ChatRoundTrip(f.chat);
    match f
    case SetPolicy(_, p, _) => GroupPolicyWord(p);
    case SetLanguage(_, l, _) => LanguageWord(l);
    case SetTags(_, t, _) => ToggleWord(t);
    case Unregister(r, _) => ResetActionWord(r);
  }

  lemma PickParses(norm: string -> string, f: Form)
    requires InLanguage(f) && (f.ToggleBlocklist? || f.SetGrace? || f.PickGroup?)
    ensures ParsePickExecute(norm, Bare(CreatorD, Means(f).verb), Words(f)) == Some(Means(f))
  {
    hide DomainText, VerbText, TargetText, GraceText, ParseTarget, ParseGrace, FormatInt, ParseInt64, ParseChat,
        ParseSetting;
    TargetWord(Means(f).target.value);
    NumbersRoundTrip(f);
    if f.SetGrace? { GraceWord(f.grace); }
  }

  lemma CreatorFormParses(norm: string -> string, f: Form)
    requires InLanguage(f) && Normalizes(norm) && Means(f).domain == CreatorD
    ensures ParseCreator(norm, Bare(CreatorD, Means(f).verb), Words(f)) == Some(Means(f))
  {
    hide DomainText, VerbText, TargetText, FormatInt, ParseOpenBack, ParseSetting, Normalizes;
    match f
    case OfCreator(_) =>
    case Screen(_, _) => ScreenParses(f);
    case GroupScreen(_, _, _) => ScreenParses(f);
    case SetPolicy(_, _, _) => SettingParses(norm, f);
    case SetLanguage(_, _, _) => SettingParses(norm, f);
    case SetTags(_, _, _) => SettingParses(norm, f);
    case Unregister(_, _) => SettingParses(norm, f);
    case _ => PickParses(norm, f);
  }

  lemma GroupFormParses(f: Form)
    requires InLanguage(f) && (f.RegisterHere? || f.UnregisterHere?)
    ensures ParseGroup(Bare(GroupD, Means(f).verb), Words(f)) == Some(Means(f))
  {
    hide DomainText, VerbText, GroupPolicyText, ResetActionText, FormatInt;
    hide ParseGroupPolicy, ParseResetAction, ParseInt64, ParseChat;
    if f.RegisterHere? { GroupPolicyWord(f.policy); } else { ResetActionWord(f.action); }
    NumbersRoundTrip(f);
  }

  lemma ResetFormParses(f: Form)
    requires Fits(f) && (f.OfReset? || f.ResetScope? || f.ResetScopeWith?)
    ensures ParseReset(Bare(ResetD, f.verb), Words(f)) == Some(Means(f))
  {
    hide DomainText, VerbText, OriginText, ScopeText, ResetActionText, ParseOrigin, ParseScope, ParseResetAction;
    OriginWord(f.origin);
    if !f.OfReset? { ScopeWord(f.scope); }
    if f.ResetScopeWith? { ResetActionWord(f.action); }
  }

  lemma FormParses(norm: string -> string, f: Form)
    requires InLanguage(f) && Normalizes(norm)
    ensures ParseParts(norm, Words(f)) == Some(Means(f))
  {
    hide DomainText, VerbText, ParseDomain, ParseVerb, ParseCreator, ParseGroup, ParseReset, Normalizes;
    DomainWord(Means(f).domain);
    VerbWord(Means(f).verb);
    match Means(f).domain
    case ViewerD =>
    case CreatorD => CreatorFormParses(norm, f);
    case GroupD => GroupFormParses(f);
    case ResetD => ResetFormParses(f);
  }

  // ----- Whatever is parsed is a form -----

  /** Numbers as the printer writes them, and a language code that needed no normalising. */
  predicate CanonicalText(parts: seq<string>, a: Action) {
    && (a.language.Some? ==> |parts| > 3 && parts[3] == LanguageText(a.language.value))
    && (a.chatID != 0 && a.threadID == 0 ==> |parts| > 0 && Canonical(parts[|parts| - 1]))
    && (a.threadID != 0 ==> |parts| > 1 && Canonical(parts[|parts| - 2]) && Canonical(parts[|parts| - 1]))
  }

  lemma ParsedNumbers(parts: seq<string>)
    ensures forall i :: 0 <= i < |parts| && ParseInt64(parts[i]).Some? ==>
                          (FormatInt(ParseInt64(parts[i]).value) == parts[i] <==> Canonical(parts[i]))
  {
    forall i | 0 <= i < |parts| && ParseInt64(parts[i]).Some?
      ensures FormatInt(ParseInt64(parts[i]).value) == parts[i] <==> Canonical(parts[i])
    {
      FormatOfParse(parts[i]);
    }
  }

  /** The action is that of a form, whose words are these up to numbers and language codes. */
  predicate FromForm(parts: seq<string>, a: Action) {
    InLanguage(FormOf(a)) && Means(FormOf(a)) == a && (Words(FormOf(a)) == parts <==> CanonicalText(parts, a))
  }

  lemma ScreenForm(v: Verb, parts: seq<string>)
    requires Opens(v) && |parts| >= 2 && parts[0] == DomainText(CreatorD) && parts[1] == VerbText(v)
    ensures var r := ParseOpenBack(Bare(CreatorD, v), parts); r.Some? ==> FromForm(parts, r.value)
  {
    hide DomainText, VerbText, TargetText, ParseTarget, FormatInt, ParseInt64, ParseChat, Canonical;
    ParsedNumbers(parts);
    if ParseOpenBack(Bare(CreatorD, v), parts).Some? {
      var a := ParseOpenBack(Bare(CreatorD, v), parts).value;
      assert FormOf(a) == if |parts| == 3 then Screen(v, a.target.value) else GroupScreen(v, a.target.value, a.chatID);
      hide FormOf;
    }
  }

  lemma SettingForm(norm: string -> string, v: Verb, parts: seq<string>)
    requires Picks(v) && |parts| == 5 && parts[0] == DomainText(CreatorD) && parts[1] == VerbText(v)
    ensures var r := ParseSetting(norm, Bare(CreatorD, v), parts); r.Some? ==> FromForm(parts, r.value)
  {
    hide DomainText, VerbText, TargetText, GroupPolicyText, LanguageText, ToggleText, ResetActionText, FormatInt,
        Canonical;
    hide ParseTarget, ParseGroupPolicy, ParseLanguage, ParseToggle, ParseResetAction, ParseInt64, ParseChat;
    ParsedNumbers(parts);
  }

  lemma PickForm(norm: string -> string, v: Verb, parts: seq<string>)
    requires Picks(v) && |parts| >= 2 && parts[0] == DomainText(CreatorD) && parts[1] == VerbText(v)
    ensures var r := ParsePickExecute(norm, Bare(CreatorD, v), parts); r.Some? ==> FromForm(parts, r.value)
  {
    hide DomainText, VerbText, TargetText, GraceText, ParseTarget, ParseGrace, FormatInt, ParseInt64, ParseChat,
        Canonical, ParseSetting;
    ParsedNumbers(parts);
    if |parts| == 5 { SettingForm(norm, v, parts); }
  }

  lemma GroupForm(v: Verb, parts: seq<string>)
    requires |parts| >= 2 && parts[0] == DomainText(GroupD) && parts[1] == VerbText(v)
    ensures var r := ParseGroup(Bare(GroupD, v), parts); r.Some? ==> FromForm(parts, r.value)
  {
    hide DomainText, VerbText, GroupPolicyText, ResetActionText, ParseGroupPolicy, ParseResetAction;
    hide FormatInt, ParseInt64, ParseChat, Canonical;
    ParsedNumbers(parts);
  }

  lemma ResetForm(v: Verb, parts: seq<string>)
    requires |parts| >= 2 && parts[0] == DomainText(ResetD) && parts[1] == VerbText(v)
    ensures var r := ParseReset(Bare(ResetD, v), parts); r.Some? ==> FromForm(parts, r.value)
  {
    hide DomainText, VerbText, OriginText, ScopeText, ResetActionText, ParseOrigin, ParseScope, ParseResetAction;
  }

  lemma ParsedForm(norm: string -> string, parts: seq<string>)
    requires ParseParts(norm, parts).Some?
    ensures FromForm(parts, ParseParts(norm, parts).value)
  {
    hide DomainText, VerbText, ParseDomain, ParseVerb, ParseOpenBack, ParsePickExecute, ParseGroup, ParseReset;
    var v := ParseVerb(parts[1]).value;
    match ParseDomain(parts[0]).value
    case ViewerD =>
    case CreatorD =>
      if Opens(v) { ScreenForm(v, parts); } else if Picks(v) { PickForm(norm, v, parts); }
    case GroupD => GroupForm(v, parts);
    case ResetD => ResetForm(v, parts);
  }

  // ----- A form is printed as its words -----

  lemma CreatorFormPrints(f: Form)
    requires InLanguage(f) && !f.Unregister? && Means(f).domain == CreatorD
    ensures Parts(Means(f)) == Words(f)
  {
    hide DomainText, VerbText, TargetText, GroupPolicyText, LanguageText, GraceText, ToggleText, FormatInt;
  }

  lemma FormPrints(f: Form)
    requires InLanguage(f) && !f.Unregister?
    ensures Parts(Means(f)) == Words(f)
  {
    hide DomainText, VerbText, OriginText, ScopeText, GroupPolicyText, ResetActionText, FormatInt;
    if Means(f).domain == CreatorD { CreatorFormPrints(f); }
  }

  lemma UnregisterPrints(r: ResetAction, c: int)
    requires ValidChat(c)
    ensures Parts(Means(Unregister(r, c))) ==
            [DomainText(CreatorD), VerbText(Execute), ResetActionText(r), TargetText(OneGroup), FormatInt(c)]
  {
    hide DomainText, VerbText, ResetActionText, TargetText, FormatInt;
  }
}
