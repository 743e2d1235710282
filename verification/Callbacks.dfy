/**
 The text behind every inline button: printing an action, parsing it back, and the builders. A field
 that is not used is left out of the text; `norm` stands for the language normaliser.
 */
module Callbacks {
  import opened RedisCommands
  import opened Decimals
  import opened CallbackWords

  datatype Action = Action(
    domain: Domain, verb: Verb, origin: Option<Origin>, scope: Option<Scope>, target: Option<Target>,
    policy: Option<GroupPolicy>, language: Option<Language>, grace: Option<Grace>, toggle: Option<Toggle>,
    resetAction: Option<ResetAction>, chatID: int, threadID: int, reconnect: bool)

  function Bare(domain: Domain, verb: Verb): Action {
    Action(domain, verb, None, None, None, None, None, None, None, None, 0, 0, false)
  }

  // ----- Text and parts -----

  predicate AllColonFree(parts: seq<string>) {
    forall i :: 0 <= i < |parts| ==> ColonFree(parts[i])
  }

  function Join(parts: seq<string>): string {
    if parts == [] then ""
    else if |parts| == 1 then parts[0]
    else parts[0] + ":" + Join(parts[1..])
  }

  function Split(s: string): (parts: seq<string>)
    ensures parts != []
  {
    if s == "" then [""]
    else
      var rest := Split(s[1..]);
      if s[0] == ':' then [""] + rest else [[s[0]] + rest[0]] + rest[1..]
  }

  lemma JoinNewPart(parts: seq<string>)
    requires parts != []
    ensures Join([""] + parts) == ":" + Join(parts)
  {
    assert ([""] + parts)[1..] == parts;
  }

  lemma JoinLongerPart(c: char, parts: seq<string>)
    requires parts != []
    ensures Join([[c] + parts[0]] + parts[1..]) == [c] + Join(parts)
  {
    assert ([[c] + parts[0]] + parts[1..])[1..] == parts[1..];
    if |parts| > 1 {
      assert [c] + (parts[0] + ":" + Join(parts[1..])) == ([c] + parts[0]) + ":" + Join(parts[1..]);
    }
  }

  lemma {:induction false} SplitShape(s: string)
    ensures AllColonFree(Split(s)) && Join(Split(s)) == s
  {
    if s != "" {
      SplitShape(s[1..]);
      var rest := Split(s[1..]);
      if s[0] == ':' { JoinNewPart(rest); } else { JoinLongerPart(s[0], rest); }
      hide Join;
      assert s == [s[0]] + s[1..];
    }
  }

  lemma {:induction false} SplitOfPrefix(head: string, rest: string)
    requires ColonFree(head)
    ensures Split(head + ":" + rest) == [head] + Split(rest)
  {
    var s := head + ":" + rest;
    if head == "" {
      assert s[1..] == rest;
    } else {
      SplitOfPrefix(head[1..], rest);
      assert s[1..] == head[1..] + ":" + rest;
      assert head == [head[0]] + head[1..];
    }
  }

  lemma {:induction false} SplitOfWord(s: string)
    requires ColonFree(s)
    ensures Split(s) == [s]
  {
    if s != "" {
      SplitOfWord(s[1..]);
      assert s == [s[0]] + s[1..];
    }
  }

  lemma {:induction false} SplitOfJoin(parts: seq<string>)
    requires parts != [] && AllColonFree(parts)
    ensures Split(Join(parts)) == parts
  {
    if |parts| == 1 {
      SplitOfWord(parts[0]);
    } else {
      SplitOfJoin(parts[1..]);
      SplitOfPrefix(parts[0], Join(parts[1..]));
      assert parts == [parts[0]] + parts[1..];
    }
  }

  // ----- Printing -----

  function PutField<T>(field: Option<T>, text: T -> string, rest: seq<string>): seq<string> {
    match field case None => rest case Some(x) => [text(x)] + rest
  }

  function PutFigure(n: int, rest: seq<string>): seq<string> {
    if n == 0 then rest else [FormatInt(n)] + rest
  }

  /** The reader has to know what to expect where: nothing in the text names the fields. */
  function Parts(a: Action): seq<string> {
    [DomainText(a.domain), VerbText(a.verb)] +
    PutField(a.origin, OriginText, PutField(a.scope, ScopeText, PutField(a.resetAction, ResetActionText,
    PutField(a.target, TargetText, PutField(a.policy, GroupPolicyText, PutField(a.language, LanguageText,
    PutField(a.grace, GraceText, PutField(a.toggle, ToggleText,
    PutFigure(a.chatID, PutFigure(a.threadID, if a.reconnect then ["reconnect"] else []))))))))))
  }

  function Print(a: Action): string {
    Join(Parts(a))
  }

  // ----- Parsing -----

  predicate ValidChat(n: int) { n != 0 && MIN_INT64 <= n <= MAX_INT64 }

  function ParseChat(s: string): (r: Option<int>)
    ensures r.Some? ==> ValidChat(r.value) && ParseInt64(s) == r
  {
    if ParseInt64(s) == Some(0) then None else ParseInt64(s)
  }

  function WithChat(a: Action, s: string): Option<Action> {
    match ParseChat(s)
    case None => None
    case Some(n) => Some(a.(chatID := n))
  }

  function ParseOpenBack(a: Action, parts: seq<string>): Option<Action> {
    if |parts| == 3 then
      match ParseTarget(parts[2])
      case Some(Groups) => Some(a.(target := Some(Groups)))
      case Some(Blocklist) => Some(a.(target := Some(Blocklist)))
      case Some(GraceTarget) => Some(a.(target := Some(GraceTarget)))
      case _ => None
    else if |parts| == 4 then
      match ParseTarget(parts[2])
      case Some(GroupConfirm) => WithChat(a.(target := Some(GroupConfirm)), parts[3])
      case Some(PolicyTarget) => WithChat(a.(target := Some(PolicyTarget)), parts[3])
      case Some(LanguageTarget) => WithChat(a.(target := Some(LanguageTarget)), parts[3])
      case Some(MemberTags) => WithChat(a.(target := Some(MemberTags)), parts[3])
      case _ => None
    else None
  }

  function ParseSetting(norm: string -> string, a: Action, parts: seq<string>): Option<Action>
    requires |parts| == 5
  {
    match ParseTarget(parts[2])
    case Some(PolicyTarget) =>
      if ParseGroupPolicy(parts[3]) == None then None
      else WithChat(a.(target := Some(PolicyTarget), policy := ParseGroupPolicy(parts[3])), parts[4])
    case Some(LanguageTarget) =>
      if ParseLanguage(norm(parts[3])) == None then None
      else WithChat(a.(target := Some(LanguageTarget), language := ParseLanguage(norm(parts[3]))), parts[4])
    case Some(MemberTags) =>
      if ParseToggle(parts[3]) == None then None
      else WithChat(a.(target := Some(MemberTags), toggle := ParseToggle(parts[3])), parts[4])
    case Some(OneGroup) =>
      if a.verb != Execute || ParseResetAction(parts[3]) == None then None
      else WithChat(a.(target := Some(OneGroup), resetAction := ParseResetAction(parts[3])), parts[4])
    case _ => None
  }

  function ParsePickExecute(norm: string -> string, a: Action, parts: seq<string>): Option<Action> {
    if |parts| == 3 then
      if a.verb == Execute && ParseTarget(parts[2]) == Some(Blocklist)
      then Some(a.(target := Some(Blocklist))) else None
    else if |parts| == 4 then
      match ParseTarget(parts[2])
      case Some(GraceTarget) =>
        if a.verb == Execute && ParseGrace(parts[3]).Some?
            then Some(a.(target := Some(GraceTarget), grace := ParseGrace(parts[3]))) else None
      case Some(OneGroup) => WithChat(a.(target := Some(OneGroup)), parts[3])
      case _ => None
    else if |parts| == 5 then ParseSetting(norm, a, parts)
    else None
  }

  function ParseCreator(norm: string -> string, a: Action, parts: seq<string>): Option<Action> {
    match a.verb
    case Refresh | Register | Reconnect | Menu => if |parts| == 2 then Some(a) else None
    case Open | Back => ParseOpenBack(a, parts)
    case Pick | Execute => ParsePickExecute(norm, a, parts)
    case Cancel | Export => None
  }

  function ParseGroup(a: Action, parts: seq<string>): Option<Action> {
    match a.verb
    case Pick =>
      if (|parts| != 4 && |parts| != 5) || ParseGroupPolicy(parts[2]) == None || ParseChat(parts[3]) == None then None
      else
        var b := a.(policy := ParseGroupPolicy(parts[2]), chatID := ParseChat(parts[3]).value);
        if |parts| == 4 then Some(b)
        else if ParseInt64(parts[4]) == None || ParseInt64(parts[4]).value <= 0 then None
        else Some(b.(threadID := ParseInt64(parts[4]).value))
    case Execute =>
      if |parts| != 4 || ParseResetAction(parts[2]) == None then None
      else WithChat(a.(resetAction := ParseResetAction(parts[2])), parts[3])
    case _ => None
  }

  function ParseReset(a: Action, parts: seq<string>): Option<Action> {
    match a.verb
    case Open | Back | Menu | Cancel | Export =>
      if |parts| != 3 || ParseOrigin(parts[2]) == None then None else Some(a.(origin := ParseOrigin(parts[2])))
    case Pick | Execute =>
      if (|parts| != 4 && |parts| != 5) || ParseOrigin(parts[2]) == None || ParseScope(parts[3]) == None then None
      else
        var b := a.(origin := ParseOrigin(parts[2]), scope := ParseScope(parts[3]));
        if |parts| == 4 then Some(b)
        else if ParseResetAction(parts[4]) == None then None
        else Some(b.(resetAction := ParseResetAction(parts[4])))
    case _ => None
  }

  function ParseFields(norm: string -> string, a: Action, parts: seq<string>): Option<Action> {
    match a.domain
    case ViewerD => if |parts| == 2 && a.verb == Refresh then Some(a) else None
    case CreatorD => ParseCreator(norm, a, parts)
    case GroupD => ParseGroup(a, parts)
    case ResetD => ParseReset(a, parts)
  }

  function ParseParts(norm: string -> string, parts: seq<string>): Option<Action> {
    if |parts| < 2 || ParseDomain(parts[0]) == None || ParseVerb(parts[1]) == None then None
    else ParseFields(norm, Bare(ParseDomain(parts[0]).value, ParseVerb(parts[1]).value), parts)
  }

  function Parse(norm: string -> string, data: string): Option<Action> {
    ParseParts(norm, Split(data))
  }

  /** What is used of the normaliser: the supported codes are its fixed points. */
  predicate Normalizes(norm: string -> string) {
    forall l :: norm(LanguageText(l)) == LanguageText(l)
  }

  // ----- The builders -----

  datatype Button =
    | ViewerRefresh
    | CreatorPlain(verb: Verb)
    | CreatorManageGroups
    | CreatorGraceOpen
    | CreatorGroupBack
    | CreatorBlocklistToggle
    | CreatorGraceExecute(grace: Grace)
    | CreatorGroupPick(chat: int)
    | CreatorGroupOpen(target: Target, chat: int)
    | CreatorPolicy(verb: Verb, chat: int, policy: GroupPolicy)
    | CreatorLanguageExecute(chat: int, language: Language)
    | CreatorTagsExecute(chat: int, toggle: Toggle)
    | CreatorGroupExecute(chat: int, action: ResetAction)
    | GroupRegister(chat: int, thread: int, policy: GroupPolicy)
    | GroupUnregister(chat: int, action: ResetAction)
    | ResetPlain(verb: Verb, origin: Origin)
    | ResetScoped(verb: Verb, origin: Origin, scope: Scope)
    | ResetWithAction(verb: Verb, origin: Origin, scope: Scope, action: ResetAction)

  /** The fields a button is built from. */
  function ActionOf(b: Button): Action {
    match b
    case ViewerRefresh => Bare(ViewerD, Refresh)
    case CreatorPlain(v) => Bare(CreatorD, v)
    case CreatorManageGroups => Bare(CreatorD, Open).(target := Some(Groups))
    case CreatorGraceOpen => Bare(CreatorD, Open).(target := Some(GraceTarget))
    case CreatorGroupBack => Bare(CreatorD, Back).(target := Some(Groups))
    case CreatorBlocklistToggle => Bare(CreatorD, Execute).(target := Some(Blocklist))
    case CreatorGraceExecute(g) => Bare(CreatorD, Execute).(target := Some(GraceTarget), grace := Some(g))
    case CreatorGroupPick(c) => Bare(CreatorD, Pick).(target := Some(OneGroup), chatID := c)
    case CreatorGroupOpen(t, c) => Bare(CreatorD, Open).(target := Some(t), chatID := c)
    case CreatorPolicy(v, c, p) => Bare(CreatorD, v).(target := Some(PolicyTarget), policy := Some(p), chatID := c)
    case CreatorLanguageExecute(c, l) =>
        Bare(CreatorD, Execute).(target := Some(LanguageTarget), language := Some(l), chatID := c)
    case CreatorTagsExecute(c, t) =>
        Bare(CreatorD, Execute).(target := Some(MemberTags), toggle := Some(t), chatID := c)
    case CreatorGroupExecute(c, r) =>
        Bare(CreatorD, Execute).(target := Some(OneGroup), resetAction := Some(r), chatID := c)
    case GroupRegister(c, t, p) => Bare(GroupD, Pick).(policy := Some(p), chatID := c, threadID := t)
    case GroupUnregister(c, r) => Bare(GroupD, Execute).(resetAction := Some(r), chatID := c)
    case ResetPlain(v, o) => Bare(ResetD, v).(origin := Some(o))
    case ResetScoped(v, o, s) => Bare(ResetD, v).(origin := Some(o), scope := Some(s))
    case ResetWithAction(v, o, s, r) => Bare(ResetD, v).(origin := Some(o), scope := Some(s), resetAction := Some(r))
  }

  /** The verbs and targets the builders exist for. */
  predicate Exists(b: Button) {
    match b
    case CreatorPlain(v) => v in {Refresh, Reconnect, Menu}
    case CreatorGroupOpen(t, _) => t in {GroupConfirm, PolicyTarget, LanguageTarget, MemberTags}
    case CreatorPolicy(v, _, _) => v in {Pick, Execute}
    case ResetPlain(v, _) => v in {Open, Back, Menu, Cancel, Export}
    case ResetScoped(v, _, _) => v in {Pick, Execute}
    case ResetWithAction(v, _, _, _) => v in {Pick, Execute}
    case _ => true
  }

  /** One builder writes its text by hand, because printing would put the action before the target. */
  function BuildParts(b: Button): seq<string> {
    match b
    case CreatorGroupExecute(c, r) =>
      [DomainText(CreatorD), VerbText(Execute), TargetText(OneGroup), ResetActionText(r), FormatInt(c)]
    case _ => Parts(ActionOf(b))
  }

  function Build(b: Button): string {
    Join(BuildParts(b))
  }
}
