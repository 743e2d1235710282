/** The callback text is a faithful code for the actions the handlers understand. */
module CallbackTheorems {
  import opened RedisCommands
  import opened Decimals
  import opened CallbackWords
  import opened Callbacks
  import opened CallbackForms

  // ----- No word holds the separator -----

  lemma WordsColonFree()
    ensures forall x :: ColonFree(DomainText(x))
    ensures forall x :: ColonFree(VerbText(x))
    ensures forall x :: ColonFree(OriginText(x))
    ensures forall x :: ColonFree(ScopeText(x))
    ensures forall x :: ColonFree(TargetText(x))
    ensures forall x :: ColonFree(GroupPolicyText(x))
    ensures forall x :: ColonFree(LanguageText(x))
    ensures forall x :: ColonFree(GraceText(x))
    ensures forall x :: ColonFree(ToggleText(x))
    ensures forall x :: ColonFree(ResetActionText(x))
  {
  }

  lemma PutColonFree<T>(field: Option<T>, text: T -> string, rest: seq<string>)
    requires AllColonFree(rest) && (field.Some? ==> ColonFree(text(field.value)))
    ensures AllColonFree(PutField(field, text, rest))
  {
  }

  lemma PartsColonFree(a: Action)
    ensures AllColonFree(Parts(a))
  {
    hide DomainText, VerbText, OriginText, ScopeText, TargetText, GroupPolicyText, LanguageText, GraceText,
         ToggleText, ResetActionText, FormatInt;
    FormatHasNoColon(a.chatID);
    FormatHasNoColon(a.threadID);
    WordsColonFree();
    var r: seq<string> := if a.reconnect then ["reconnect"] else [];
    var n := PutFigure(a.chatID, PutFigure(a.threadID, r));
    assert AllColonFree(n);
    PutColonFree(a.toggle, ToggleText, n);
    var t := PutField(a.toggle, ToggleText, n);
    PutColonFree(a.grace, GraceText, t);
    var g := PutField(a.grace, GraceText, t);
    PutColonFree(a.language, LanguageText, g);
    var l := PutField(a.language, LanguageText, g);
    PutColonFree(a.policy, GroupPolicyText, l);
    var p := PutField(a.policy, GroupPolicyText, l);
    PutColonFree(a.target, TargetText, p);
    var w := PutField(a.target, TargetText, p);
    PutColonFree(a.resetAction, ResetActionText, w);
    var x := PutField(a.resetAction, ResetActionText, w);
    PutColonFree(a.scope, ScopeText, x);
    var s := PutField(a.scope, ScopeText, x);
    PutColonFree(a.origin, OriginText, s);
  }

  /** A form's words are among the printed ones, if in another order. */
  lemma FormColonFree(f: Form)
    requires InLanguage(f)
    ensures AllColonFree(Words(f))
  {
    hide DomainText, VerbText, ResetActionText, TargetText, FormatInt, Parts;
    PartsColonFree(Means(f));
    if f.Unregister? { UnregisterPrints(f.action, f.chat); } else { FormPrints(f); }
    if f.Unregister? {
      var parts := Parts(Means(f));
      assert Words(f) == [parts[0], parts[1], parts[3], parts[2], parts[4]];
    }
  }

  // ----- What can be said, and saying it -----

  function TextOf(f: Form): string {
    Join(Words(f))
  }

  lemma WordsSome(f: Form)
    ensures Words(f) != []
  {
  }

  lemma TextParses(norm: string -> string, f: Form)
    requires InLanguage(f) && Normalizes(norm)
    ensures Parse(norm, TextOf(f)) == Some(Means(f))
  {
    hide Words, Means, ParseParts;
    FormColonFree(f);
    WordsSome(f);
    SplitOfJoin(Words(f));
    FormParses(norm, f);
  }

  /** The actions that some text parses to are exactly the meanings of the forms, each through its own words. */
  lemma ParsedActionsExactly(norm: string -> string, a: Action)
    requires Normalizes(norm)
    ensures (exists f :: InLanguage(f) && Means(f) == a) <==> exists data :: Parse(norm, data) == Some(a)
    ensures forall f :: InLanguage(f) && Means(f) == a ==> Parse(norm, TextOf(f)) == Some(a)
  {
    hide InLanguage, Means, TextOf, ParseParts, Split, Normalizes;
    forall f | InLanguage(f) && Means(f) == a
      ensures Parse(norm, TextOf(f)) == Some(a)
    {
      TextParses(norm, f);
    }
    if data :| Parse(norm, data) == Some(a) {
      ParsedForm(norm, Split(data));
      assert InLanguage(FormOf(a)) && Means(FormOf(a)) == a;
    }
  }

  // ----- The builders -----

  /** The numbers a builder may be given; every other argument is a word of the language. */
  predicate ValidNumbers(b: Button) {
    match b
    case CreatorGroupPick(c) => ValidChat(c)
    case CreatorGroupOpen(_, c) => ValidChat(c)
    case CreatorPolicy(_, c, _) => ValidChat(c)
    case CreatorLanguageExecute(c, _) => ValidChat(c)
    case CreatorTagsExecute(c, _) => ValidChat(c)
    case CreatorGroupExecute(c, _) => ValidChat(c)
    case GroupRegister(c, t, _) => ValidChat(c) && 0 <= t <= MAX_INT64
    case GroupUnregister(c, _) => ValidChat(c)
    case _ => true
  }

  function FormOfButton(b: Button): Form {
    match b
    case ViewerRefresh => RefreshViewer
    case CreatorPlain(v) => OfCreator(v)
    case CreatorManageGroups => Screen(Open, Groups)
    case CreatorGraceOpen => Screen(Open, GraceTarget)
    case CreatorGroupBack => Screen(Back, Groups)
    case CreatorBlocklistToggle => ToggleBlocklist
    case CreatorGraceExecute(g) => SetGrace(g)
    case CreatorGroupPick(c) => PickGroup(Pick, c)
    case CreatorGroupOpen(t, c) => GroupScreen(Open, t, c)
    case CreatorPolicy(v, c, p) => SetPolicy(v, p, c)
    case CreatorLanguageExecute(c, l) => SetLanguage(Execute, l, c)
    case CreatorTagsExecute(c, t) => SetTags(Execute, t, c)
    case CreatorGroupExecute(c, r) => Unregister(r, c)
    case GroupRegister(c, t, p) => RegisterHere(p, c, t)
    case GroupUnregister(c, r) => UnregisterHere(r, c)
    case ResetPlain(v, o) => OfReset(v, o)
    case ResetScoped(v, o, s) => ResetScope(v, o, s)
    case ResetWithAction(v, o, s, r) => ResetScopeWith(v, o, s, r)
  }

  lemma ButtonMeans(b: Button)
    requires Exists(b)
    ensures Means(FormOfButton(b)) == ActionOf(b) && Fits(FormOfButton(b))
    ensures NumbersFit(FormOfButton(b)) <==> ValidNumbers(b)
  {
  }

  lemma ButtonBuilds(b: Button)
    requires Exists(b) && ValidNumbers(b)
    ensures BuildParts(b) == Words(FormOfButton(b))
  {
    hide Parts, Means, ActionOf, DomainText, VerbText, TargetText, ResetActionText, FormatInt;
    ButtonMeans(b);
    if !b.CreatorGroupExecute? { FormPrints(FormOfButton(b)); }
  }

  /** Parsing a button's text gives back the fields it was built from, exactly for valid numbers. */
  lemma ButtonRoundTrip(norm: string -> string, b: Button)
    requires Exists(b) && Normalizes(norm)
    ensures Parse(norm, Build(b)) == Some(ActionOf(b)) <==> ValidNumbers(b)
  {
    hide Means, ActionOf, Words, BuildParts, ParseParts, Split, FormOf, Fits, NumbersFit, Exists, ValidNumbers,
        FormOfButton, Normalizes;
    var f := FormOfButton(b);
    ButtonMeans(b);
    if ValidNumbers(b) {
      ButtonBuilds(b);
      TextParses(norm, f);
    } else if Parse(norm, Build(b)) == Some(ActionOf(b)) {
      ParsedForm(norm, Split(Build(b)));
      OneForm(f);
    }
  }

  /** Two different buttons never carry the same text. */
  lemma ButtonsAreInjective(b: Button, b': Button)
    requires Exists(b) && Exists(b') && ValidNumbers(b) && ValidNumbers(b') && Build(b) == Build(b')
    ensures b == b'
  {
    hide Parse, Build, Exists;
    var norm := (s: string) => s;
    ButtonRoundTrip(norm, b);
    ButtonRoundTrip(norm, b');
    FieldsNameButton(b, b');
  }

  lemma FieldsNameButton(b: Button, b': Button)
    requires Exists(b) && Exists(b') && ActionOf(b) == ActionOf(b')
    ensures b == b'
  {
  }

  // ----- Printing what was parsed -----

  /** Unregistering a group with an action: the one form whose text puts the target first. */
  predicate HandWritten(a: Action) {
    && ValidChat(a.chatID) && a.resetAction.Some?
    && a == Bare(CreatorD, Execute).(target := Some(OneGroup), resetAction := a.resetAction, chatID := a.chatID)
  }

  lemma HandWrittenForm(f: Form)
    requires InLanguage(f)
    ensures f.Unregister? <==> HandWritten(Means(f))
  {
  }

  lemma HandWrittenTarget(norm: string -> string, parts: seq<string>, a: Action)
    requires ParseParts(norm, parts) == Some(a) && HandWritten(a)
    ensures |parts| == 5 && parts[2] == TargetText(OneGroup)
  {
    hide TargetText, ParseDomain, ParseVerb, ParseTarget, ParseGroupPolicy, ParseLanguage, ParseGrace, ParseToggle,
         ParseResetAction, ParseOrigin, ParseScope, ParseInt64, ParseChat;
  }

  /** Printing the hand-written form swaps target and action, whatever they are. */
  lemma HandWrittenDiffers(norm: string -> string, parts: seq<string>, a: Action)
    requires ParseParts(norm, parts) == Some(a) && HandWritten(a)
    ensures Parts(a) != parts
  {
    hide ParseParts, Parts;
    var r := a.resetAction.value;
    HandWrittenTarget(norm, parts, a);
    assert a == Means(Unregister(r, a.chatID));
    UnregisterPrints(r, a.chatID);
    assert ResetActionText(r)[0] == 'k' && TargetText(OneGroup)[0] == 'g';
  }

  /**
   Printing a parsed action gives its text back exactly when the numbers and the language code were
   canonical and the action is not an unregistration with an action.
   */
  lemma PrintOfParseExact(norm: string -> string, data: string)
    requires Parse(norm, data).Some?
    ensures var a := Parse(norm, data).value;
            Print(a) == data <==> CanonicalText(Split(data), a) && !HandWritten(a)
  {
    hide Parts, ParseParts, CanonicalText, HandWritten, Means, Words, FormOf, InLanguage;
    var parts := Split(data);
    var a := ParseParts(norm, parts).value;
    SplitShape(data);
    PartsColonFree(a);
    PartsSome(a);
    SplitOfJoin(Parts(a));
    ParsedForm(norm, parts);
    HandWrittenForm(FormOf(a));
    if HandWritten(a) {
      HandWrittenDiffers(norm, parts, a);
    } else {
      FormPrints(FormOf(a));
    }
    assert Print(a) == data <==> Parts(a) == parts;
  }

  lemma PartsSome(a: Action)
    ensures Parts(a) != []
  {
  }
}
