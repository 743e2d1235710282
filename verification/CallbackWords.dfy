/** The words of the callback language: one enumeration per field, with its texts. */
module CallbackWords {
  import opened RedisCommands

  datatype Domain = ViewerD | CreatorD | GroupD | ResetD

  datatype Verb = Refresh | Register | Reconnect | Open | Pick | Back | Menu | Cancel | Execute | Export

  datatype Origin = FromViewer | FromCreator | FromCommand

  datatype Scope = ViewerData | CreatorData | BothData

  datatype Target =
    | Groups | OneGroup | GroupConfirm | Blocklist | GraceTarget | PolicyTarget | LanguageTarget | MemberTags

  datatype GroupPolicy = Observe | ObserveWarn | Kick | GraceWeek

  datatype Language = English | Italian

  datatype Grace = GraceOff | Grace24h | Grace48h | Grace72h

  datatype Toggle = On | Off

  datatype ResetAction = KeepMembers | KickTrackedMembers

  predicate ColonFree(s: string) {
    ':' !in s
  }

  function DomainText(x: Domain): string {
    match x
    case ViewerD => "viewer"
    case CreatorD => "creator"
    case GroupD => "group"
    case ResetD => "reset"
  }

  function ParseDomain(s: string): (r: Option<Domain>)
    ensures r.Some? ==> DomainText(r.value) == s
  {
    if s == "viewer" then Some(ViewerD)
    else if s == "creator" then Some(CreatorD)
    else if s == "group" then Some(GroupD)
    else if s == "reset" then Some(ResetD)
    else None
  }

  lemma DomainWord(x: Domain)
    ensures ParseDomain(DomainText(x)) == Some(x) && ColonFree(DomainText(x)) && DomainText(x) != ""
  {
  }

  function VerbText(x: Verb): string {
    match x
    case Refresh => "refresh"
    case Register => "register"
    case Reconnect => "reconnect"
    case Open => "open"
    case Pick => "pick"
    case Back => "back"
    case Menu => "menu"
    case Cancel => "cancel"
    case Execute => "exec"
    case Export => "export"
  }

  function ParseVerb(s: string): (r: Option<Verb>)
    ensures r.Some? ==> VerbText(r.value) == s
  {
    if s == "refresh" then Some(Refresh)
    else if s == "register" then Some(Register)
    else if s == "reconnect" then Some(Reconnect)
    else if s == "open" then Some(Open)
    else if s == "pick" then Some(Pick)
    else if s == "back" then Some(Back)
    else if s == "menu" then Some(Menu)
    else if s == "cancel" then Some(Cancel)
    else if s == "exec" then Some(Execute)
    else if s == "export" then Some(Export)
    else None
  }

  lemma VerbWord(x: Verb)
    ensures ParseVerb(VerbText(x)) == Some(x) && ColonFree(VerbText(x)) && VerbText(x) != ""
  {
  }

  function OriginText(x: Origin): string {
    match x
    case FromViewer => "viewer"
    case FromCreator => "creator"
    case FromCommand => "command"
  }

  function ParseOrigin(s: string): (r: Option<Origin>)
    ensures r.Some? ==> OriginText(r.value) == s
  {
    if s == "viewer" then Some(FromViewer)
    else if s == "creator" then Some(FromCreator)
    else if s == "command" then Some(FromCommand)
    else None
  }

  lemma OriginWord(x: Origin)
    ensures ParseOrigin(OriginText(x)) == Some(x) && ColonFree(OriginText(x)) && OriginText(x) != ""
  {
  }

  function ScopeText(x: Scope): string {
    match x
    case ViewerData => "viewer"
    case CreatorData => "creator"
    case BothData => "both"
  }

  function ParseScope(s: string): (r: Option<Scope>)
    ensures r.Some? ==> ScopeText(r.value) == s
  {
    if s == "viewer" then Some(ViewerData)
    else if s == "creator" then Some(CreatorData)
    else if s == "both" then Some(BothData)
    else None
  }

  lemma ScopeWord(x: Scope)
    ensures ParseScope(ScopeText(x)) == Some(x) && ColonFree(ScopeText(x)) && ScopeText(x) != ""
  {
  }

  function TargetText(x: Target): string {
    match x
    case Groups => "groups"
    case OneGroup => "group"
    case GroupConfirm => "group_confirm"
    case Blocklist => "blocklist"
    case GraceTarget => "grace"
    case PolicyTarget => "policy"
    case LanguageTarget => "language"
    case MemberTags => "member_tags"
  }

  function ParseTarget(s: string): (r: Option<Target>)
    ensures r.Some? ==> TargetText(r.value) == s
  {
    if s == "groups" then Some(Groups)
    else if s == "group" then Some(OneGroup)
    else if s == "group_confirm" then Some(GroupConfirm)
    else if s == "blocklist" then Some(Blocklist)
    else if s == "grace" then Some(GraceTarget)
    else if s == "policy" then Some(PolicyTarget)
    else if s == "language" then Some(LanguageTarget)
    else if s == "member_tags" then Some(MemberTags)
    else None
  }

  lemma TargetWord(x: Target)
    ensures ParseTarget(TargetText(x)) == Some(x) && ColonFree(TargetText(x)) && TargetText(x) != ""
  {
  }

  function GroupPolicyText(x: GroupPolicy): string {
    match x
    case Observe => "observe"
    case ObserveWarn => "observe_warn"
    case Kick => "kick"
    case GraceWeek => "grace_7d"
  }

  function ParseGroupPolicy(s: string): (r: Option<GroupPolicy>)
    ensures r.Some? ==> GroupPolicyText(r.value) == s
  {
    if s == "observe" then Some(Observe)
    else if s == "observe_warn" then Some(ObserveWarn)
    else if s == "kick" then Some(Kick)
    else if s == "grace_7d" then Some(GraceWeek)
    else None
  }

  lemma GroupPolicyWord(x: GroupPolicy)
    ensures ParseGroupPolicy(GroupPolicyText(x)) == Some(x) && ColonFree(GroupPolicyText(x)) && GroupPolicyText(x) != ""
  {
  }

  function LanguageText(x: Language): string {
    match x
    case English => "en"
    case Italian => "it"
  }

  function ParseLanguage(s: string): (r: Option<Language>)
    ensures r.Some? ==> LanguageText(r.value) == s
  {
    if s == "en" then Some(English)
    else if s == "it" then Some(Italian)
    else None
  }

  lemma LanguageWord(x: Language)
    ensures ParseLanguage(LanguageText(x)) == Some(x) && ColonFree(LanguageText(x)) && LanguageText(x) != ""
  {
  }

  function GraceText(x: Grace): string {
    match x
    case GraceOff => "off"
    case Grace24h => "24h"
    case Grace48h => "48h"
    case Grace72h => "72h"
  }

  function ParseGrace(s: string): (r: Option<Grace>)
    ensures r.Some? ==> GraceText(r.value) == s
  {
    if s == "off" then Some(GraceOff)
    else if s == "24h" then Some(Grace24h)
    else if s == "48h" then Some(Grace48h)
    else if s == "72h" then Some(Grace72h)
    else None
  }

  lemma GraceWord(x: Grace)
    ensures ParseGrace(GraceText(x)) == Some(x) && ColonFree(GraceText(x)) && GraceText(x) != ""
  {
  }

  function ToggleText(x: Toggle): string {
    match x
    case On => "on"
    case Off => "off"
  }

  function ParseToggle(s: string): (r: Option<Toggle>)
    ensures r.Some? ==> ToggleText(r.value) == s
  {
    if s == "on" then Some(On)
    else if s == "off" then Some(Off)
    else None
  }

  lemma ToggleWord(x: Toggle)
    ensures ParseToggle(ToggleText(x)) == Some(x) && ColonFree(ToggleText(x)) && ToggleText(x) != ""
  {
  }

  function ResetActionText(x: ResetAction): string {
    match x
    case KeepMembers => "keep_members"
    case KickTrackedMembers => "kick_tracked_members"
  }

  function ParseResetAction(s: string): (r: Option<ResetAction>)
    ensures r.Some? ==> ResetActionText(r.value) == s
  {
    if s == "keep_members" then Some(KeepMembers)
    else if s == "kick_tracked_members" then Some(KickTrackedMembers)
    else None
  }

  lemma ResetActionWord(x: ResetAction)
    ensures ParseResetAction(ResetActionText(x)) == Some(x) && ColonFree(ResetActionText(x)) && ResetActionText(x) != ""
  {
  }
}
