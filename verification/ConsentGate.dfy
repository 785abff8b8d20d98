/** A service provider of the consent demo: the gate before its tools, cut where it awaits the verification of
    a presentation, and the route that issues grants, cut where it awaits scopes, the grant and the disk. */
module ConsentGate {
  import opened Common
  import opened Lists
  import ScopeCatalogue

  // ---- What travels ---------------------------------------------------------------------------

  const GRANT_TYPE := "DelegationGrantCredential"

  datatype Credential = Credential(
    id: string,
    types: seq<string>,
    issuer: string,
    agentDid: string,
    userDid: string,
    scopes: seq<string>,
    statusIndex: nat)

  datatype Presentation = Presentation(credentials: seq<Credential>, holder: string, delegatedBy: string, targetService: string)

  /** A tool without a scope is open to everybody. */
  datatype Tool = Tool(name: string, requiredScope: Option<string>)

  datatype Provider = Provider(did: string, tools: seq<Tool>)

  function FindTool(tools: seq<Tool>, name: string): (r: Option<Tool>)
    ensures r.Some? ==> r.value in tools && r.value.name == name
    ensures r.None? ==> forall i :: 0 <= i < |tools| ==> tools[i].name != name
  {
    if tools == [] then None else if tools[0].name == name then Some(tools[0]) else FindTool(tools[1..], name)
  }

  predicate IsGrantFrom(c: Credential, did: string) {
    GRANT_TYPE in c.types && c.issuer == did
  }

  predicate HasGrantFrom(vp: Presentation, did: string) {
    exists i :: 0 <= i < |vp.credentials| && IsGrantFrom(vp.credentials[i], did)
  }

  /** What `verifyVP` came back with. */
  datatype Verification = Verified(effectiveScopes: seq<string>) | NotVerified(code: string)

  datatype Refusal = NoPresentation | NoGrantForThisService | InsufficientEffectiveScope

  datatype Answer =
    | Output
    | ConsentRequired(reason: Refusal, requiredScope: string)
    | VpInvalid(code: string)
    | UnknownTool

  /** Policy, once the presentation is sound: a grant of this provider, then the scope itself. */
  function AfterVerification(did: string, scope: string, vp: Presentation, effectiveScopes: seq<string>): Answer {
    if !HasGrantFrom(vp, did) then ConsentRequired(NoGrantForThisService, scope)
    else if scope !in effectiveScopes then ConsentRequired(InsufficientEffectiveScope, scope)
    else Output
  }

  // ---- State ------------------------------------------------------------------------------------

  datatype Event =
    | OpenToolInvoked
    | VcPresented
    | VpVerified(effectiveScopes: seq<string>)
    | VpRejected(code: string)
    | AuthzDenied(reason: Refusal)
    | AuthzGranted(requiredScope: string, effectiveScopes: seq<string>)
    | ToolInvoked
    | VcIssued(grantId: string)

  /** Which handler activation logged an event: a tool call or an accept. */
  datatype Source = Call(number: nat) | Accepting(number: nat)

  datatype Entry = Entry(source: Source, event: Event)

  datatype Progress = Waiting | Answered(answer: Answer)

  /** A tool call: the tool, the scope it needs ("" if none), and how far the handler is. */
  datatype ToolCall = ToolCall(name: string, scope: string, vp: Option<Presentation>, progress: Progress)

  datatype Selection = Selection(agentDid: string, userDid: string, scopes: seq<string>, durability: string)

  datatype AcceptError = InvalidRequest | MissingRequiredScope | ScopeResolutionFailed | GrantIssuanceFailed

  /** An accept: waiting for the scope catalogue, for the signed grant, for the disk; or over. If the disk
      failed the caller got an error, yet the grant stays recorded. */
  datatype Accept =
    | Resolving(selection: Selection)
    | Issuing(selection: Selection, statusList: set<nat>)
    | Flushing(grant: Credential)
    | Granted(grant: Credential)
    | Unflushed(grant: Credential)
    | Rejected(error: AcceptError)

  /** `statusList` holds the allocated indices. */
  datatype State = State(
    consentRequired: nat,
    grantsIssued: nat,
    audit: seq<Entry>,
    grants: seq<Credential>,
    statusList: set<nat>,
    calls: seq<ToolCall>,
    accepts: seq<Accept>)

  const INITIAL := State(0, 0, [], [], {}, [], [])

  // ---- The gate ---------------------------------------------------------------------------------

  function Note(s: State, source: Source, event: Event): State {
    s.(audit := s.audit + [Entry(source, event)])
  }

  function Refuse(s: State, k: nat, reason: Refusal): State {
    Note(s.(consentRequired := s.consentRequired + 1), Call(k), AuthzDenied(reason))
  }

  function Finish(s: State, k: nat, answer: Answer): State
    requires k < |s.calls|
  {
    s.(calls := s.calls[k := s.calls[k].(progress := Answered(answer))])
  }

  /** The scope a call needs, "" if the tool is open or unknown. */
  function NeededScope(provider: Provider, name: string): string {
    match FindTool(provider.tools, name)
    case Some(tool) => if tool.requiredScope.Some? then tool.requiredScope.value else ""
    case None => ""
  }

  /** A tool call up to its first await. */
  function Receive(provider: Provider, s: State, name: string, vp: Option<Presentation>): State {
    var k, scope := |s.calls|, NeededScope(provider, name);
    var s1 := s.(calls := s.calls + [ToolCall(name, scope, vp, Waiting)]);
    if FindTool(provider.tools, name).None? then Finish(s1, k, UnknownTool)
    else if scope == "" then Finish(Note(s1, Call(k), OpenToolInvoked), k, Output)
    else if vp.None? then Finish(Refuse(s1, k, NoPresentation), k, ConsentRequired(NoPresentation, scope))
    else Note(s1, Call(k), VcPresented)
  }

  predicate AwaitsVerification(s: State, k: nat) {
    k < |s.calls| && s.calls[k].progress.Waiting? && s.calls[k].vp.Some?
  }

  /** The rest of a tool call, once the verification is in. */
  function Resume(provider: Provider, s: State, k: nat, verification: Verification): State
    requires AwaitsVerification(s, k)
  {
    var (scope, vp) := (s.calls[k].scope, s.calls[k].vp.value);
    match verification
    case NotVerified(code) => Finish(Note(s, Call(k), VpRejected(code)), k, VpInvalid(code))
    case Verified(effectiveScopes) =>
      var s1 := Note(s, Call(k), VpVerified(effectiveScopes));
      var answer := AfterVerification(provider.did, scope, vp, effectiveScopes);
      if answer.ConsentRequired? then Finish(Refuse(s1, k, answer.reason), k, answer)
      else Finish(Note(Note(s1, Call(k), AuthzGranted(scope, effectiveScopes)), Call(k), ToolInvoked), k, answer)
  }

  /** What the gate answers, all in all. */
  function Decide(provider: Provider, name: string, vp: Option<Presentation>, verification: Verification): Answer {
    var scope := NeededScope(provider, name);
    if FindTool(provider.tools, name).None? then UnknownTool
    else if scope == "" then Output
    else if vp.None? then ConsentRequired(NoPresentation, scope)
    else if verification.NotVerified? then VpInvalid(verification.code)
    else AfterVerification(provider.did, scope, vp.value, verification.effectiveScopes)
  }

  // ---- The accept route -----------------------------------------------------------------------------

  predicate IsComplete(selection: Selection) {
    selection.agentDid != "" && selection.userDid != "" && selection.durability != ""
  }

  function BeginAccept(s: State, selection: Selection): State {
    s.(accepts := s.accepts + [if IsComplete(selection) then Resolving(selection) else Rejected(InvalidRequest)])
  }

  /** The grant is asked for with the status list of this moment. */
  function Resolved(s: State, k: nat, catalogue: Option<seq<ScopeCatalogue.ScopeOption>>): State
    requires k < |s.accepts| && s.accepts[k].Resolving?
  {
    var selection := s.accepts[k].selection;
    s.(accepts := s.accepts[k :=
      match catalogue
      case None => Rejected(ScopeResolutionFailed)
      case Some(options) =>
        if ScopeCatalogue.MissesNone(options, selection.scopes) then Issuing(selection, s.statusList) else Rejected(MissingRequiredScope)])
  }

  /** Recording pushes the grant and puts the new list in place of the stored one, then waits for the disk. */
  function Issued(s: State, k: nat, grant: Option<Credential>): State
    requires k < |s.accepts| && s.accepts[k].Issuing?
  {
    match grant
    case None => s.(accepts := s.accepts[k := Rejected(GrantIssuanceFailed)])
    case Some(vc) =>
      s.(grants := s.grants + [vc], statusList := s.accepts[k].statusList + {vc.statusIndex}, accepts := s.accepts[k := Flushing(vc)])
  }

  function Flushed(s: State, k: nat, ok: bool): State
    requires k < |s.accepts| && s.accepts[k].Flushing?
  {
    var vc := s.accepts[k].grant;
    if ok then
      Note(s.(grantsIssued := s.grantsIssued + 1, accepts := s.accepts[k := Granted(vc)]), Accepting(k), VcIssued(vc.id))
    else s.(accepts := s.accepts[k := Unflushed(vc)])
  }

  // ---- Runs --------------------------------------------------------------------------------------------

  datatype Step =
    | ReceiveStep(name: string, vp: Option<Presentation>)
    | ResumeStep(k: nat, verification: Verification)
    | BeginAcceptStep(selection: Selection)
    | ResolvedStep(k: nat, catalogue: Option<seq<ScopeCatalogue.ScopeOption>>)
    | IssuedStep(k: nat, grant: Option<Credential>)
    | FlushedStep(k: nat, ok: bool)

  /** A handler can only go on from where it waits; a grant's index is free in the list it was asked with. */
  predicate Enabled(s: State, step: Step) {
    match step
    case ReceiveStep(_, _) => true
    case ResumeStep(k, _) => AwaitsVerification(s, k)
    case BeginAcceptStep(_) => true
    case ResolvedStep(k, _) => k < |s.accepts| && s.accepts[k].Resolving?
    case IssuedStep(k, grant) =>
      && k < |s.accepts| && s.accepts[k].Issuing?
      && (grant.Some? ==> grant.value.statusIndex !in s.accepts[k].statusList)
    case FlushedStep(k, _) => k < |s.accepts| && s.accepts[k].Flushing?
  }

  function Next(provider: Provider, s: State, step: Step): State
    requires Enabled(s, step)
  {
    match step
    case ReceiveStep(name, vp) => Receive(provider, s, name, vp)
    case ResumeStep(k, verification) => Resume(provider, s, k, verification)
    case BeginAcceptStep(selection) => BeginAccept(s, selection)
    case ResolvedStep(k, catalogue) => Resolved(s, k, catalogue)
    case IssuedStep(k, grant) => Issued(s, k, grant)
    case FlushedStep(k, ok) => Flushed(s, k, ok)
  }

  predicate Possible(provider: Provider, s: State, run: seq<Step>)
    decreases |run|
  {
    run == [] || (Enabled(s, run[0]) && Possible(provider, Next(provider, s, run[0]), run[1..]))
  }

  function Run(provider: Provider, s: State, run: seq<Step>): State
    requires Possible(provider, s, run)
    decreases |run|
  {
    if run == [] then s else Run(provider, Next(provider, s, run[0]), run[1..])
  }
}
