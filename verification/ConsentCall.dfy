/** The agent's side: one tool call, at most one consent prompt, at most one retry. */
module ConsentCall {
  import opened Common
  import opened ConsentGate
  import ConsentTheorems
  import Lists

  const AGENT_TYPE := "HelixAgentCredential"

  type Credentials = seq<Credential>

  function FindAgentCredential(credentials: Credentials): (r: Option<Credential>)
    ensures r.Some? ==> r.value in credentials && AGENT_TYPE in r.value.types
  {
    if credentials == [] then None
    else if AGENT_TYPE in credentials[0].types then Some(credentials[0])
    else FindAgentCredential(credentials[1..])
  }

  predicate Matches(c: Credential, serviceDid: string, userDid: string) {
    IsGrantFrom(c, serviceDid) && c.userDid == userDid
  }

  /** `AgentWallet.selectGrant`: some stored grant of the service and the user, if there is one. */
  type Selector = (Credentials, string, string) -> Option<Credential>

  ghost predicate SelectsAMatch(select: Selector) {
    forall credentials, serviceDid, userDid ::
      match select(credentials, serviceDid, userDid)
      case Some(c) => c in credentials && Matches(c, serviceDid, userDid)
      case None => forall i :: 0 <= i < |credentials| ==> !Matches(credentials[i], serviceDid, userDid)
  }

  /** The agent's key, and what it is asked to call for whom. */
  datatype Options = Options(agentDid: string, serviceDid: string, userDid: string, toolName: string)

  datatype CallResult =
    | Completed(ok: bool, consentPrompted: bool, code: string)
    | ConsentDeclined
    | NoAgentCredential

  /** What the provider answers the i-th post of a call, and what the user decides about a scope. */
  datatype World = World(post: (nat, Presentation) -> Answer, consent: string -> Option<Credential>)

  /** All one call did: its result, the presentations it posted, its prompts and the wallet it left. */
  datatype Transcript = Transcript(result: CallResult, posts: seq<Presentation>, prompts: nat, wallet: Credentials)

  function BuildVp(agentVc: Credential, o: Options, grant: Option<Credential>): Presentation {
    Presentation(if grant.Some? then [agentVc, grant.value] else [agentVc], o.agentDid, o.userDid, o.serviceDid)
  }

  function ErrorCode(answer: Answer): string {
    match answer
    case Output => ""
    case ConsentRequired(_, _) => "CONSENT_REQUIRED"
    case VpInvalid(_) => "VP_INVALID"
    case UnknownTool => "CALL_FAILED"
  }

  function CallSpTool(wallet: Credentials, select: Selector, o: Options, world: World): Transcript {
    var agentVc := FindAgentCredential(wallet);
    if agentVc.None? then Transcript(NoAgentCredential, [], 0, wallet)
    else
      var vp := BuildVp(agentVc.value, o, select(wallet, o.serviceDid, o.userDid));
      var first := world.post(0, vp);
      if !first.ConsentRequired? then Transcript(Completed(first.Output?, false, ErrorCode(first)), [vp], 0, wallet)
      else
        match world.consent(first.requiredScope)
        case None => Transcript(ConsentDeclined, [vp], 1, wallet)
        case Some(grant) =>
          var retryVp := BuildVp(agentVc.value, o, Some(grant));
          var retry := world.post(1, retryVp);
          Transcript(Completed(retry.Output?, true, ErrorCode(retry)), [vp, retryVp], 1, wallet + [grant])
  }

  class AgentWallet {
    const did: string
    const select: Selector
    var credentials: Credentials

    constructor (did: string, select: Selector, credentials: Credentials)
      ensures this.did == did && this.select == select && this.credentials == credentials
    {
      this.did, this.select, this.credentials := did, select, credentials;
    }

    method AddCredential(c: Credential)
      modifies this
      ensures credentials == old(credentials) + [c]
    {
      credentials := credentials + [c];
    }

    /** `callSpTool` */
    method Call(serviceDid: string, userDid: string, toolName: string, world: World)
      returns (result: CallResult, posts: seq<Presentation>, prompts: nat)
      modifies this
      ensures Transcript(result, posts, prompts, credentials)
           == CallSpTool(old(credentials), select, Options(did, serviceDid, userDid, toolName), world)
    {
      posts, prompts := [], 0;
      var o := Options(did, serviceDid, userDid, toolName);
      var existing := select(credentials, serviceDid, userDid);
      var agentVc := FindAgentCredential(credentials);
      if agentVc.None? {
        return NoAgentCredential, posts, prompts;
      }
      var vp := BuildVp(agentVc.value, o, existing);
      posts := posts + [vp];
      var first := world.post(0, vp);
      if first.Output? {
        return Completed(true, false, ""), posts, prompts;
      }
      if !first.ConsentRequired? {
        return Completed(false, false, ErrorCode(first)), posts, prompts;
      }
      prompts := prompts + 1;
      var grant := world.consent(first.requiredScope);
      if grant.None? {
        return ConsentDeclined, posts, prompts;
      }
      AddCredential(grant.value);
      var retryVp := BuildVp(agentVc.value, o, grant);
      posts := posts + [retryVp];
      var retry := world.post(1, retryVp);
      result := Completed(retry.Output?, true, ErrorCode(retry));
    }
  }

  // ---- What one call can do ------------------------------------------------------------------------

  /** At most two posts and one prompt, prompting exactly on CONSENT_REQUIRED; the wallet gains a grant exactly
      when the prompt returned one. */
  lemma OnePromptTwoPosts(wallet: Credentials, select: Selector, o: Options, world: World)
    ensures var t := CallSpTool(wallet, select, o, world);
            && t.prompts <= 1 && |t.posts| <= 1 + t.prompts
            && (t.prompts == 1 <==> t.posts != [] && world.post(0, t.posts[0]).ConsentRequired?)
            && (t.wallet != wallet <==> |t.posts| == 2)
            && (|t.posts| == 2 ==> t.prompts == 1 && exists grant ::
                  world.consent(world.post(0, t.posts[0]).requiredScope) == Some(grant) && t.wallet == wallet + [grant])
  {
    var t := CallSpTool(wallet, select, o, world);
    if |t.posts| == 2 {
      var grant := world.consent(world.post(0, t.posts[0]).requiredScope).value;
      assert t.wallet == wallet + [grant] && |t.wallet| == |wallet| + 1;
    }
  }

  /** What a call comes to: no post without an agent credential; declined exactly if prompted and refused; else what the last
      post was answered, said ok or by its error code. The presentation posted first carries the grant the wallet chose,
      the second the one just granted, each after the agent's own credential. */
  lemma ResultIsTheLastAnswer(wallet: Credentials, select: Selector, o: Options, world: World)
    ensures var t := CallSpTool(wallet, select, o, world);
            var vc := FindAgentCredential(wallet);
            && (t.result == NoAgentCredential <==> vc.None?) && (t.posts == [] <==> vc.None?)
            && (t.result == ConsentDeclined <==> t.prompts == 1 && |t.posts| == 1)
            && (t.result.Completed? ==>
                  var last := world.post(|t.posts| - 1, t.posts[|t.posts| - 1]);
                  && t.result.ok == last.Output? && t.result.consentPrompted == (|t.posts| == 2)
                  && t.result.code == ErrorCode(last))
            && (vc.Some? ==>
                  t.posts[0].credentials == [vc.value] + (match select(wallet, o.serviceDid, o.userDid) case Some(c) => [c] case None => []))
            && (|t.posts| == 2 ==> t.posts[1].credentials == [vc.value, t.wallet[|wallet|]])
            && (forall i :: 0 <= i < |t.posts| ==>
                  t.posts[i].holder == o.agentDid && t.posts[i].delegatedBy == o.userDid && t.posts[i].targetService == o.serviceDid)
  {
  }

  /** The provider behind the posts: its gate, with whatever each verification came back with. */
  ghost predicate IsGateOf(world: World, provider: Provider, o: Options, verify: (nat, Presentation) -> Verification) {
    forall i, vp :: world.post(i, vp) == Decide(provider, o.toolName, Some(vp), verify(i, vp))
  }

  /** A scoped tool only ever succeeds on a presentation that verified for the scope and held the provider's grant. */
  lemma OkOnlyIfGranted(
      wallet: Credentials, select: Selector, o: Options, world: World, provider: Provider, verify: (nat, Presentation) -> Verification)
    requires IsGateOf(world, provider, o, verify) && NeededScope(provider, o.toolName) != ""
    requires CallSpTool(wallet, select, o, world).result.Completed? && CallSpTool(wallet, select, o, world).result.ok
    ensures var posts := CallSpTool(wallet, select, o, world).posts;
            var i := |posts| - 1;
            && i >= 0
            && HasGrantFrom(posts[i], provider.did)
            && verify(i, posts[i]).Verified? && NeededScope(provider, o.toolName) in verify(i, posts[i]).effectiveScopes
  {
    hide FindTool, HasGrantFrom;
    var t := CallSpTool(wallet, select, o, world);
    var i: nat := |t.posts| - 1;
    assert world.post(i, t.posts[i]) == Decide(provider, o.toolName, Some(t.posts[i]), verify(i, t.posts[i]));
  }

  // ---- Standing grants --------------------------------------------------------------------------------

  /** What the shared verifier promises: credentials in force, held by their subject and meant for this service
      and user, verify to the agent's scopes that the grant also gives. */
  ghost predicate Honours(verify: (nat, Presentation) -> Verification, inForce: set<string>) {
    forall i, vp: Presentation :: |vp.credentials| == 2 && InOrder(vp, inForce) ==>
      && verify(i, vp).Verified?
      && forall scope :: scope in verify(i, vp).effectiveScopes
                         <==> scope in vp.credentials[0].scopes && scope in vp.credentials[1].scopes
  }

  predicate InOrder(vp: Presentation, inForce: set<string>) {
    && |vp.credentials| == 2
    && vp.credentials[0].id in inForce && vp.credentials[1].id in inForce
    && AGENT_TYPE in vp.credentials[0].types && vp.credentials[0].agentDid == vp.holder
    && Matches(vp.credentials[1], vp.targetService, vp.delegatedBy) && vp.credentials[1].agentDid == vp.holder
  }

  /** The wallet's agent credential is in force and reaches the scope. */
  predicate AgentReaches(wallet: Credentials, agentDid: string, scope: string, inForce: set<string>) {
    var vc := FindAgentCredential(wallet);
    vc.Some? && vc.value.id in inForce && vc.value.agentDid == agentDid && scope in vc.value.scopes
  }

  predicate GrantReaches(c: Credential, agentDid: string, scope: string, inForce: set<string>) {
    c.id in inForce && c.agentDid == agentDid && scope in c.scopes
  }

  /** With the selected grant in force for this agent and within the agent's ceiling, a call succeeds on its first
      post, without a prompt, exactly when that grant covers the tool's scope. */
  lemma StandingGrantSufficesIff(
      wallet: Credentials, select: Selector, o: Options, world: World, provider: Provider,
      verify: (nat, Presentation) -> Verification, inForce: set<string>)
    requires IsGateOf(world, provider, o, verify) && Honours(verify, inForce) && SelectsAMatch(select)
    requires provider.did == o.serviceDid && NeededScope(provider, o.toolName) != ""
    requires AgentReaches(wallet, o.agentDid, NeededScope(provider, o.toolName), inForce)
    requires var grant := select(wallet, o.serviceDid, o.userDid);
             grant.Some? && grant.value.id in inForce && grant.value.agentDid == o.agentDid
    ensures var t := CallSpTool(wallet, select, o, world);
            var covered := NeededScope(provider, o.toolName) in select(wallet, o.serviceDid, o.userDid).value.scopes;
            && (t.result == Completed(true, false, "") && |t.posts| == 1 && t.prompts == 0 && t.wallet == wallet <==> covered)
            && (t.prompts == 1 <==> !covered)
  {
    hide FindTool;
    var scope := NeededScope(provider, o.toolName);
    var agentVc := FindAgentCredential(wallet).value;
    var grant := select(wallet, o.serviceDid, o.userDid);
    var vp := BuildVp(agentVc, o, grant);
    assert InOrder(vp, inForce);
    assert IsGrantFrom(vp.credentials[1], provider.did);
    ConsentTheorems.ScopedToolIsKnown(provider, o.toolName);
    assert world.post(0, vp) == Decide(provider, o.toolName, Some(vp), verify(0, vp));
  }

  /** The wallet has a grant of the service for the user, and every one it has covers the scope. */
  predicate Covered(wallet: Credentials, o: Options, scope: string, inForce: set<string>) {
    && (exists i :: 0 <= i < |wallet| && Matches(wallet[i], o.serviceDid, o.userDid))
    && (forall i :: 0 <= i < |wallet| && Matches(wallet[i], o.serviceDid, o.userDid) ==> GrantReaches(wallet[i], o.agentDid, scope, inForce))
  }

  /** A call of some tool somewhere, for some user. */
  datatype Errand = Errand(options: Options, world: World)

  function WalletAfter(wallet: Credentials, select: Selector, errands: seq<Errand>): Credentials
    decreases |errands|
  {
    if errands == [] then wallet
    else WalletAfter(CallSpTool(wallet, select, errands[0].options, errands[0].world).wallet, select, errands[1..])
  }

  /** Whatever these errands are granted for the service and user also covers the scope. */
  ghost predicate GrantsCover(errands: seq<Errand>, o: Options, scope: string, inForce: set<string>) {
    forall i, asked :: 0 <= i < |errands| && errands[i].world.consent(asked).Some? ==>
      var grant := errands[i].world.consent(asked).value;
      Matches(grant, o.serviceDid, o.userDid) ==> GrantReaches(grant, o.agentDid, scope, inForce)
  }

  lemma {:induction false} AppendKeepsAgentCredential(wallet: Credentials, c: Credential)
    requires FindAgentCredential(wallet).Some?
    ensures FindAgentCredential(wallet + [c]) == FindAgentCredential(wallet)
  {
    if AGENT_TYPE !in wallet[0].types {
      AppendKeepsAgentCredential(wallet[1..], c);
      assert (wallet + [c])[1..] == wallet[1..] + [c];
    }
  }

  lemma ErrandKeepsCovered(
      wallet: Credentials, select: Selector, errand: Errand, o: Options, scope: string, inForce: set<string>)
    requires Covered(wallet, o, scope, inForce) && AgentReaches(wallet, o.agentDid, scope, inForce)
    requires GrantsCover([errand], o, scope, inForce)
    ensures var wallet' := CallSpTool(wallet, select, errand.options, errand.world).wallet;
            Covered(wallet', o, scope, inForce) && AgentReaches(wallet', o.agentDid, scope, inForce)
  {
    hide Matches, GrantReaches;
    var t := CallSpTool(wallet, select, errand.options, errand.world);
    if t.wallet != wallet {
      var asked := errand.world.post(0, t.posts[0]).requiredScope;
      var grant := errand.world.consent(asked).value;
      assert [errand][0].world.consent(asked).Some?;
      AppendKeepsAgentCredential(wallet, grant);
      var i :| 0 <= i < |wallet| && Matches(wallet[i], o.serviceDid, o.userDid);
      assert Matches(t.wallet[i], o.serviceDid, o.userDid);
    }
  }

  lemma {:induction false} ErrandsKeepCovered(
      wallet: Credentials, select: Selector, errands: seq<Errand>, o: Options, scope: string, inForce: set<string>)
    requires Covered(wallet, o, scope, inForce) && AgentReaches(wallet, o.agentDid, scope, inForce)
    requires GrantsCover(errands, o, scope, inForce)
    ensures var wallet' := WalletAfter(wallet, select, errands);
            Covered(wallet', o, scope, inForce) && AgentReaches(wallet', o.agentDid, scope, inForce)
    decreases |errands|
  {
    hide Covered, AgentReaches, CallSpTool, Matches, GrantReaches;
    if errands != [] {
      assert forall asked :: errands[0].world.consent(asked) == [errands[0]][0].world.consent(asked);
      ErrandKeepsCovered(wallet, select, errands[0], o, scope, inForce);
      assert forall i :: 0 <= i < |errands| - 1 ==> errands[1..][i] == errands[i + 1];
      ErrandsKeepCovered(CallSpTool(wallet, select, errands[0].options, errands[0].world).wallet, select, errands[1..], o, scope, inForce);
    }
  }

  /** Once the wallet is covered for a service, a user and a scope, then after any errands every call of a tool that
      needs the scope succeeds on one post, without a prompt and without storing anything. */
  lemma CoveredNeverPromptsAgain(
      wallet: Credentials, select: Selector, errands: seq<Errand>, o: Options, world: World, provider: Provider,
      verify: (nat, Presentation) -> Verification, inForce: set<string>)
    requires IsGateOf(world, provider, o, verify) && Honours(verify, inForce) && SelectsAMatch(select)
    requires provider.did == o.serviceDid && NeededScope(provider, o.toolName) != ""
    requires var scope := NeededScope(provider, o.toolName);
             Covered(wallet, o, scope, inForce) && AgentReaches(wallet, o.agentDid, scope, inForce) && GrantsCover(errands, o, scope, inForce)
    ensures var wallet' := WalletAfter(wallet, select, errands);
            var t := CallSpTool(wallet', select, o, world);
            t.result == Completed(true, false, "") && |t.posts| == 1 && t.prompts == 0 && t.wallet == wallet'
  {
    hide FindTool, CallSpTool, IsGateOf, Honours, GrantsCover, WalletAfter, AgentReaches, Matches;
    var scope := NeededScope(provider, o.toolName);
    ErrandsKeepCovered(wallet, select, errands, o, scope, inForce);
    var wallet' := WalletAfter(wallet, select, errands);
    var grant := select(wallet', o.serviceDid, o.userDid);
    var i :| 0 <= i < |wallet'| && Matches(wallet'[i], o.serviceDid, o.userDid);
    assert grant.Some?;
    assert GrantReaches(grant.value, o.agentDid, scope, inForce);
    StandingGrantSufficesIff(wallet', select, o, world, provider, verify, inForce);
  }

  /** The first time: no grant yet, the gate asks, the user grants the scope; the retry succeeds, and from then on the
      wallet is covered. */
  lemma FirstConsentCovers(
      wallet: Credentials, select: Selector, o: Options, world: World, provider: Provider,
      verify: (nat, Presentation) -> Verification, inForce: set<string>)
    requires IsGateOf(world, provider, o, verify) && Honours(verify, inForce) && SelectsAMatch(select)
    requires provider.did == o.serviceDid && NeededScope(provider, o.toolName) != ""
    requires AgentReaches(wallet, o.agentDid, NeededScope(provider, o.toolName), inForce)
    requires forall i :: 0 <= i < |wallet| ==> !Matches(wallet[i], o.serviceDid, o.userDid)
    requires CallSpTool(wallet, select, o, world).prompts == 1
    requires var scope := NeededScope(provider, o.toolName);
             && world.consent(scope).Some?
             && Matches(world.consent(scope).value, o.serviceDid, o.userDid)
             && GrantReaches(world.consent(scope).value, o.agentDid, scope, inForce)
    ensures var (scope, t) := (NeededScope(provider, o.toolName), CallSpTool(wallet, select, o, world));
            && t.result == Completed(true, true, "")
            && Covered(t.wallet, o, scope, inForce) && AgentReaches(t.wallet, o.agentDid, scope, inForce)
  {
    hide FindTool;
    var scope := NeededScope(provider, o.toolName);
    var t := CallSpTool(wallet, select, o, world);
    var grant := world.consent(scope).value;
    assert world.post(0, t.posts[0]) == Decide(provider, o.toolName, Some(t.posts[0]), verify(0, t.posts[0]));
    var retryVp := BuildVp(FindAgentCredential(wallet).value, o, Some(grant));
    assert InOrder(retryVp, inForce);
    assert IsGrantFrom(retryVp.credentials[1], provider.did);
    assert world.post(1, retryVp) == Decide(provider, o.toolName, Some(retryVp), verify(1, retryVp));
    ConsentTheorems.ScopedToolIsKnown(provider, o.toolName);
    AppendKeepsAgentCredential(wallet, grant);
    assert t.wallet == wallet + [grant] && t.wallet[|wallet|] == grant;
  }

  // ---- The consent counter -----------------------------------------------------------------------------

  /** On the provider's side a call moves the consent counter exactly when it is answered CONSENT_REQUIRED. */
  lemma CounterMovesIffConsentRequired(provider: Provider, s: State, k: nat, verification: Verification)
    requires AwaitsVerification(s, k) && ConsentTheorems.IsOfProvider(provider, s.calls[k])
    ensures Resume(provider, s, k, verification).consentRequired
         == s.consentRequired
            + (if Decide(provider, s.calls[k].name, s.calls[k].vp, verification).ConsentRequired? then 1 else 0)
  {
    ConsentTheorems.ScopedToolIsKnown(provider, s.calls[k].name);
  }

  /** A post to the gate as it is served: what comes before it, what other handlers do while it is verified, and
      what the verification comes back with. */
  datatype Service = Service(before: State, name: string, vp: Presentation, meanwhile: seq<Step>, verification: Verification)

  function Received(provider: Provider, v: Service): State {
    Receive(provider, v.before, v.name, Some(v.vp))
  }

  ghost predicate CanServe(provider: Provider, v: Service) {
    && NeededScope(provider, v.name) != ""
    && Possible(provider, Received(provider, v), v.meanwhile)
    && ConsentTheorems.IsByOthers(v.meanwhile, |v.before.calls|)
  }

  ghost function Verifying(provider: Provider, v: Service): (s: State)
    requires CanServe(provider, v)
    ensures AwaitsVerification(s, |v.before.calls|)
  {
    StillWaits(provider, v);
    Run(provider, Received(provider, v), v.meanwhile)
  }

  ghost function Served(provider: Provider, v: Service): State
    requires CanServe(provider, v)
  {
    Resume(provider, Verifying(provider, v), |v.before.calls|, v.verification)
  }

  lemma StillWaits(provider: Provider, v: Service)
    requires CanServe(provider, v)
    ensures var (s, k) := (Run(provider, Received(provider, v), v.meanwhile), |v.before.calls|);
            && AwaitsVerification(s, k)
            && s.calls[k] == ToolCall(v.name, NeededScope(provider, v.name), Some(v.vp), Waiting)
    ensures Received(provider, v).consentRequired == v.before.consentRequired
  {
    hide FindTool, Next, Run;
    ConsentTheorems.ScopedToolIsKnown(provider, v.name);
    ConsentTheorems.CallOutlastsOthers(provider, Received(provider, v), v.meanwhile, |v.before.calls|);
  }

  /** How far the consent counter moves in the post's own steps. */
  ghost function OwnMoves(provider: Provider, v: Service): int
    requires CanServe(provider, v)
  {
    (Received(provider, v).consentRequired - v.before.consentRequired)
    + (Served(provider, v).consentRequired - Verifying(provider, v).consentRequired)
  }

  /** Whatever runs in between, a post is answered by its own tool, presentation and verification, and its own steps
      move the counter once if the answer is CONSENT_REQUIRED and not at all otherwise. */
  lemma ServiceDecides(provider: Provider, v: Service)
    requires CanServe(provider, v)
    ensures var answer := Decide(provider, v.name, Some(v.vp), v.verification);
            && |Served(provider, v).calls| > |v.before.calls|
            && Served(provider, v).calls[|v.before.calls|].progress == Answered(answer)
            && OwnMoves(provider, v) == if answer.ConsentRequired? then 1 else 0
  {
    var s, k := Verifying(provider, v), |v.before.calls|;
    StillWaits(provider, v);
    ConsentTheorems.ResumeDecides(provider, s, k, v.verification);
    CounterMovesIffConsentRequired(provider, s, k, v.verification);
  }

  /** The first post of a call is served by this gate, and the call gets the gate's answer. */
  ghost predicate IsServedBy(
      wallet: Credentials, select: Selector, o: Options, world: World, provider: Provider, v: Service, verify: (nat, Presentation) -> Verification)
  {
    && CanServe(provider, v) && v.name == o.toolName && v.verification == verify(0, v.vp)
    && FindAgentCredential(wallet).Some?
    && v.vp == BuildVp(FindAgentCredential(wallet).value, o, select(wallet, o.serviceDid, o.userDid))
    && |Served(provider, v).calls| > |v.before.calls|
    && Served(provider, v).calls[|v.before.calls|].progress == Answered(world.post(0, v.vp))
  }

  /** A covered call, after any errands and with any other handlers running at the provider while it is served,
      succeeds on one post without a prompt, and none of its steps moves the provider's consent counter. */
  lemma CoveredCallLeavesTheCounter(
      wallet: Credentials, select: Selector, errands: seq<Errand>, o: Options, world: World, provider: Provider, v: Service,
      verify: (nat, Presentation) -> Verification, inForce: set<string>)
    requires Honours(verify, inForce) && SelectsAMatch(select)
    requires provider.did == o.serviceDid && NeededScope(provider, o.toolName) != ""
    requires var scope := NeededScope(provider, o.toolName);
             Covered(wallet, o, scope, inForce) && AgentReaches(wallet, o.agentDid, scope, inForce) && GrantsCover(errands, o, scope, inForce)
    requires IsServedBy(WalletAfter(wallet, select, errands), select, o, world, provider, v, verify)
    ensures OwnMoves(provider, v) == 0
    ensures var wallet' := WalletAfter(wallet, select, errands);
            var t := CallSpTool(wallet', select, o, world);
            t.result == Completed(true, false, "") && t.posts == [v.vp] && t.prompts == 0 && t.wallet == wallet'
  {
    var post := (i: nat, vp: Presentation) => Decide(provider, o.toolName, Some(vp), verify(i, vp));
    var gate := World(post, world.consent);
    hide FindTool, NeededScope, Covered, AgentReaches, GrantsCover, WalletAfter, Honours, Decide, SelectsAMatch;
    assert IsGateOf(gate, provider, o, verify);
    CoveredNeverPromptsAgain(wallet, select, errands, o, gate, provider, verify, inForce);
    ServiceDecides(provider, v);
    assert world.post(0, v.vp) == gate.post(0, v.vp);
  }

  // ---- A covering grant is not enough -------------------------------------------------------------------

  /** A verifier that keeps its promise. */
  function VerifyAll(i: nat, vp: Presentation): Verification {
    if |vp.credentials| == 2 then Verified(Lists.Filter(vp.credentials[0].scopes, (scope: string) => scope in vp.credentials[1].scopes))
    else NotVerified("")
  }

  lemma VerifyAllHonours(inForce: set<string>)
    ensures Honours(VerifyAll, inForce)
  {
    forall i: nat, vp: Presentation | |vp.credentials| == 2
      ensures VerifyAll(i, vp).Verified?
      ensures forall scope :: scope in VerifyAll(i, vp).effectiveScopes
                              <==> scope in vp.credentials[0].scopes && scope in vp.credentials[1].scopes
    {
      FilterHas(vp.credentials[0].scopes, (scope: string) => scope in vp.credentials[1].scopes);
    }
  }

  lemma {:induction false} FilterHas<T(!new)>(items: seq<T>, p: T -> bool)
    ensures forall x :: x in Lists.Filter(items, p) <==> x in items && p(x)
  {
    if items != [] {
      FilterHas(items[..|items| - 1], p);
      assert items == items[..|items| - 1] + [items[|items| - 1]];
    }
  }

  function FirstMatch(credentials: Credentials, serviceDid: string, userDid: string): (r: Option<Credential>)
    ensures match r
            case Some(c) => c in credentials && Matches(c, serviceDid, userDid)
            case None => forall i :: 0 <= i < |credentials| ==> !Matches(credentials[i], serviceDid, userDid)
  {
    if credentials == [] then None
    else if Matches(credentials[0], serviceDid, userDid) then Some(credentials[0])
    else FirstMatch(credentials[1..], serviceDid, userDid)
  }

  /** Every matching grant has to cover the scope: if one in force does not, some way of choosing makes the call prompt,
      whatever else the wallet holds. */
  lemma NarrowGrantCanBeChosen(
      wallet: Credentials, i: nat, o: Options, world: World, provider: Provider,
      verify: (nat, Presentation) -> Verification, inForce: set<string>) returns (select: Selector)
    requires IsGateOf(world, provider, o, verify) && Honours(verify, inForce)
    requires provider.did == o.serviceDid && NeededScope(provider, o.toolName) != ""
    requires AgentReaches(wallet, o.agentDid, NeededScope(provider, o.toolName), inForce)
    requires i < |wallet| && Matches(wallet[i], o.serviceDid, o.userDid)
    requires wallet[i].id in inForce && wallet[i].agentDid == o.agentDid
    requires NeededScope(provider, o.toolName) !in wallet[i].scopes
    ensures SelectsAMatch(select) && CallSpTool(wallet, select, o, world).prompts == 1
  {
    hide FindTool, NeededScope, IsGateOf, Honours, CallSpTool, AgentReaches;
    select := (credentials, serviceDid, userDid) =>
      if credentials == wallet && serviceDid == o.serviceDid && userDid == o.userDid then Some(wallet[i])
      else FirstMatch(credentials, serviceDid, userDid);
    StandingGrantSufficesIff(wallet, select, o, world, provider, verify, inForce);
  }

  function GrantOf(id: string, o: Options, scope: string): Credential {
    Credential(id, [GRANT_TYPE], o.serviceDid, o.agentDid, o.userDid, [scope], 0)
  }

  /** An agent that may use both scopes, and a grant for each. */
  function TwoGrants(o: Options, a: string, b: string): Credentials {
    [Credential("agent", [AGENT_TYPE], "", o.agentDid, o.userDid, [a, b], 0), GrantOf("first", o, a), GrantOf("second", o, b)]
  }

  function GateWorld(provider: Provider, o: Options): World {
    World((i: nat, vp) => Decide(provider, o.toolName, Some(vp), VerifyAll(i, vp)), asked => None)
  }

  lemma TwoToolsNeed(did: string, a: string, b: string)
    requires a != b
    ensures var provider := Provider(did, [Tool(a, Some(a)), Tool(b, Some(b))]);
            NeededScope(provider, a) == a && NeededScope(provider, b) == b
  {
    assert [Tool(a, Some(a)), Tool(b, Some(b))][1..] == [Tool(b, Some(b))];
    assert FindTool([Tool(b, Some(b))], b) == Some(Tool(b, Some(b)));
  }

  lemma ChosenIsOneOfTwo(select: Selector, o: Options, a: string, b: string)
    requires SelectsAMatch(select)
    ensures select(TwoGrants(o, a, b), o.serviceDid, o.userDid) in {Some(GrantOf("first", o, a)), Some(GrantOf("second", o, b))}
  {
    var wallet := TwoGrants(o, a, b);
    assert Matches(wallet[1], o.serviceDid, o.userDid) && !Matches(wallet[0], o.serviceDid, o.userDid);
    assert select(wallet, o.serviceDid, o.userDid).Some?;
  }

  /** Whatever the wallet's way of choosing: with a grant for each of two scopes, one of the two calls prompts although
      the wallet holds a grant in force that covers it. The later grant has displaced the earlier one, or is never used. */
  lemma CoveringGrantCanStillPrompt(select: Selector, o: Options, a: string, b: string)
    requires SelectsAMatch(select) && a != "" && b != "" && a != b
    ensures var provider := Provider(o.serviceDid, [Tool(a, Some(a)), Tool(b, Some(b))]);
            var (oa, ob) := (o.(toolName := a), o.(toolName := b));
            var wallet := TwoGrants(o, a, b);
            var inForce := {"agent", "first", "second"};
            && Matches(wallet[1], o.serviceDid, o.userDid) && GrantReaches(wallet[1], o.agentDid, a, inForce)
            && Matches(wallet[2], o.serviceDid, o.userDid) && GrantReaches(wallet[2], o.agentDid, b, inForce)
            && CallSpTool(wallet, select, oa, GateWorld(provider, oa)).prompts
               + CallSpTool(wallet, select, ob, GateWorld(provider, ob)).prompts == 1
  {
    var provider := Provider(o.serviceDid, [Tool(a, Some(a)), Tool(b, Some(b))]);
    var oa, ob := o.(toolName := a), o.(toolName := b);
    var wallet := TwoGrants(o, a, b);
    var inForce := {"agent", "first", "second"};
    hide FindTool, NeededScope, SelectsAMatch;
    TwoToolsNeed(o.serviceDid, a, b);
    ChosenIsOneOfTwo(select, o, a, b);
    VerifyAllHonours(inForce);
    StandingGrantSufficesIff(wallet, select, oa, GateWorld(provider, oa), provider, VerifyAll, inForce);
    StandingGrantSufficesIff(wallet, select, ob, GateWorld(provider, ob), provider, VerifyAll, inForce);
  }
}
