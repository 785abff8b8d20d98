/** What the provider's audit trail, counters and grant store say about every interleaving of its handlers. */
module ConsentTheorems {
  import opened Common
  import opened Lists
  import opened ConsentGate
  import ScopeCatalogue

  // ---- Traces ----------------------------------------------------------------------------------

  ghost function EntriesOf(audit: seq<Entry>, source: Source): seq<Entry> {
    Filter(audit, (e: Entry) => e.source == source)
  }

  /** The events one handler activation logged, in order. */
  ghost function Trace(audit: seq<Entry>, source: Source): seq<Event> {
    var entries := EntriesOf(audit, source);
    seq(|entries|, i requires 0 <= i < |entries| => entries[i].event)
  }

  lemma TraceGrows(audit: seq<Entry>, source: Source, e: Entry)
    ensures Trace(audit + [e], source) == Trace(audit, source) + (if e.source == source then [e.event] else [])
  {
    FilterAppends(audit, e, (e: Entry) => e.source == source);
  }

  predicate PresentedAndVerified(trace: seq<Event>) {
    |trace| >= 2 && trace[0] == VcPresented && trace[1].VpVerified?
  }

  /** The trace a call has, given how far it is and how it was answered. */
  predicate HasItsTrace(provider: Provider, call: ToolCall, trace: seq<Event>) {
    match call.progress
    case Waiting => trace == [VcPresented]
    case Answered(UnknownTool) => trace == []
    case Answered(VpInvalid(code)) => trace == [VcPresented, VpRejected(code)]
    case Answered(ConsentRequired(reason, asked)) =>
      asked == call.scope &&
      if reason == NoPresentation then call.vp.None? && trace == [AuthzDenied(NoPresentation)]
      else
        && PresentedAndVerified(trace) && trace == trace[..2] + [AuthzDenied(reason)]
        && call.vp.Some?
        && (reason == NoGrantForThisService <==> !HasGrantFrom(call.vp.value, provider.did))
        && (reason == InsufficientEffectiveScope ==> call.scope !in trace[1].effectiveScopes)
    case Answered(Output) =>
      if call.scope == "" then trace == [OpenToolInvoked]
      else
        && PresentedAndVerified(trace)
        && trace == trace[..2] + [AuthzGranted(call.scope, trace[1].effectiveScopes), ToolInvoked]
        && call.vp.Some? && HasGrantFrom(call.vp.value, provider.did)
        && call.scope in trace[1].effectiveScopes
  }

  predicate IsOfProvider(provider: Provider, call: ToolCall) {
    && call.scope == NeededScope(provider, call.name)
    && match call.progress
       case Waiting => call.scope != "" && call.vp.Some?
       case Answered(UnknownTool) => FindTool(provider.tools, call.name).None?
       case Answered(Output) => FindTool(provider.tools, call.name).Some?
       case Answered(_) => call.scope != ""
  }

  /** Only a known tool needs a scope. */
  lemma ScopedToolIsKnown(provider: Provider, name: string)
    ensures NeededScope(provider, name) != "" ==> FindTool(provider.tools, name).Some?
  {
  }

  ghost predicate CallsTraced(provider: Provider, s: State) {
    && (forall k: nat :: k < |s.calls| ==>
          IsOfProvider(provider, s.calls[k]) && HasItsTrace(provider, s.calls[k], Trace(s.audit, Call(k))))
    && (forall k: nat :: k >= |s.calls| ==> Trace(s.audit, Call(k)) == [])
  }

  lemma TraceGrowsEverywhere(audit: seq<Entry>, e: Entry)
    ensures forall x :: Trace(audit + [e], x) == Trace(audit, x) + (if e.source == x then [e.event] else [])
  {
    forall x ensures Trace(audit + [e], x) == Trace(audit, x) + (if e.source == x then [e.event] else []) {
      TraceGrows(audit, x, e);
    }
  }

  /** A new call with its trace, the others as they were. */
  lemma NewCallIsTraced(provider: Provider, s: State, s': State)
    requires CallsTraced(provider, s) && |s'.calls| == |s.calls| + 1
    requires forall j :: 0 <= j < |s.calls| ==> s'.calls[j] == s.calls[j]
    requires forall j: nat :: j != |s.calls| ==> Trace(s'.audit, Call(j)) == Trace(s.audit, Call(j))
    requires var k := |s.calls|; IsOfProvider(provider, s'.calls[k]) && HasItsTrace(provider, s'.calls[k], Trace(s'.audit, Call(k)))
    ensures CallsTraced(provider, s')
  {
    hide Trace, HasItsTrace, IsOfProvider;
  }

  lemma ReceiveKeepsTraced(provider: Provider, s: State, name: string, vp: Option<Presentation>)
    requires CallsTraced(provider, s)
    ensures CallsTraced(provider, Receive(provider, s, name, vp))
  {
    hide FindTool, Trace, CallsTraced, HasGrantFrom;
    var s' := Receive(provider, s, name, vp);
    var k := |s.calls|;
    assert Trace(s.audit, Call(k)) == [] by { FutureCallsHaveNone(provider, s, k); }
    if s'.audit != s.audit {
      TraceGrowsEverywhere(s.audit, s'.audit[|s.audit|]);
    }
    NewCallIsTraced(provider, s, s');
  }

  lemma FutureCallsHaveNone(provider: Provider, s: State, k: nat)
    requires CallsTraced(provider, s) && k >= |s.calls|
    ensures Trace(s.audit, Call(k)) == []
  {
    hide Trace;
  }

  lemma ResumeKeepsTraced(provider: Provider, s: State, k: nat, verification: Verification)
    requires CallsTraced(provider, s) && AwaitsVerification(s, k)
    ensures CallsTraced(provider, Resume(provider, s, k, verification))
  {
    hide FindTool, Trace, HasGrantFrom, CallsTraced;
    CallIsTraced(provider, s, k);
    var s' := Resume(provider, s, k, verification);
    var call := s.calls[k];
    assert IsOfProvider(provider, call) && Trace(s.audit, Call(k)) == [VcPresented];
    var a0 := s.audit;
    if verification.NotVerified? {
      TraceGrowsEverywhere(a0, Entry(Call(k), VpRejected(verification.code)));
    } else {
      var effective := verification.effectiveScopes;
      var answer := AfterVerification(provider.did, call.scope, call.vp.value, effective);
      var a1 := a0 + [Entry(Call(k), VpVerified(effective))];
      TraceGrowsEverywhere(a0, Entry(Call(k), VpVerified(effective)));
      if answer.ConsentRequired? {
        TraceGrowsEverywhere(a1, Entry(Call(k), AuthzDenied(answer.reason)));
      } else {
        var granted := Entry(Call(k), AuthzGranted(call.scope, effective));
        TraceGrowsEverywhere(a1, granted);
        TraceGrowsEverywhere(a1 + [granted], Entry(Call(k), ToolInvoked));
      }
    }
    ChangedCallIsTraced(provider, s, s', k);
  }

  lemma CallIsTraced(provider: Provider, s: State, k: nat)
    requires CallsTraced(provider, s) && k < |s.calls|
    ensures IsOfProvider(provider, s.calls[k]) && HasItsTrace(provider, s.calls[k], Trace(s.audit, Call(k)))
  {
    hide Trace, HasItsTrace, IsOfProvider;
  }

  /** One call with its new trace, the others as they were. */
  lemma ChangedCallIsTraced(provider: Provider, s: State, s': State, k: nat)
    requires CallsTraced(provider, s) && k < |s.calls| == |s'.calls|
    requires forall j: nat :: j < |s.calls| && j != k ==> s'.calls[j] == s.calls[j]
    requires forall j: nat :: j != k ==> Trace(s'.audit, Call(j)) == Trace(s.audit, Call(j))
    requires IsOfProvider(provider, s'.calls[k]) && HasItsTrace(provider, s'.calls[k], Trace(s'.audit, Call(k)))
    ensures CallsTraced(provider, s')
  {
    hide Trace, HasItsTrace, IsOfProvider;
  }

  lemma StepKeepsTraced(provider: Provider, s: State, step: Step)
    requires CallsTraced(provider, s) && Enabled(s, step)
    ensures CallsTraced(provider, Next(provider, s, step))
  {
    match step {
      case ReceiveStep(name, vp) => ReceiveKeepsTraced(provider, s, name, vp);
      case ResumeStep(k, verification) => ResumeKeepsTraced(provider, s, k, verification);
      case FlushedStep(k, ok) =>
        hide Trace, HasItsTrace, IsOfProvider;
        TraceGrowsEverywhere(s.audit, Entry(Accepting(k), VcIssued(s.accepts[k].grant.id)));
      case _ =>
        assert Next(provider, s, step).audit == s.audit;
    }
  }

  lemma {:induction false} CallsAreTraced(provider: Provider, s: State, run: seq<Step>)
    requires CallsTraced(provider, s) && Possible(provider, s, run)
    ensures CallsTraced(provider, Run(provider, s, run))
    decreases |run|
  {
    hide CallsTraced, Next;
    if run != [] {
      StepKeepsTraced(provider, s, run[0]);
      CallsAreTraced(provider, Next(provider, s, run[0]), run[1..]);
    }
  }

  lemma StartsTraced(provider: Provider)
    ensures CallsTraced(provider, INITIAL)
  {
  }

  /** The five ways a call on a scoped tool can end. */
  predicate IsFullTrace(t: seq<Event>) {
    || (|t| == 1 && t[0] == AuthzDenied(NoPresentation))
    || (|t| == 2 && t[0] == VcPresented && t[1].VpRejected?)
    || (|t| == 3 && PresentedAndVerified(t) && t[2] == AuthzDenied(NoGrantForThisService))
    || (|t| == 3 && PresentedAndVerified(t) && t[2] == AuthzDenied(InsufficientEffectiveScope))
    || (|t| == 4 && PresentedAndVerified(t) && t[2].AuthzGranted? && t[2].effectiveScopes == t[1].effectiveScopes
        && t[2].requiredScope in t[1].effectiveScopes && t[3] == ToolInvoked)
  }

  predicate IsGateTrace(t: seq<Event>) {
    t == [VcPresented] || IsFullTrace(t)
  }

  /** In every interleaving, a call on a scoped tool has logged a beginning of one of the five traces: the whole of
      one if it is answered, the presentation alone if it still waits. A call on an open tool has logged itself. */
  lemma FiveTraces(provider: Provider, run: seq<Step>, k: nat)
    requires Possible(provider, INITIAL, run) && k < |Run(provider, INITIAL, run).calls|
    ensures var s := Run(provider, INITIAL, run);
            var (call, trace) := (s.calls[k], Trace(s.audit, Call(k)));
            && (call.scope != "" ==> IsGateTrace(trace) && (call.progress.Waiting? <==> trace == [VcPresented]))
            && (call.scope == "" ==> call.progress.Answered?)
            && (call.progress.Answered? && call.scope == "" ==>
                  trace == if FindTool(provider.tools, call.name).Some? then [OpenToolInvoked] else [])
  {
    CallsAreTraced(provider, INITIAL, run);
    var s := Run(provider, INITIAL, run);
    var call := s.calls[k];
    assert IsOfProvider(provider, call) && HasItsTrace(provider, call, Trace(s.audit, Call(k)));
  }

  /** A credential of the presentation is a delegation grant that this provider issued. */
  ghost predicate HoldsGrant(vp: Presentation, did: string) {
    exists c :: c in vp.credentials && "DelegationGrantCredential" in c.types && c.issuer == did
  }

  lemma HoldsGrantIff(vp: Presentation, did: string)
    ensures HasGrantFrom(vp, did) <==> HoldsGrant(vp, did)
  {
    if c :| c in vp.credentials && "DelegationGrantCredential" in c.types && c.issuer == did {
      var i :| 0 <= i < |vp.credentials| && vp.credentials[i] == c;
      assert IsGrantFrom(vp.credentials[i], did);
    }
  }

  /** In every interleaving each answer goes with its lack: no presentation at all; no grant of this provider among what
      was presented; such a grant, but the verified scopes miss the tool's. The tool ran exactly with both. */
  lemma RefusalsNameTheLack(provider: Provider, run: seq<Step>, k: nat)
    requires Possible(provider, INITIAL, run) && k < |Run(provider, INITIAL, run).calls|
    requires var call := Run(provider, INITIAL, run).calls[k];
             call.scope != "" && call.progress.Answered? && (call.progress.answer.Output? || call.progress.answer.ConsentRequired?)
    ensures var s := Run(provider, INITIAL, run);
            var (call, trace) := (s.calls[k], Trace(s.audit, Call(k)));
            match call.progress.answer
            case Output =>
              && call.vp.Some? && HoldsGrant(call.vp.value, provider.did)
              && PresentedAndVerified(trace) && call.scope in trace[1].effectiveScopes
            case ConsentRequired(reason, asked) =>
              && asked == call.scope
              && (reason == NoPresentation <==> call.vp.None?)
              && (reason == NoGrantForThisService <==> call.vp.Some? && !HoldsGrant(call.vp.value, provider.did))
              && (reason == InsufficientEffectiveScope <==> call.vp.Some? && HoldsGrant(call.vp.value, provider.did))
              && (reason == InsufficientEffectiveScope ==> PresentedAndVerified(trace) && call.scope !in trace[1].effectiveScopes)
  {
    hide Trace, HasGrantFrom, HoldsGrant;
    StartsTraced(provider);
    CallsAreTraced(provider, INITIAL, run);
    var s := Run(provider, INITIAL, run);
    var call := s.calls[k];
    assert IsOfProvider(provider, call) && HasItsTrace(provider, call, Trace(s.audit, Call(k)));
    if call.vp.Some? {
      HoldsGrantIff(call.vp.value, provider.did);
    }
  }

  /** A scoped invocation is preceded, in the audit trail, by that call's presentation, verification and grant. */
  lemma InvocationIsAuthorized(provider: Provider, run: seq<Step>, k: nat, at: nat)
    requires Possible(provider, INITIAL, run)
    requires var audit := Run(provider, INITIAL, run).audit; at < |audit| && audit[at] == Entry(Call(k), ToolInvoked)
    ensures var audit := Run(provider, INITIAL, run).audit;
            exists p, v, g :: 0 <= p < v < g < at
              && audit[p] == Entry(Call(k), VcPresented)
              && audit[v].source == Call(k) && audit[v].event.VpVerified?
              && audit[g].source == Call(k) && audit[g].event.AuthzGranted?
              && audit[g].event.requiredScope in audit[v].event.effectiveScopes
  {
    hide Filter, Run;
    var s := Run(provider, INITIAL, run);
    var mine := (e: Entry) => e.source == Call(k);
    var entries := EntriesOf(s.audit, Call(k));
    var trace := Trace(s.audit, Call(k));
    var places := FilterPicks(s.audit, mine);
    assert IsPicked(s.audit, entries, mine, places);
    assert mine(s.audit[at]);
    var i :| 0 <= i < |places| && places[i] == at;
    assert trace[i] == ToolInvoked;
    StartsTraced(provider);
    CallsAreTraced(provider, INITIAL, run);
    assert CallsTraced(provider, s);
    assert k < |s.calls|;
    FiveTraces(provider, run, k);
    assert IsFullTrace(trace) && |trace| == 4 && i == 3;
    assert s.audit[places[0]].event == trace[0] && s.audit[places[1]].event == trace[1] && s.audit[places[2]].event == trace[2];
  }

  // ---- Counters ---------------------------------------------------------------------------------------

  ghost function Count<T>(items: seq<T>, p: T -> bool): nat {
    |Filter(items, p)|
  }

  lemma CountAppends<T>(items: seq<T>, last: T, p: T -> bool)
    ensures Count(items + [last], p) == Count(items, p) + (if p(last) then 1 else 0)
  {
    FilterAppends(items, last, p);
  }

  lemma {:induction false} CountUpdates<T>(items: seq<T>, k: nat, x: T, p: T -> bool)
    requires k < |items|
    ensures Count(items[k := x], p) == Count(items, p) - (if p(items[k]) then 1 else 0) + (if p(x) then 1 else 0)
  {
    var n := |items| - 1;
    var items' := items[k := x];
    if k < n {
      assert items'[..n] == items[..n][k := x];
      CountUpdates(items[..n], k, x, p);
    } else {
      assert items'[..n] == items[..n];
    }
  }

  predicate IsDenial(e: Entry) {
    e.event.AuthzDenied?
  }

  predicate IsIssue(e: Entry) {
    e.event.VcIssued?
  }

  /** Its grant is in the store. */
  predicate IsRecorded(a: Accept) {
    a.Flushing? || a.Granted? || a.Unflushed?
  }

  predicate IsGranted(a: Accept) {
    a.Granted?
  }

  /** The counters and the store agree with the audit trail and with what became of each accept. */
  ghost predicate Balanced(s: State) {
    && s.consentRequired == Count(s.audit, IsDenial)
    && s.grantsIssued == Count(s.audit, IsIssue)
    && s.grantsIssued == Count(s.accepts, IsGranted)
    && |s.grants| == Count(s.accepts, IsRecorded)
  }

  lemma NoteCounts(s: State, source: Source, event: Event)
    ensures var s' := Note(s, source, event);
            && Count(s'.audit, IsDenial) == Count(s.audit, IsDenial) + (if event.AuthzDenied? then 1 else 0)
            && Count(s'.audit, IsIssue) == Count(s.audit, IsIssue) + (if event.VcIssued? then 1 else 0)
  {
    CountAppends(s.audit, Entry(source, event), IsDenial);
    CountAppends(s.audit, Entry(source, event), IsIssue);
  }

  lemma CallKeepsBalance(provider: Provider, s: State, step: Step)
    requires Balanced(s) && Enabled(s, step) && (step.ReceiveStep? || step.ResumeStep?)
    ensures Balanced(Next(provider, s, step))
  {
    hide Count;
    match step {
      case ReceiveStep(name, vp) =>
        var k, scope := |s.calls|, NeededScope(provider, name);
        var s1 := s.(calls := s.calls + [ToolCall(name, scope, vp, Waiting)]);
        NoteCounts(s1, Call(k), OpenToolInvoked);
        NoteCounts(s1.(consentRequired := s.consentRequired + 1), Call(k), AuthzDenied(NoPresentation));
        NoteCounts(s1, Call(k), VcPresented);
      case ResumeStep(k, verification) =>
        match verification {
          case NotVerified(code) => NoteCounts(s, Call(k), VpRejected(code));
          case Verified(effective) =>
            NoteCounts(s, Call(k), VpVerified(effective));
            var s1 := Note(s, Call(k), VpVerified(effective));
            var answer := AfterVerification(provider.did, s.calls[k].scope, s.calls[k].vp.value, effective);
            if answer.ConsentRequired? {
              NoteCounts(s1.(consentRequired := s.consentRequired + 1), Call(k), AuthzDenied(answer.reason));
            } else {
              NoteCounts(s1, Call(k), AuthzGranted(s.calls[k].scope, effective));
              NoteCounts(Note(s1, Call(k), AuthzGranted(s.calls[k].scope, effective)), Call(k), ToolInvoked);
            }
        }
    }
  }

  lemma AcceptKeepsBalance(provider: Provider, s: State, step: Step)
    requires Balanced(s) && Enabled(s, step) && !step.ReceiveStep? && !step.ResumeStep?
    ensures Balanced(Next(provider, s, step))
  {
    hide Count;
    var s' := Next(provider, s, step);
    if step.BeginAcceptStep? {
      CountAppends(s.accepts, s'.accepts[|s.accepts|], IsGranted);
      CountAppends(s.accepts, s'.accepts[|s.accepts|], IsRecorded);
    } else {
      CountUpdates(s.accepts, step.k, s'.accepts[step.k], IsGranted);
      CountUpdates(s.accepts, step.k, s'.accepts[step.k], IsRecorded);
      if step.FlushedStep? {
        NoteCounts(s, Accepting(step.k), VcIssued(s.accepts[step.k].grant.id));
      }
    }
  }

  lemma {:induction false} RunKeepsBalance(provider: Provider, s: State, run: seq<Step>)
    requires Balanced(s) && Possible(provider, s, run)
    ensures Balanced(Run(provider, s, run))
    decreases |run|
  {
    hide Balanced, Next;
    if run != [] {
      if run[0].ReceiveStep? || run[0].ResumeStep? {
        CallKeepsBalance(provider, s, run[0]);
      } else {
        AcceptKeepsBalance(provider, s, run[0]);
      }
      RunKeepsBalance(provider, Next(provider, s, run[0]), run[1..]);
    }
  }

  predicate IsFlushing(a: Accept) {
    a.Flushing?
  }

  predicate IsUnflushed(a: Accept) {
    a.Unflushed?
  }

  lemma {:induction false} RecordedSplits(accepts: seq<Accept>)
    ensures Count(accepts, IsRecorded) == Count(accepts, IsGranted) + Count(accepts, IsFlushing) + Count(accepts, IsUnflushed)
  {
    if accepts != [] {
      RecordedSplits(accepts[..|accepts| - 1]);
    }
  }

  /** In every interleaving: denials are counted one for one, issued grants are the logged ones, and the store
      holds these, those still on their way to the disk, and those whose write failed. */
  lemma CountersAgree(provider: Provider, run: seq<Step>)
    requires Possible(provider, INITIAL, run)
    ensures var s := Run(provider, INITIAL, run);
            && s.consentRequired == Count(s.audit, IsDenial)
            && s.grantsIssued == Count(s.audit, IsIssue)
            && |s.grants| == s.grantsIssued + Count(s.accepts, IsFlushing) + Count(s.accepts, IsUnflushed)
            && (Count(s.accepts, IsFlushing) == 0 ==> (|s.grants| == s.grantsIssued <==> Count(s.accepts, IsUnflushed) == 0))
  {
    RunKeepsBalance(provider, INITIAL, run);
    RecordedSplits(Run(provider, INITIAL, run).accepts);
  }

  // ---- Status-list indices ------------------------------------------------------------------------------

  /** One grant at a time between reading the status list and recording. */
  predicate OneAtATime(s: State, step: Step) {
    step.ResolvedStep? ==> forall j :: 0 <= j < |s.accepts| ==> !s.accepts[j].Issuing?
  }

  predicate OneAtATimeRun(provider: Provider, s: State, run: seq<Step>)
    decreases |run|
  {
    run == [] || (Enabled(s, run[0]) && OneAtATime(s, run[0]) && OneAtATimeRun(provider, Next(provider, s, run[0]), run[1..]))
  }

  /** Each stored grant has an index of its own, which the stored list knows; so does a grant being signed. */
  ghost predicate IndicesApart(s: State) {
    && (forall i, j :: 0 <= i < j < |s.grants| ==> s.grants[i].statusIndex != s.grants[j].statusIndex)
    && (forall i :: 0 <= i < |s.grants| ==> s.grants[i].statusIndex in s.statusList)
    && (forall j :: 0 <= j < |s.accepts| && s.accepts[j].Issuing? ==> s.accepts[j].statusList == s.statusList)
    && (forall i, j :: 0 <= i < j < |s.accepts| ==> !(s.accepts[i].Issuing? && s.accepts[j].Issuing?))
  }

  lemma StepKeepsIndicesApart(provider: Provider, s: State, step: Step)
    requires IndicesApart(s) && Enabled(s, step) && OneAtATime(s, step)
    ensures IndicesApart(Next(provider, s, step))
  {
    hide FindTool;
  }

  /** Without overlapping accepts, no two stored grants share a status-list index. */
  lemma {:induction false} GrantsHaveTheirOwnIndex(provider: Provider, s: State, run: seq<Step>)
    requires IndicesApart(s) && OneAtATimeRun(provider, s, run)
    ensures Possible(provider, s, run) && IndicesApart(Run(provider, s, run))
    decreases |run|
  {
    hide IndicesApart, Next;
    if run != [] {
      StepKeepsIndicesApart(provider, s, run[0]);
      GrantsHaveTheirOwnIndex(provider, Next(provider, s, run[0]), run[1..]);
    }
  }

  /** Two overlapping accepts read the same list: both grants can get index 0, and revoking one would revoke both. */
  lemma OverlappingAcceptsCanShareAnIndex(provider: Provider, selection: Selection, a: Credential, b: Credential)
    returns (run: seq<Step>)
    requires IsComplete(selection) && a.statusIndex == b.statusIndex
    ensures Possible(provider, INITIAL, run)
    ensures Run(provider, INITIAL, run).grants == [a, b]
  {
    var s1 := BeginAccept(INITIAL, selection);
    var s2 := BeginAccept(s1, selection);
    var s3 := Resolved(s2, 0, Some([]));
    var s4 := Resolved(s3, 1, Some([]));
    var s5 := Issued(s4, 0, Some(a));
    var s6 := Issued(s5, 1, Some(b));
    assert s6.grants == [a, b];
    run := [];
    run := PrependStep(provider, s5, IssuedStep(1, Some(b)), run);
    run := PrependStep(provider, s4, IssuedStep(0, Some(a)), run);
    run := PrependStep(provider, s3, ResolvedStep(1, Some([])), run);
    run := PrependStep(provider, s2, ResolvedStep(0, Some([])), run);
    run := PrependStep(provider, s1, BeginAcceptStep(selection), run);
    run := PrependStep(provider, INITIAL, BeginAcceptStep(selection), run);
  }

  lemma PrependStep(provider: Provider, s: State, step: Step, rest: seq<Step>) returns (run: seq<Step>)
    requires Enabled(s, step) && Possible(provider, Next(provider, s, step), rest)
    ensures Possible(provider, s, run) && Run(provider, s, run) == Run(provider, Next(provider, s, step), rest)
  {
    run := [step] + rest;
    assert run[1..] == rest;
  }

  // ---- The answer -------------------------------------------------------------------------------------------

  /** Whatever happened meanwhile, a call is answered by its own tool, presentation and verification. */
  lemma ResumeDecides(provider: Provider, s: State, k: nat, verification: Verification)
    requires AwaitsVerification(s, k) && IsOfProvider(provider, s.calls[k])
    ensures Resume(provider, s, k, verification).calls[k].progress
         == Answered(Decide(provider, s.calls[k].name, s.calls[k].vp, verification))
  {
    ScopedToolIsKnown(provider, s.calls[k].name);
  }

  /** A call that does not wait needed no verification. */
  lemma ReceiveDecides(provider: Provider, s: State, name: string, vp: Option<Presentation>, verification: Verification)
    ensures var (s', k) := (Receive(provider, s, name, vp), |s.calls|);
            && |s'.calls| == k + 1
            && (!AwaitsVerification(s', k) ==> s'.calls[k].progress == Answered(Decide(provider, name, vp, verification)))
            && (AwaitsVerification(s', k) ==> s'.calls[k] == ToolCall(name, NeededScope(provider, name), vp, Waiting))
  {
  }

  /** Nothing but its own resumption changes a call. */
  lemma OthersLeaveACall(provider: Provider, s: State, step: Step, k: nat)
    requires Enabled(s, step) && k < |s.calls| && !(step.ResumeStep? && step.k == k)
    ensures k < |Next(provider, s, step).calls| && Next(provider, s, step).calls[k] == s.calls[k]
  {
    hide FindTool;
  }

  /** The run goes on with other handlers: nothing in it resumes call `k`. */
  ghost predicate IsByOthers(run: seq<Step>, k: nat) {
    forall i :: 0 <= i < |run| ==> !(run[i].ResumeStep? && run[i].k == k)
  }

  lemma {:induction false} CallOutlastsOthers(provider: Provider, s: State, run: seq<Step>, k: nat)
    requires Possible(provider, s, run) && IsByOthers(run, k) && k < |s.calls|
    ensures k < |Run(provider, s, run).calls| && Run(provider, s, run).calls[k] == s.calls[k]
    decreases |run|
  {
    if run != [] {
      OthersLeaveACall(provider, s, run[0], k);
      hide Next, Enabled;
      CallOutlastsOthers(provider, Next(provider, s, run[0]), run[1..], k);
    }
  }

  // ---- Selections -------------------------------------------------------------------------------------------

  /** While a grant is being prepared the selection names an agent, a user and a durability. */
  predicate IsNamed(a: Accept) {
    a.Resolving? || a.Issuing? ==> a.selection.agentDid != "" && a.selection.userDid != "" && a.selection.durability != ""
  }

  lemma StepKeepsNamed(provider: Provider, s: State, step: Step)
    requires Enabled(s, step) && forall k :: 0 <= k < |s.accepts| ==> IsNamed(s.accepts[k])
    ensures forall k :: 0 <= k < |Next(provider, s, step).accepts| ==> IsNamed(Next(provider, s, step).accepts[k])
  {
    hide FindTool, HasGrantFrom;
  }

  lemma {:induction false} RunKeepsNamed(provider: Provider, s: State, run: seq<Step>)
    requires Possible(provider, s, run) && forall k :: 0 <= k < |s.accepts| ==> IsNamed(s.accepts[k])
    ensures forall k :: 0 <= k < |Run(provider, s, run).accepts| ==> IsNamed(Run(provider, s, run).accepts[k])
    decreases |run|
  {
    hide Next, IsNamed;
    if run != [] {
      StepKeepsNamed(provider, s, run[0]);
      RunKeepsNamed(provider, Next(provider, s, run[0]), run[1..]);
    }
  }

  /** In every interleaving no catalogue is resolved and no grant asked for on a selection that leaves out the agent, the
      user or the durability: such a request is answered INVALID_REQUEST at once. */
  lemma NoGrantOnAnIncompleteSelection(provider: Provider, run: seq<Step>, selection: Selection)
    requires Possible(provider, INITIAL, run)
    ensures var s := Run(provider, INITIAL, run);
            && (forall k :: 0 <= k < |s.accepts| ==> IsNamed(s.accepts[k]))
            && (Next(provider, s, BeginAcceptStep(selection)).accepts[|s.accepts|] == Rejected(InvalidRequest) <==>
                selection.agentDid == "" || selection.userDid == "" || selection.durability == "")
  {
    RunKeepsNamed(provider, INITIAL, run);
  }

  /** A grant is asked for exactly when the catalogue came back and every required option is selected. */
  lemma GrantIsAskedForIff(provider: Provider, s: State, k: nat, catalogue: Option<seq<ScopeCatalogue.ScopeOption>>)
    requires Enabled(s, ResolvedStep(k, catalogue))
    ensures var a := Next(provider, s, ResolvedStep(k, catalogue)).accepts[k];
            && (a.Issuing? <==> catalogue.Some? && forall option :: option in catalogue.value && option.required == Some(true) ==>
                 option.scope in s.accepts[k].selection.scopes)
            && (a.Issuing? ==> a.selection == s.accepts[k].selection && a.statusList == s.statusList)
            && (!a.Issuing? ==> a == Rejected(if catalogue.None? then ScopeResolutionFailed else MissingRequiredScope))
  {
    if catalogue.Some? {
      var options := catalogue.value;
      assert forall i :: 0 <= i < |options| ==> options[i] in options;
    }
  }
}
