/** The provider's handlers as they run, between one await and the next, over its counters and its store. */
module ServiceProvider {
  import opened Common
  import opened ConsentGate
  import ScopeCatalogue

  class SpStore {
    var grants: seq<Credential>
    var statusList: set<nat>

    constructor ()
      ensures grants == [] && statusList == {}
    {
      grants, statusList := [], {};
    }

    /** Pushes the grant and replaces the list; the write to disk is awaited by the caller. */
    method RecordGrant(grant: Credential, updatedStatusList: set<nat>)
      modifies this
      ensures grants == old(grants) + [grant] && statusList == updatedStatusList
    {
      grants := grants + [grant];
      statusList := updatedStatusList;
    }
  }

  class ServiceProvider {
    const provider: Provider
    const store: SpStore
    var consentRequired: nat
    var grantsIssued: nat
    var audit: seq<Entry>
    var calls: seq<ToolCall>
    var accepts: seq<Accept>

    ghost function Contents(): State
      reads this, store
    {
      State(consentRequired, grantsIssued, audit, store.grants, store.statusList, calls, accepts)
    }

    constructor (provider: Provider)
      ensures Contents() == INITIAL && this.provider == provider && fresh(store)
    {
      this.provider := provider;
      store := new SpStore();
      consentRequired, grantsIssued, audit, calls, accepts := 0, 0, [], [], [];
    }

    method Emit(source: Source, event: Event)
      modifies this`audit
      ensures audit == old(audit) + [Entry(source, event)]
    {
      audit := audit + [Entry(source, event)];
    }

    method Deny(k: nat, reason: Refusal)
      requires k < |calls|
      modifies this
      ensures Contents() == Finish(Refuse(old(Contents()), k, reason), k, ConsentRequired(reason, old(calls[k].scope)))
    {
      consentRequired := consentRequired + 1;
      Emit(Call(k), AuthzDenied(reason));
      Answer(k, ConsentRequired(reason, calls[k].scope));
    }

    method Answer(k: nat, answer: Answer)
      requires k < |calls|
      modifies this`calls
      ensures calls == old(calls)[k := old(calls[k]).(progress := Answered(answer))]
    {
      calls := calls[k := calls[k].(progress := Answered(answer))];
    }

    /** POST /api/mcp, tools/call, up to the await of `verifyVP`. */
    method ReceiveToolCall(name: string, vp: Option<Presentation>) returns (k: nat)
      modifies this
      ensures k == |old(calls)|
      ensures Contents() == Receive(provider, old(Contents()), name, vp)
    {
      hide FindTool;
      k := |calls|;
      var tool := FindTool(provider.tools, name);
      var scope := if tool.Some? && tool.value.requiredScope.Some? then tool.value.requiredScope.value else "";
      calls := calls + [ToolCall(name, scope, vp, Waiting)];
      if tool.None? {
        Answer(k, UnknownTool);
      } else if scope == "" {
        Emit(Call(k), OpenToolInvoked);
        Answer(k, Output);
      } else if vp.None? {
        Deny(k, NoPresentation);
      } else {
        Emit(Call(k), VcPresented);
      }
    }

    /** The rest of the handler, with what `verifyVP` returned or threw. */
    method ResumeToolCall(k: nat, verification: Verification)
      requires AwaitsVerification(Contents(), k)
      modifies this
      ensures Contents() == Resume(provider, old(Contents()), k, verification)
    {
      hide FindTool;
      if verification.NotVerified? {
        Emit(Call(k), VpRejected(verification.code));
        Answer(k, VpInvalid(verification.code));
        return;
      }
      var vp, scope, effectiveScopes := calls[k].vp.value, calls[k].scope, verification.effectiveScopes;
      Emit(Call(k), VpVerified(effectiveScopes));
      if !HasGrantFrom(vp, provider.did) {
        Deny(k, NoGrantForThisService);
        return;
      }
      if scope !in effectiveScopes {
        Deny(k, InsufficientEffectiveScope);
        return;
      }
      Emit(Call(k), AuthzGranted(scope, effectiveScopes));
      Emit(Call(k), ToolInvoked);
      Answer(k, Output);
    }

    /** POST /api/consent/accept, up to the await of the scope catalogue. */
    method AcceptConsent(selection: Selection) returns (k: nat)
      modifies this
      ensures k == |old(accepts)|
      ensures Contents() == BeginAccept(old(Contents()), selection)
    {
      k := |accepts|;
      if selection.agentDid == "" || selection.userDid == "" || selection.durability == "" {
        accepts := accepts + [Rejected(InvalidRequest)];
      } else {
        accepts := accepts + [Resolving(selection)];
      }
    }

    /** The catalogue is in: up to the await of the signed grant. */
    method ResumeWithCatalogue(k: nat, catalogue: Option<seq<ScopeCatalogue.ScopeOption>>)
      requires k < |accepts| && accepts[k].Resolving?
      modifies this
      ensures Contents() == Resolved(old(Contents()), k, catalogue)
    {
      if catalogue.None? {
        accepts := accepts[k := Rejected(ScopeResolutionFailed)];
        return;
      }
      var selection, options := accepts[k].selection, catalogue.value;
      var missing := false;
      for i := 0 to |options|
        invariant missing <==> !ScopeCatalogue.MissesNone(options[..i], selection.scopes)
      {
        assert options[..i + 1][..i] == options[..i] && options[..i + 1][i] == options[i];
        missing := missing || (options[i].required == Some(true) && options[i].scope !in selection.scopes);
      }
      assert options[..|options|] == options;
      accepts := accepts[k := if missing then Rejected(MissingRequiredScope) else Issuing(selection, store.statusList)];
    }

    /** The grant is signed, or not: up to the await of the disk. */
    method ResumeWithGrant(k: nat, grant: Option<Credential>)
      requires k < |accepts| && accepts[k].Issuing?
      modifies this, store
      ensures Contents() == Issued(old(Contents()), k, grant)
    {
      if grant.None? {
        accepts := accepts[k := Rejected(GrantIssuanceFailed)];
        return;
      }
      store.RecordGrant(grant.value, accepts[k].statusList + {grant.value.statusIndex});
      accepts := accepts[k := Flushing(grant.value)];
    }

    /** The disk has answered. */
    method ResumeAfterFlush(k: nat, ok: bool)
      requires k < |accepts| && accepts[k].Flushing?
      modifies this
      ensures Contents() == Flushed(old(Contents()), k, ok)
    {
      var grant := accepts[k].grant;
      if ok {
        grantsIssued := grantsIssued + 1;
        Emit(Accepting(k), VcIssued(grant.id));
        accepts := accepts[k := Granted(grant)];
      } else {
        accepts := accepts[k := Unflushed(grant)];
      }
    }
  }
}
