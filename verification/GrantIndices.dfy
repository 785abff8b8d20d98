/** Exactly which schedules of the accept route keep status-list indices apart, whatever free index each grant gets. */
module GrantIndices {
  import opened Common
  import opened ConsentGate
  import ConsentTheorems

  ghost predicate GrantsApart(grants: seq<Credential>) {
    forall i, j :: 0 <= i < j < |grants| ==> grants[i].statusIndex != grants[j].statusIndex
  }

  /** A grant is recorded only against a list that knows every grant stored so far. */
  predicate KnowsTheStored(s: State, step: Step)
    requires Enabled(s, step)
  {
    step.IssuedStep? && step.grant.Some? ==>
      forall i :: 0 <= i < |s.grants| ==> s.grants[i].statusIndex in s.accepts[step.k].statusList
  }

  predicate KnowingRun(provider: Provider, s: State, run: seq<Step>)
    requires Possible(provider, s, run)
    decreases |run|
  {
    run == [] || (KnowsTheStored(s, run[0]) && KnowingRun(provider, Next(provider, s, run[0]), run[1..]))
  }

  // ---- One schedule, other indices ----------------------------------------------------------------

  predicate SameStep(a: Step, b: Step) {
    || a == b
    || (a.IssuedStep? && b.IssuedStep? && a.k == b.k && a.grant.Some? && b.grant.Some?
        && b.grant.value.(statusIndex := a.grant.value.statusIndex) == a.grant.value)
  }

  /** The same handlers go on in the same order; only the indices of the grants may differ. */
  ghost predicate SameSchedule(run: seq<Step>, other: seq<Step>) {
    |run| == |other| && forall i :: 0 <= i < |run| ==> SameStep(run[i], other[i])
  }

  predicate AcceptAlike(a: Accept, b: Accept) {
    match a
    case Resolving(_) => b == a
    case Issuing(selection, _) => b.Issuing? && b.selection == selection
    case Flushing(_) => b.Flushing?
    case Granted(_) => b.Granted?
    case Unflushed(_) => b.Unflushed?
    case Rejected(_) => b.Rejected?
  }

  ghost predicate Alike(s: State, t: State) {
    s.calls == t.calls && |s.accepts| == |t.accepts| && forall k :: 0 <= k < |s.accepts| ==> AcceptAlike(s.accepts[k], t.accepts[k])
  }

  lemma StepKeepsAlike(provider: Provider, s: State, t: State, a: Step, b: Step)
    requires Alike(s, t) && SameStep(a, b) && Enabled(s, a) && Enabled(t, b)
    ensures Alike(Next(provider, s, a), Next(provider, t, b))
  {
    hide FindTool, HasGrantFrom;
  }

  // ---- Knowing schedules keep indices apart -----------------------------------------------------------

  /** A list holds only indices of stored grants. */
  ghost predicate Within(grants: seq<Credential>, list: set<nat>) {
    forall x :: x in list ==> exists p :: 0 <= p < |grants| && grants[p].statusIndex == x
  }

  /** Two lists know the same grants, each by its own indices. */
  ghost predicate SamePlaces(grants: seq<Credential>, list: set<nat>, others: seq<Credential>, other: set<nat>) {
    && |grants| == |others|
    && Within(grants, list) && Within(others, other)
    && forall p :: 0 <= p < |grants| ==> (grants[p].statusIndex in list <==> others[p].statusIndex in other)
  }

  ghost predicate Mirrors(s: State, t: State) {
    && Alike(s, t)
    && GrantsApart(s.grants) && GrantsApart(t.grants)
    && SamePlaces(s.grants, s.statusList, t.grants, t.statusList)
    && forall k :: 0 <= k < |s.accepts| && s.accepts[k].Issuing? ==>
         SamePlaces(s.grants, s.accepts[k].statusList, t.grants, t.accepts[k].statusList)
  }

  /** Storing two grants whose indices no stored grant has keeps what lists know. */
  lemma NewcomersAreUnknown(grants: seq<Credential>, list: set<nat>, others: seq<Credential>, other: set<nat>, g: Credential, h: Credential)
    requires SamePlaces(grants, list, others, other)
    requires forall p :: 0 <= p < |grants| ==> grants[p].statusIndex != g.statusIndex
    requires forall p :: 0 <= p < |others| ==> others[p].statusIndex != h.statusIndex
    ensures SamePlaces(grants + [g], list, others + [h], other)
  {
    WithinGrows(grants, list, g);
    WithinGrows(others, other, h);
    assert g.statusIndex !in list && h.statusIndex !in other;
  }

  lemma WithinGrows(grants: seq<Credential>, list: set<nat>, g: Credential)
    requires Within(grants, list)
    ensures Within(grants + [g], list)
  {
    forall x | x in list ensures exists p :: 0 <= p < |grants + [g]| && (grants + [g])[p].statusIndex == x {
      var p :| 0 <= p < |grants| && grants[p].statusIndex == x;
      assert (grants + [g])[p].statusIndex == x;
    }
  }

  lemma ListsThatKnowAll(grants: seq<Credential>, list: set<nat>, others: seq<Credential>, other: set<nat>, g: Credential, h: Credential)
    requires SamePlaces(grants, list, others, other)
    requires forall p :: 0 <= p < |grants| ==> grants[p].statusIndex in list
    ensures SamePlaces(grants + [g], list + {g.statusIndex}, others + [h], other + {h.statusIndex})
  {
    hide Within;
    WithinLearns(grants, list, g);
    WithinLearns(others, other, h);
    assert |grants| == |others| && forall p :: 0 <= p < |others| ==> others[p].statusIndex in other;
    forall p | 0 <= p < |grants + [g]|
      ensures (grants + [g])[p].statusIndex in list + {g.statusIndex} && (others + [h])[p].statusIndex in other + {h.statusIndex}
    {
    }
  }

  lemma WithinLearns(grants: seq<Credential>, list: set<nat>, g: Credential)
    requires Within(grants, list)
    ensures Within(grants + [g], list + {g.statusIndex})
  {
    WithinGrows(grants, list, g);
    assert (grants + [g])[|grants|].statusIndex == g.statusIndex;
  }

  lemma RecordKeepsMirrors(provider: Provider, s: State, t: State, a: Step, b: Step)
    requires Mirrors(s, t) && SameStep(a, b) && Enabled(s, a) && Enabled(t, b) && KnowsTheStored(s, a)
    requires a.IssuedStep? && a.grant.Some?
    ensures Mirrors(Next(provider, s, a), Next(provider, t, b))
  {
    hide Within, SamePlaces;
    StepKeepsAlike(provider, s, t, a, b);
    var (g, h, k) := (a.grant.value, b.grant.value, a.k);
    var (s', t') := (Next(provider, s, a), Next(provider, t, b));
    AllKnown(s.grants, s.accepts[k].statusList, t.grants, t.accepts[k].statusList);
    ListsThatKnowAll(s.grants, s.accepts[k].statusList, t.grants, t.accepts[k].statusList, g, h);
    forall j | 0 <= j < |s'.accepts| && s'.accepts[j].Issuing?
      ensures SamePlaces(s'.grants, s'.accepts[j].statusList, t'.grants, t'.accepts[j].statusList)
    {
      assert j != k && s'.accepts[j] == s.accepts[j] && t'.accepts[j] == t.accepts[j];
      NewcomersAreUnknown(s.grants, s.accepts[j].statusList, t.grants, t.accepts[j].statusList, g, h);
    }
  }

  lemma AllKnown(grants: seq<Credential>, list: set<nat>, others: seq<Credential>, other: set<nat>)
    requires SamePlaces(grants, list, others, other)
    requires forall p :: 0 <= p < |grants| ==> grants[p].statusIndex in list
    ensures |grants| == |others| && forall p :: 0 <= p < |others| ==> others[p].statusIndex in other
  {
  }

  lemma StepKeepsMirrors(provider: Provider, s: State, t: State, a: Step, b: Step)
    requires Mirrors(s, t) && SameStep(a, b) && Enabled(s, a) && Enabled(t, b) && KnowsTheStored(s, a)
    ensures Mirrors(Next(provider, s, a), Next(provider, t, b))
  {
    if a.IssuedStep? && a.grant.Some? {
      RecordKeepsMirrors(provider, s, t, a, b);
    } else {
      hide FindTool, HasGrantFrom, Within, SamePlaces;
      StepKeepsAlike(provider, s, t, a, b);
    }
  }

  lemma {:induction false} KnowingRunsKeepApart(provider: Provider, s: State, t: State, run: seq<Step>, other: seq<Step>)
    requires Mirrors(s, t) && Possible(provider, s, run) && KnowingRun(provider, s, run)
    requires SameSchedule(run, other) && Possible(provider, t, other)
    ensures GrantsApart(Run(provider, t, other).grants)
    decreases |run|
  {
    hide Mirrors, Next, Enabled, KnowsTheStored, SameStep;
    if run == [] {
      MirrorsIsApart(s, t);
    } else {
      StepKeepsMirrors(provider, s, t, run[0], other[0]);
      assert forall i :: 0 <= i < |run| - 1 ==> run[1..][i] == run[i + 1] && other[1..][i] == other[i + 1];
      KnowingRunsKeepApart(provider, Next(provider, s, run[0]), Next(provider, t, other[0]), run[1..], other[1..]);
    }
  }

  lemma MirrorsIsApart(s: State, t: State)
    requires Mirrors(s, t)
    ensures GrantsApart(t.grants)
  {
  }

  // ---- Other schedules can collide ----------------------------------------------------------------------

  lemma {:induction false} FreeIndex(list: set<nat>) returns (n: nat)
    ensures forall x :: x in list ==> x < n
    decreases |list|
  {
    if list == {} {
      n := 0;
    } else {
      var x :| x in list;
      var m := FreeIndex(list - {x});
      n := if x < m then m else x + 1;
      forall y | y in list ensures y < n {
        assert y == x || y in list - {x};
      }
    }
  }

  /** Any schedule can go on from a state alike, with indices free there. */
  lemma {:induction false} Continue(provider: Provider, s: State, t: State, run: seq<Step>) returns (other: seq<Step>)
    requires Alike(s, t) && Possible(provider, s, run)
    ensures SameSchedule(run, other) && Possible(provider, t, other)
    decreases |run|
  {
    hide Next;
    if run == [] {
      other := [];
    } else {
      var a := run[0];
      var b := a;
      if a.IssuedStep? && a.grant.Some? {
        var n := FreeIndex(t.accepts[a.k].statusList);
        b := IssuedStep(a.k, Some(a.grant.value.(statusIndex := n)));
      }
      StepKeepsAlike(provider, s, t, a, b);
      var rest := Continue(provider, Next(provider, s, a), Next(provider, t, b), run[1..]);
      other := [b] + rest;
      assert other[1..] == rest;
      assert forall i :: 0 < i < |run| ==> run[i] == run[1..][i - 1] && other[i] == rest[i - 1];
    }
  }

  lemma {:induction false} GrantsStay(provider: Provider, s: State, run: seq<Step>)
    requires Possible(provider, s, run)
    ensures s.grants <= Run(provider, s, run).grants
    decreases |run|
  {
    if run != [] {
      hide FindTool, HasGrantFrom;
      GrantsStay(provider, Next(provider, s, run[0]), run[1..]);
    }
  }

  lemma AlikeItself(s: State)
    ensures Alike(s, s)
  {
  }

  /** Where a grant is recorded against a list that does not know a stored one, it can be given that one's index. */
  lemma CollideNow(provider: Provider, s: State, run: seq<Step>, i: nat) returns (other: seq<Step>)
    requires Possible(provider, s, run) && run != [] && run[0].IssuedStep? && run[0].grant.Some?
    requires i < |s.grants| && s.grants[i].statusIndex !in s.accepts[run[0].k].statusList
    ensures SameSchedule(run, other) && Possible(provider, s, other) && !GrantsApart(Run(provider, s, other).grants)
  {
    var a := run[0];
    var g := a.grant.value.(statusIndex := s.grants[i].statusIndex);
    var b := IssuedStep(a.k, Some(g));
    AlikeItself(s);
    StepKeepsAlike(provider, s, s, a, b);
    var t := Next(provider, s, b);
    var rest := Continue(provider, Next(provider, s, a), t, run[1..]);
    other := [b] + rest;
    assert other[1..] == rest;
    assert forall j :: 0 < j < |run| ==> run[j] == run[1..][j - 1] && other[j] == rest[j - 1];
    GrantsStay(provider, t, rest);
    var grants := Run(provider, t, rest).grants;
    assert t.grants == s.grants + [g] && grants[i] == t.grants[i] && grants[|s.grants|] == t.grants[|s.grants|];
  }

  lemma {:induction false} Collide(provider: Provider, s: State, run: seq<Step>) returns (other: seq<Step>)
    requires Possible(provider, s, run) && !KnowingRun(provider, s, run)
    ensures SameSchedule(run, other) && Possible(provider, s, other) && !GrantsApart(Run(provider, s, other).grants)
    decreases |run|
  {
    hide Next;
    if KnowsTheStored(s, run[0]) {
      var rest := Collide(provider, Next(provider, s, run[0]), run[1..]);
      other := [run[0]] + rest;
      assert other[1..] == rest;
      assert forall j :: 0 < j < |run| ==> run[j] == run[1..][j - 1] && other[j] == rest[j - 1];
    } else {
      var i :| 0 <= i < |s.grants| && s.grants[i].statusIndex !in s.accepts[run[0].k].statusList;
      other := CollideNow(provider, s, run, i);
    }
  }

  /** Whatever free indices the grants of the schedule get, no two are the same. */
  ghost predicate AlwaysApart(provider: Provider, run: seq<Step>) {
    forall other :: SameSchedule(run, other) && Possible(provider, INITIAL, other) ==> GrantsApart(Run(provider, INITIAL, other).grants)
  }

  /** A schedule keeps indices apart, for every choice of free ones, exactly if each grant is recorded against a list
      that knows all grants stored by then. */
  lemma IndicesStayApartIff(provider: Provider, run: seq<Step>)
    requires Possible(provider, INITIAL, run)
    ensures AlwaysApart(provider, run) <==> KnowingRun(provider, INITIAL, run)
  {
    if KnowingRun(provider, INITIAL, run) {
      assert Mirrors(INITIAL, INITIAL);
      forall other | SameSchedule(run, other) && Possible(provider, INITIAL, other)
        ensures GrantsApart(Run(provider, INITIAL, other).grants)
      {
        KnowingRunsKeepApart(provider, INITIAL, INITIAL, run, other);
      }
    } else {
      var other := Collide(provider, INITIAL, run);
    }
  }

  /** Signing one grant at a time is such a schedule. */
  lemma {:induction false} OneAtATimeKnows(provider: Provider, s: State, run: seq<Step>)
    requires ConsentTheorems.IndicesApart(s) && Possible(provider, s, run) && ConsentTheorems.OneAtATimeRun(provider, s, run)
    ensures KnowingRun(provider, s, run)
    decreases |run|
  {
    if run != [] {
      ConsentTheorems.StepKeepsIndicesApart(provider, s, run[0]);
      hide Next, ConsentTheorems.IndicesApart;
      assert KnowsTheStored(s, run[0]) by { OneAtATimeKnowsNow(s, run[0]); }
      OneAtATimeKnows(provider, Next(provider, s, run[0]), run[1..]);
    }
  }

  lemma OneAtATimeKnowsNow(s: State, step: Step)
    requires ConsentTheorems.IndicesApart(s) && Enabled(s, step)
    ensures KnowsTheStored(s, step)
  {
  }
}
