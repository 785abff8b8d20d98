/** Overlapping chat turns: exactly which schedules keep calls paired with results, and which lose a stored history. */
module ChatSchedules {
  import opened Common
  import opened Chat
  import opened ChatTheorems
  import opened ChatTurns

  // ---- Calls and results under any schedule ----------------------------------------------------------

  /** The turn has pushed a call whose result is still to come, or never will after a throw. */
  predicate IsOpen(t: TurnState) {
    t.progress.AtTool? || t.progress.FailedAtTool?
  }

  ghost predicate OpenOn(s: State, a: nat, k: int) {
    0 <= k < |s.turns| && s.turns[k].place == a && IsOpen(s.turns[k])
  }

  /** The array a step pushes to. */
  function PushesTo(s: State, step: Step): Option<nat>
    requires Enabled(s, step)
  {
    match step
    case StartStep(key, _) => Some(if key in s.conversations then s.conversations[key] else |s.heap|)
    case ReplyStep(k, reply) => if reply.Some? then Some(s.turns[k].place) else None
    case OutputStep(k, output) => if output.Some? then Some(s.turns[k].place) else None
  }

  /** The turn a step belongs to. */
  function TurnOf(s: State, step: Step): nat {
    if step.StartStep? then |s.turns| else step.turn
  }

  /** A push onto the array between another turn's call and the result of that call. */
  ghost predicate Intrudes(s: State, step: Step, a: nat)
    requires Enabled(s, step)
  {
    PushesTo(s, step) == Some(a) && exists k :: k != TurnOf(s, step) && OpenOn(s, a, k)
  }

  ghost predicate Intruded(known: set<string>, s: State, run: seq<Step>, a: nat)
    requires Valid(s) && Possible(known, s, run)
    decreases |run|
  {
    run != [] &&
    (Intrudes(s, run[0], a) ||
     (StepKeepsValid(known, s, run[0]); Intruded(known, Next(known, s, run[0]), run[1..], a)))
  }

  /** No call on the array waits for its result. */
  ghost predicate Clean(s: State, a: nat)
    requires a < |s.heap|
  {
    Paired(s.heap[a]) && forall k :: !OpenOn(s, a, k)
  }

  /** The one open turn on the array has pushed the last message, and all before it is paired. */
  ghost predicate Hanging(s: State, a: nat, k: int)
    requires a < |s.heap|
  {
    && OpenOn(s, a, k) && (forall j :: OpenOn(s, a, j) ==> j == k)
    && HangsOn(s.heap[a], s.turns[k].progress.id, s.turns[k].progress.tool)
  }

  ghost predicate HangsOn(h: History, id: string, tool: string) {
    && h != [] && Paired(h[..|h| - 1])
    && var last := h[|h| - 1]; last.ToolCall? && last.id == id && last.tool == tool
  }

  ghost predicate Orderly(s: State, a: nat) {
    a < |s.heap| ==> Clean(s, a) || exists k :: Hanging(s, a, k)
  }

  /** A call directly followed by something that is not its result. */
  ghost predicate Broken(h: History) {
    exists i :: 0 <= i < |h| - 1 && h[i].ToolCall? && !IsPair(h[i], h[i + 1])
  }

  lemma BrokenStays(h: History, more: History)
    requires Broken(h)
    ensures Broken(h + more) && !Paired(h + more)
  {
    var i :| 0 <= i < |h| - 1 && h[i].ToolCall? && !IsPair(h[i], h[i + 1]);
    assert (h + more)[i] == h[i] && (h + more)[i + 1] == h[i + 1];
  }

  lemma HangingBreaks(h: History, id: string, tool: string, more: History)
    requires HangsOn(h, id, tool) && more != [] && !more[0].ToolResult?
    ensures Broken(h + more)
  {
    var i := |h| - 1;
    assert (h + more)[i] == h[i] && (h + more)[i + 1] == more[0];
  }

  lemma HangingIsUnpaired(h: History, id: string, tool: string)
    requires HangsOn(h, id, tool)
    ensures !Paired(h)
  {
    assert h[|h| - 1].ToolCall?;
  }

  lemma HangingCloses(h: History, id: string, tool: string, content: string)
    requires HangsOn(h, id, tool)
    ensures Paired(h + [ToolResult(id, tool, content)])
  {
    var front, pair := h[..|h| - 1], [h[|h| - 1], ToolResult(id, tool, content)];
    assert Paired(pair);
    PairedParts(front, pair);
    assert h + [ToolResult(id, tool, content)] == front + pair;
  }

  lemma PairedOpens(h: History, id: string, tool: string, args: string)
    requires Paired(h)
    ensures HangsOn(h + [ToolCall(id, tool, args)], id, tool)
  {
    assert (h + [ToolCall(id, tool, args)])[..|h|] == h;
  }

  lemma PairedGrows(h: History, m: Message)
    requires Paired(h) && (m.User? || m.AssistantText?)
    ensures Paired(h + [m])
  {
    assert Paired([m]);
    PairedParts(h, [m]);
  }

  lemma PairedAnswers(h: History, id: string, tool: string, args: string, content: string)
    requires Paired(h)
    ensures Paired(h + [ToolCall(id, tool, args), ToolResult(id, tool, content)])
  {
    var pair := [ToolCall(id, tool, args), ToolResult(id, tool, content)];
    assert Paired(pair);
    PairedParts(h, pair);
  }

  /** What a step pushes. */
  function Pushed(known: set<string>, s: State, step: Step): History
    requires Enabled(s, step)
  {
    match step
    case StartStep(_, message) => [User(message)]
    case ReplyStep(_, None) => []
    case ReplyStep(_, Some(Text(content))) => [AssistantText(content)]
    case ReplyStep(_, Some(Call(id, tool, args))) => CallMessages(known, id, tool, args)
    case OutputStep(_, None) => []
    case OutputStep(k, Some(content)) => [ToolResult(s.turns[k].progress.id, s.turns[k].progress.tool, content)]
  }

  /** A step changes its own turn and adds to the one array it pushes to. */
  lemma StepIs(known: set<string>, s: State, step: Step)
    requires Valid(s) && Enabled(s, step)
    ensures var (n, k) := (Next(known, s, step), TurnOf(s, step));
            && |n.heap| == |s.heap| + (if PushesTo(s, step) == Some(|s.heap|) then 1 else 0)
            && (forall a :: 0 <= a < |s.heap| ==>
                  n.heap[a] == if PushesTo(s, step) == Some(a) then s.heap[a] + Pushed(known, s, step) else s.heap[a])
            && (|n.heap| > |s.heap| ==> n.heap[|s.heap|] == Pushed(known, s, step))
            && k < |n.turns| && |s.turns| <= |n.turns| <= |s.turns| + 1 && (step.StartStep? <==> |n.turns| > |s.turns|)
            && (forall j :: 0 <= j < |s.turns| && j != k ==> n.turns[j] == s.turns[j])
            && (k < |s.turns| ==> n.turns[k].place == s.turns[k].place && n.turns[k].key == s.turns[k].key)
            && (k >= |s.turns| ==> PushesTo(s, step) == Some(n.turns[k].place) && n.turns[k].key == step.key)
  {
  }

  /** When the turn of a step is open after it. */
  lemma OpensWhen(known: set<string>, s: State, step: Step)
    requires Valid(s) && Enabled(s, step)
    ensures var (n, k) := (Next(known, s, step), TurnOf(s, step));
            && k < |n.turns|
            && (IsOpen(n.turns[k]) <==>
                (step.OutputStep? && step.output.None?) ||
                (step.ReplyStep? && step.reply.Some? && step.reply.value.Call? && step.reply.value.tool in known))
            && (step.ReplyStep? && IsOpen(n.turns[k]) ==>
                  n.turns[k].progress.id == step.reply.value.id && n.turns[k].progress.tool == step.reply.value.tool)
            && (step.OutputStep? ==> IsOpen(s.turns[k]))
            && (step.OutputStep? && IsOpen(n.turns[k]) ==>
                  n.turns[k].progress.id == s.turns[k].progress.id && n.turns[k].progress.tool == s.turns[k].progress.tool)
            && (step.ReplyStep? ==> !IsOpen(s.turns[k]))
  {
  }

  /** A step that does not intrude keeps the array orderly, whichever turn it belongs to. */
  lemma OrderlyStep(known: set<string>, s: State, step: Step, a: nat)
    requires Valid(s) && Enabled(s, step) && Orderly(s, a) && !Intrudes(s, step, a)
    ensures Orderly(Next(known, s, step), a)
  {
    var n, k := Next(known, s, step), TurnOf(s, step);
    StepIs(known, s, step);
    OpensWhen(known, s, step);
    if a < |n.heap| {
      if PushesTo(s, step) != Some(a) {
        QuietStep(known, s, step, a);
      } else if step.OutputStep? {
        ResultStep(known, s, step, a);
      } else {
        PushStep(known, s, step, a);
      }
    }
  }

  /** A step that pushes nothing to the array. */
  lemma QuietStep(known: set<string>, s: State, step: Step, a: nat)
    requires Valid(s) && Enabled(s, step) && Orderly(s, a) && a < |s.heap| && PushesTo(s, step) != Some(a)
    ensures Orderly(Next(known, s, step), a)
  {
    var n := Next(known, s, step);
    StepIs(known, s, step);
    OpensWhen(known, s, step);
    hide Next, Paired, HangsOn, Enabled, Valid;
    forall j ensures OpenOn(n, a, j) <==> OpenOn(s, a, j) {
    }
    if !Clean(s, a) {
      var k :| Hanging(s, a, k);
      assert Hanging(n, a, k);
    }
  }

  /** The result of the one open call. */
  lemma ResultStep(known: set<string>, s: State, step: Step, a: nat)
    requires Valid(s) && Enabled(s, step) && Orderly(s, a) && step.OutputStep? && PushesTo(s, step) == Some(a)
    requires a < |s.heap|
    ensures Orderly(Next(known, s, step), a)
  {
    var n, k := Next(known, s, step), step.turn;
    StepIs(known, s, step);
    OpensWhen(known, s, step);
    assert OpenOn(s, a, k);
    assert Hanging(s, a, k);
    HangingCloses(s.heap[a], s.turns[k].progress.id, s.turns[k].progress.tool, step.output.value);
    hide Next, Paired, HangsOn;
    assert forall j: int {:trigger OpenOn(n, a, j)} :: 0 <= j < |n.turns| && j != k && OpenOn(n, a, j) ==> OpenOn(s, a, j);
    assert Clean(n, a);
  }

  /** A message or a call on an array where nothing is open. */
  lemma PushStep(known: set<string>, s: State, step: Step, a: nat)
    requires Valid(s) && Enabled(s, step) && Orderly(s, a) && !step.OutputStep?
    requires PushesTo(s, step) == Some(a) && !Intrudes(s, step, a)
    ensures Orderly(Next(known, s, step), a)
  {
    var n, k := Next(known, s, step), TurnOf(s, step);
    StepIs(known, s, step);
    OpensWhen(known, s, step);
    var h := if a < |s.heap| then s.heap[a] else [];
    assert Paired(h) by {
      NothingIsPaired();
      assert forall j :: j != k ==> !OpenOn(s, a, j);
    }
    var more := Pushed(known, s, step);
    assert n.heap[a] == h + more;
    assert forall j {:trigger OpenOn(n, a, j)} :: OpenOn(n, a, j) && j != k ==> OpenOn(s, a, j);
    if step.StartStep? {
      PairedGrows(h, more[0]);
      assert Clean(n, a);
    } else if step.reply.value.Text? {
      PairedGrows(h, more[0]);
      assert Clean(n, a);
    } else {
      var Call(id, tool, args) := step.reply.value;
      if tool in known {
        PairedOpens(h, id, tool, args);
        assert Hanging(n, a, k);
      } else {
        PairedAnswers(h, id, tool, args, UnknownTool(tool));
        assert Clean(n, a);
      }
    }
  }

  /** An intruding step leaves a call that no result follows. */
  lemma IntrudingStepBreaks(known: set<string>, s: State, step: Step, a: nat)
    requires Valid(s) && Enabled(s, step) && Orderly(s, a) && Intrudes(s, step, a)
    ensures a < |s.heap| && Broken(Next(known, s, step).heap[a])
  {
    StepIs(known, s, step);
    OpensWhen(known, s, step);
    var j :| j != TurnOf(s, step) && OpenOn(s, a, j);
    assert Hanging(s, a, j);
    assert !step.OutputStep? by {
      if step.OutputStep? {
        assert OpenOn(s, a, step.turn);
      }
    }
    HangingBreaks(s.heap[a], s.turns[j].progress.id, s.turns[j].progress.tool, Pushed(known, s, step));
  }

  lemma {:induction false} BrokenForGood(known: set<string>, s: State, run: seq<Step>, a: nat)
    requires Valid(s) && Possible(known, s, run) && a < |s.heap| && Broken(s.heap[a])
    ensures a < |Run(known, s, run).heap| && !Paired(Run(known, s, run).heap[a])
    decreases |run|
  {
    BrokenStays(s.heap[a], []);
    assert s.heap[a] + [] == s.heap[a];
    if run != [] {
      StepIs(known, s, run[0]);
      BrokenStays(s.heap[a], Pushed(known, s, run[0]));
      StepKeepsValid(known, s, run[0]);
      hide Next, Broken, Paired;
      BrokenForGood(known, Next(known, s, run[0]), run[1..], a);
    }
  }

  /** Whatever the schedule, an array holds paired calls and results exactly when nothing was pushed to it between
      another turn's call and its result and no call on it is left without one. */
  lemma {:induction false} PairedIffNothingIntrudes(known: set<string>, s: State, run: seq<Step>, a: nat)
    requires Valid(s) && Possible(known, s, run) && Orderly(s, a)
    requires a < |Run(known, s, run).heap|
    ensures var end := Run(known, s, run);
            Paired(end.heap[a]) <==> !Intruded(known, s, run, a) && forall k :: !OpenOn(end, a, k)
    decreases |run|
  {
    if run == [] {
      if !Clean(s, a) {
        var k :| Hanging(s, a, k);
        HangingIsUnpaired(s.heap[a], s.turns[k].progress.id, s.turns[k].progress.tool);
      }
    } else {
      StepKeepsValid(known, s, run[0]);
      var n := Next(known, s, run[0]);
      if Intrudes(s, run[0], a) {
        IntrudingStepBreaks(known, s, run[0], a);
        StepIs(known, s, run[0]);
        BrokenForGood(known, n, run[1..], a);
      } else {
        OrderlyStep(known, s, run[0], a);
        hide Next, Paired, OpenOn, Orderly;
        PairedIffNothingIntrudes(known, n, run[1..], a);
      }
    }
  }

  ghost predicate AllReturned(s: State) {
    forall k :: 0 <= k < |s.turns| ==> s.turns[k].progress.Returned?
  }

  /** When every turn has returned, the stored histories are all paired exactly when no push of another turn landed
      between a call and its result on one of them. */
  lemma StoredHistoriesPairedIff(known: set<string>, run: seq<Step>)
    requires Possible(known, INITIAL, run) && AllReturned(Run(known, INITIAL, run))
    ensures var end := Run(known, INITIAL, run);
            (forall key :: key in end.conversations ==> Paired(end.heap[end.conversations[key]])) <==>
            forall key :: key in end.conversations ==> !Intruded(known, INITIAL, run, end.conversations[key])
  {
    var end := Run(known, INITIAL, run);
    forall key | key in end.conversations
      ensures var a := end.conversations[key]; Paired(end.heap[a]) <==> !Intruded(known, INITIAL, run, a)
    {
      PairedIffNothingIntrudes(known, INITIAL, run, end.conversations[key]);
    }
  }

  lemma RunStarts(known: set<string>, s: State, step: Step, run: seq<Step>)
    requires Valid(s) && Enabled(s, step)
    ensures Valid(Next(known, s, step))
    ensures Possible(known, s, [step] + run) <==> Possible(known, Next(known, s, step), run)
    ensures Possible(known, s, [step] + run) ==> Run(known, s, [step] + run) == Run(known, Next(known, s, step), run)
  {
    StepKeepsValid(known, s, step);
    assert ([step] + run)[1..] == run;
  }

  lemma Two(known: set<string>, s: State, x: Step, y: Step, run: seq<Step>, after: State)
    requires Valid(s) && Enabled(s, x) && Valid(Next(known, s, x)) && Enabled(Next(known, s, x), y)
    requires Next(known, Next(known, s, x), y) == after && Valid(after) && Possible(known, after, run)
    ensures Possible(known, s, [x, y] + run) && Run(known, s, [x, y] + run) == Run(known, after, run)
  {
    RunStarts(known, s, x, [y] + run);
    RunStarts(known, Next(known, s, x), y, run);
    assert [x] + ([y] + run) == [x, y] + run;
  }

  // The overlap below, state by state: one finished turn, a call waiting, a message and the result, both answers.
  function OneTurn(key: string): (s: State)
    ensures Valid(s)
  {
    State([[User(""), AssistantText("")]], map[key := 0], [TurnState(key, 0, 0, Returned(""))])
  }

  function CallWaits(key: string, tool: string): (s: State)
    ensures Valid(s)
  {
    State([OneTurn(key).heap[0] + [User("A"), ToolCall("1", tool, "{}")]], map[key := 0],
          OneTurn(key).turns + [TurnState(key, 0, 1, AtTool("1", tool))])
  }

  function Overlapped(key: string, tool: string): (s: State)
    ensures Valid(s)
  {
    State([CallWaits(key, tool).heap[0] + [User("B"), ToolResult("1", tool, "R")]], map[key := 0],
          OneTurn(key).turns + [TurnState(key, 0, 1, AtModel), TurnState(key, 0, 0, AtModel)])
  }

  function BothReturned(key: string, tool: string): (s: State)
    ensures Valid(s)
  {
    State([Overlapped(key, tool).heap[0] + [AssistantText("C"), AssistantText("D")]], map[key := 0],
          OneTurn(key).turns + [TurnState(key, 0, 1, Returned("C")), TurnState(key, 0, 0, Returned("D"))])
  }

  lemma ToOneTurn(known: set<string>, key: string, run: seq<Step>)
    requires Possible(known, OneTurn(key), run)
    ensures var all := [StartStep(key, ""), ReplyStep(0, Some(Text("")))] + run;
            Possible(known, INITIAL, all) && Run(known, INITIAL, all) == Run(known, OneTurn(key), run)
  {
    assert [User("")] + [AssistantText("")] == OneTurn(key).heap[0];
    Two(known, INITIAL, StartStep(key, ""), ReplyStep(0, Some(Text(""))), run, OneTurn(key));
  }

  lemma ToCallWaits(key: string, tool: string, run: seq<Step>)
    requires Possible({tool}, CallWaits(key, tool), run)
    ensures var all := [StartStep(key, "A"), ReplyStep(1, Some(Call("1", tool, "{}")))] + run;
            Possible({tool}, OneTurn(key), all) && Run({tool}, OneTurn(key), all) == Run({tool}, CallWaits(key, tool), run)
  {
    assert OneTurn(key).heap[0] + [User("A")] + [ToolCall("1", tool, "{}")] == CallWaits(key, tool).heap[0];
    Two({tool}, OneTurn(key), StartStep(key, "A"), ReplyStep(1, Some(Call("1", tool, "{}"))), run, CallWaits(key, tool));
  }

  lemma ToOverlapped(key: string, tool: string, run: seq<Step>)
    requires Possible({tool}, Overlapped(key, tool), run)
    ensures var all := [StartStep(key, "B"), OutputStep(1, Some("R"))] + run;
            && Possible({tool}, CallWaits(key, tool), all)
            && Run({tool}, CallWaits(key, tool), all) == Run({tool}, Overlapped(key, tool), run)
  {
    assert CallWaits(key, tool).heap[0] + [User("B")] + [ToolResult("1", tool, "R")] == Overlapped(key, tool).heap[0];
    Two({tool}, CallWaits(key, tool), StartStep(key, "B"), OutputStep(1, Some("R")), run, Overlapped(key, tool));
  }

  lemma ToBothReturned(key: string, tool: string)
    ensures var all := [ReplyStep(1, Some(Text("C"))), ReplyStep(2, Some(Text("D")))];
            && Possible({tool}, Overlapped(key, tool), all)
            && Run({tool}, Overlapped(key, tool), all) == BothReturned(key, tool)
  {
    assert Overlapped(key, tool).heap[0] + [AssistantText("C")] + [AssistantText("D")] == BothReturned(key, tool).heap[0];
    Two({tool}, Overlapped(key, tool), ReplyStep(1, Some(Text("C"))), ReplyStep(2, Some(Text("D"))), [],
        BothReturned(key, tool));
  }

  /** Two visits in one stored conversation: the second one's message lands between the first one's call and its
      result. Both return, and the stored history is not paired. */
  lemma OverlappingVisitsBreakAStoredHistory(key: string, tool: string) returns (run: seq<Step>)
    ensures Possible({tool}, INITIAL, run) && AllReturned(Run({tool}, INITIAL, run))
    ensures var end := Run({tool}, INITIAL, run);
            key in end.conversations && !Paired(end.heap[end.conversations[key]])
  {
    hide Paired, OneTurn, CallWaits, Overlapped, BothReturned, Run, Possible;
    var last := [ReplyStep(1, Some(Text("C"))), ReplyStep(2, Some(Text("D")))];
    ToBothReturned(key, tool);
    ToOverlapped(key, tool, last);
    run := [StartStep(key, "B"), OutputStep(1, Some("R"))] + last;
    ToCallWaits(key, tool, run);
    run := [StartStep(key, "A"), ReplyStep(1, Some(Call("1", tool, "{}")))] + run;
    ToOneTurn({tool}, key, run);
    run := [StartStep(key, ""), ReplyStep(0, Some(Text("")))] + run;
    BothReturnedUnpaired(key, tool);
  }

  lemma BothReturnedUnpaired(key: string, tool: string)
    ensures AllReturned(BothReturned(key, tool)) && key in BothReturned(key, tool).conversations
    ensures BothReturned(key, tool).conversations[key] == 0 && !Paired(BothReturned(key, tool).heap[0])
  {
    var h := BothReturned(key, tool).heap[0];
    assert h[3] == ToolCall("1", tool, "{}") && h[4] == User("B");
  }
}
