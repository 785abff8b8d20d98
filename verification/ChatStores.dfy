/** What overlapping turns leave stored: whose array it is, when a stored history is dropped, how many calls it
    can hold, and that turns which nothing overlaps are the turns of `Chat`. */
module ChatStores {
  import opened Common
  import opened Chat
  import opened ChatTheorems
  import opened ChatTurns
  import opened ChatSchedules

  // ---- Arrays belong to keys ------------------------------------------------------------------------------

  /** Turns of two keys never share an array, nor is one key's array stored for another. */
  ghost predicate Apart(s: State) {
    && (forall a, b :: a in s.conversations && b in s.conversations && a != b ==> s.conversations[a] != s.conversations[b])
    && (forall key, k :: key in s.conversations && 0 <= k < |s.turns| && s.turns[k].place == s.conversations[key] ==>
          s.turns[k].key == key)
    && (forall j, k :: 0 <= j < |s.turns| && 0 <= k < |s.turns| && s.turns[j].place == s.turns[k].place ==>
          s.turns[j].key == s.turns[k].key)
  }

  /** A step leaves the map alone or stores its own turn's array, that turn having just returned. */
  lemma StoresWhen(known: set<string>, s: State, step: Step)
    requires Valid(s) && Enabled(s, step)
    ensures var (n, k) := (Next(known, s, step), TurnOf(s, step));
            && k < |n.turns|
            && n.conversations == (if n.turns[k].progress.Returned? then s.conversations[n.turns[k].key := n.turns[k].place]
                                   else s.conversations)
            && (k < |s.turns| ==> !s.turns[k].progress.Returned?)
  {
  }

  lemma StepKeepsApart(known: set<string>, s: State, step: Step)
    requires Valid(s) && Enabled(s, step) && Apart(s)
    ensures Apart(Next(known, s, step))
  {
    StepIs(known, s, step);
    StoresWhen(known, s, step);
    hide Next;
  }

  lemma {:induction false} RunKeepsApart(known: set<string>, s: State, run: seq<Step>)
    requires Valid(s) && Possible(known, s, run) && Apart(s)
    ensures Apart(Run(known, s, run))
    decreases |run|
  {
    if run != [] {
      StepKeepsValid(known, s, run[0]);
      StepKeepsApart(known, s, run[0]);
      hide Next, Apart;
      RunKeepsApart(known, Next(known, s, run[0]), run[1..]);
    }
  }

  // ---- Dropped histories --------------------------------------------------------------------------------------

  /** At some step of the run the array stored for the key gives way to another. */
  ghost predicate Dropped(known: set<string>, s: State, run: seq<Step>, key: string)
    requires Valid(s) && Possible(known, s, run)
    decreases |run|
  {
    run != [] &&
    (StepKeepsValid(known, s, run[0]);
     var n := Next(known, s, run[0]);
     (key in s.conversations && !(key in n.conversations && n.conversations[key] == s.conversations[key])) ||
     Dropped(known, n, run[1..], key))
  }

  ghost predicate ReturnedOn(s: State, key: string, k: int, a: nat) {
    0 <= k < |s.turns| && s.turns[k].key == key && s.turns[k].place == a && s.turns[k].progress.Returned?
  }

  /** Two turns of the key have returned that held different arrays. */
  ghost predicate Split(s: State, key: string) {
    exists j, k, a, b :: a != b && ReturnedOn(s, key, j, a) && ReturnedOn(s, key, k, b)
  }

  /** What is stored is the array of a turn that returned, and something is once a turn has. */
  ghost predicate StoredByReturn(s: State, key: string) {
    && (key in s.conversations ==> exists k :: ReturnedOn(s, key, k, s.conversations[key]))
    && (key !in s.conversations ==> forall k, a :: !ReturnedOn(s, key, k, a))
  }

  lemma ReturnedStays(known: set<string>, s: State, step: Step, key: string, k: int, a: nat)
    requires Valid(s) && Enabled(s, step) && ReturnedOn(s, key, k, a)
    ensures ReturnedOn(Next(known, s, step), key, k, a)
  {
    StepIs(known, s, step);
    StoresWhen(known, s, step);
  }

  /** One step: the stored array is dropped, or the returned turns still hold one array. */
  lemma StepSplits(known: set<string>, s: State, step: Step, key: string)
    requires Valid(s) && Enabled(s, step) && StoredByReturn(s, key) && !Split(s, key)
    ensures var n := Next(known, s, step);
            && StoredByReturn(n, key)
            && (Split(n, key) <==>
                key in s.conversations && !(key in n.conversations && n.conversations[key] == s.conversations[key]))
  {
    var n, k := Next(known, s, step), TurnOf(s, step);
    StepIs(known, s, step);
    StoresWhen(known, s, step);
    hide Next, Valid, Enabled;
    assert forall j, a {:trigger ReturnedOn(n, key, j, a)} :: j != k ==> (ReturnedOn(n, key, j, a) <==> ReturnedOn(s, key, j, a));
    if key in s.conversations {
      var j :| ReturnedOn(s, key, j, s.conversations[key]);
      assert ReturnedOn(n, key, j, s.conversations[key]);
    }
    if n.turns[k].progress.Returned? && n.turns[k].key == key {
      assert ReturnedOn(n, key, k, n.turns[k].place);
    } else {
      assert forall j, a {:trigger ReturnedOn(n, key, j, a)} :: ReturnedOn(n, key, j, a) <==> ReturnedOn(s, key, j, a);
    }
  }

  lemma {:induction false} SplitStays(known: set<string>, s: State, run: seq<Step>, key: string)
    requires Valid(s) && Possible(known, s, run) && Split(s, key)
    ensures Split(Run(known, s, run), key)
    decreases |run|
  {
    if run != [] {
      var j, k, a, b :| a != b && ReturnedOn(s, key, j, a) && ReturnedOn(s, key, k, b);
      ReturnedStays(known, s, run[0], key, j, a);
      ReturnedStays(known, s, run[0], key, k, b);
      StepKeepsValid(known, s, run[0]);
      hide Next, ReturnedOn;
      SplitStays(known, Next(known, s, run[0]), run[1..], key);
    }
  }

  lemma {:induction false} DroppedIff(known: set<string>, s: State, run: seq<Step>, key: string)
    requires Valid(s) && Possible(known, s, run) && StoredByReturn(s, key) && !Split(s, key)
    ensures Dropped(known, s, run, key) <==> Split(Run(known, s, run), key)
    decreases |run|
  {
    if run != [] {
      StepKeepsValid(known, s, run[0]);
      StepSplits(known, s, run[0], key);
      var n := Next(known, s, run[0]);
      hide Next, Split, StoredByReturn;
      if Split(n, key) {
        SplitStays(known, n, run[1..], key);
      } else {
        DroppedIff(known, n, run[1..], key);
      }
    }
  }

  /** Whatever the schedule, a stored history of the key gives way to another exactly when two turns of the key that
      held different arrays both return; a turn has an array of its own when it began before any had returned. */
  lemma StoredHistoryDroppedIff(known: set<string>, run: seq<Step>, key: string)
    requires Possible(known, INITIAL, run)
    ensures Dropped(known, INITIAL, run, key) <==> Split(Run(known, INITIAL, run), key)
  {
    DroppedIff(known, INITIAL, run, key);
  }

  /** Two first turns of one key, the second begun before the first returned: what the first said is no longer stored. */
  lemma OverlappingFirstTurnsDropAHistory(known: set<string>, key: string) returns (run: seq<Step>)
    ensures Possible(known, INITIAL, run) && AllReturned(Run(known, INITIAL, run))
    ensures Dropped(known, INITIAL, run, key)
    ensures var end := Run(known, INITIAL, run);
            key in end.conversations && end.heap[end.conversations[key]] == [User("B"), AssistantText("D")]
  {
    hide Dropped, Run, Possible, Split;
    var answers := [ReplyStep(0, Some(Text("C"))), ReplyStep(1, Some(Text("D")))];
    ToBothFirst(known, key);
    ToBothBegun(known, key, answers);
    run := [StartStep(key, "A"), StartStep(key, "B")] + answers;
    assert ReturnedOn(BothFirst(key), key, 0, 0) && ReturnedOn(BothFirst(key), key, 1, 1);
    assert Split(BothFirst(key), key) by { SplitHere(BothFirst(key), key); }
    StoredHistoryDroppedIff(known, run, key);
  }

  lemma SplitHere(s: State, key: string)
    requires ReturnedOn(s, key, 0, 0) && ReturnedOn(s, key, 1, 1)
    ensures Split(s, key)
  {
  }

  function BothBegun(key: string): (s: State)
    ensures Valid(s)
  {
    State([[User("A")], [User("B")]], map[], [TurnState(key, 0, 0, AtModel), TurnState(key, 1, 0, AtModel)])
  }

  function BothFirst(key: string): (s: State)
    ensures Valid(s)
  {
    State([[User("A"), AssistantText("C")], [User("B"), AssistantText("D")]], map[key := 1],
          [TurnState(key, 0, 0, Returned("C")), TurnState(key, 1, 0, Returned("D"))])
  }

  lemma ToBothBegun(known: set<string>, key: string, run: seq<Step>)
    requires Possible(known, BothBegun(key), run)
    ensures var all := [StartStep(key, "A"), StartStep(key, "B")] + run;
            Possible(known, INITIAL, all) && Run(known, INITIAL, all) == Run(known, BothBegun(key), run)
  {
    Two(known, INITIAL, StartStep(key, "A"), StartStep(key, "B"), run, BothBegun(key));
  }

  lemma ToBothFirst(known: set<string>, key: string)
    ensures var all := [ReplyStep(0, Some(Text("C"))), ReplyStep(1, Some(Text("D")))];
            Possible(known, BothBegun(key), all) && Run(known, BothBegun(key), all) == BothFirst(key)
  {
    var end := BothFirst(key);
    assert [User("A")] + [AssistantText("C")] == end.heap[0] && [User("B")] + [AssistantText("D")] == end.heap[1];
    Two(known, BothBegun(key), ReplyStep(0, Some(Text("C"))), ReplyStep(1, Some(Text("D"))), [], end);
  }

  // ---- How many calls an array can hold ----------------------------------------------------------------------

  function Users(h: History): nat {
    if h == [] then 0 else (if h[0].User? then 1 else 0) + Users(h[1..])
  }

  /** The tool calls counted by the turns on the array, and how many turns these are. */
  function CallsOn(turns: seq<TurnState>, a: nat): nat {
    if turns == [] then 0 else (if turns[0].place == a then turns[0].calls else 0) + CallsOn(turns[1..], a)
  }

  function TurnsOn(turns: seq<TurnState>, a: nat): nat {
    if turns == [] then 0 else (if turns[0].place == a then 1 else 0) + TurnsOn(turns[1..], a)
  }

  lemma {:induction false} CountsAdd(h: History, more: History)
    ensures Calls(h + more) == Calls(h) + Calls(more) && Users(h + more) == Users(h) + Users(more)
  {
    if h == [] {
      assert h + more == more;
    } else {
      assert (h + more)[1..] == h[1..] + more;
      CountsAdd(h[1..], more);
    }
  }

  lemma {:induction false} TurnsAdd(turns: seq<TurnState>, t: TurnState, a: nat)
    ensures CallsOn(turns + [t], a) == CallsOn(turns, a) + if t.place == a then t.calls else 0
    ensures TurnsOn(turns + [t], a) == TurnsOn(turns, a) + if t.place == a then 1 else 0
  {
    if turns == [] {
      assert ([] + [t])[1..] == [];
    } else {
      assert (turns + [t])[1..] == turns[1..] + [t];
      TurnsAdd(turns[1..], t, a);
    }
  }

  lemma {:induction false} TurnChanges(turns: seq<TurnState>, k: nat, t: TurnState, a: nat)
    requires k < |turns| && t.place == turns[k].place
    ensures CallsOn(turns[k := t], a) - CallsOn(turns, a) == if t.place == a then t.calls - turns[k].calls else 0
    ensures TurnsOn(turns[k := t], a) == TurnsOn(turns, a)
  {
    if k == 0 {
      assert turns[0 := t][1..] == turns[1..];
    } else {
      assert turns[k := t][1..] == turns[1..][k - 1 := t];
      TurnChanges(turns[1..], k - 1, t, a);
    }
  }

  /** Each array holds the calls its turns counted, and one user message for each of them. */
  ghost predicate Tallied(s: State, a: nat) {
    if a < |s.heap| then Calls(s.heap[a]) == CallsOn(s.turns, a) && Users(s.heap[a]) == TurnsOn(s.turns, a)
    else CallsOn(s.turns, a) == 0 && TurnsOn(s.turns, a) == 0
  }

  /** What a step adds to the counts of what it pushes. */
  lemma PushedCounts(known: set<string>, s: State, step: Step)
    requires Valid(s) && Enabled(s, step)
    ensures var (n, k) := (Next(known, s, step), TurnOf(s, step));
            && k < |n.turns|
            && n.turns == (if k < |s.turns| then s.turns[k := n.turns[k]] else s.turns + [n.turns[k]])
            && Calls(Pushed(known, s, step)) == n.turns[k].calls - (if k < |s.turns| then s.turns[k].calls else 0)
            && Users(Pushed(known, s, step)) == (if step.StartStep? then 1 else 0)
            && (PushesTo(s, step) == None ==> n.turns[k].calls == s.turns[k].calls)
            && (PushesTo(s, step).Some? ==> PushesTo(s, step).value == n.turns[k].place)
  {
    var pushed := Pushed(known, s, step);
    if |pushed| > 0 {
      assert Calls(pushed[1..]) == 0 && Users(pushed[1..]) == 0 by {
        if |pushed| > 1 {
          assert pushed[1..][1..] == [];
        }
      }
    }
  }

  lemma StepTallies(known: set<string>, s: State, step: Step, a: nat)
    requires Valid(s) && Enabled(s, step) && Tallied(s, a)
    ensures Tallied(Next(known, s, step), a)
  {
    var n, k := Next(known, s, step), TurnOf(s, step);
    StepIs(known, s, step);
    PushedCounts(known, s, step);
    hide Next, Pushed;
    if k < |s.turns| {
      TurnChanges(s.turns, k, n.turns[k], a);
    } else {
      TurnsAdd(s.turns, n.turns[k], a);
    }
    if a < |s.heap| && PushesTo(s, step) == Some(a) {
      CountsAdd(s.heap[a], Pushed(known, s, step));
    }
  }

  lemma {:induction false} RunTallies(known: set<string>, s: State, run: seq<Step>, a: nat)
    requires Valid(s) && Possible(known, s, run) && Tallied(s, a)
    ensures Tallied(Run(known, s, run), a)
    decreases |run|
  {
    if run != [] {
      StepKeepsValid(known, s, run[0]);
      StepTallies(known, s, run[0], a);
      hide Next, Tallied;
      RunTallies(known, Next(known, s, run[0]), run[1..], a);
    }
  }

  lemma {:induction false} FewCalls(turns: seq<TurnState>, a: nat)
    requires forall k :: 0 <= k < |turns| ==> turns[k].calls <= MAX_ROUNDS
    ensures CallsOn(turns, a) <= MAX_ROUNDS * TurnsOn(turns, a)
  {
    if turns != [] {
      FewCalls(turns[1..], a);
    }
  }

  /** However turns overlap, no array ever holds more than four calls for each user message in it. */
  lemma AtMostFourCallsAMessage(known: set<string>, run: seq<Step>, a: nat)
    requires Possible(known, INITIAL, run) && a < |Run(known, INITIAL, run).heap|
    ensures var h := Run(known, INITIAL, run).heap[a]; Calls(h) <= MAX_ROUNDS * Users(h)
  {
    RunTallies(known, INITIAL, run, a);
    FewCalls(Run(known, INITIAL, run).turns, a);
  }

  // ---- Turns that nothing overlaps ------------------------------------------------------------------------------

  /** The stored histories. */
  ghost function View(s: State): map<string, History>
    requires Valid(s)
  {
    map key | key in s.conversations :: s.heap[s.conversations[key]]
  }

  lemma {:induction false} RunOfParts(known: set<string>, s: State, first: seq<Step>, rest: seq<Step>)
    requires Valid(s) && Possible(known, s, first) && Possible(known, Run(known, s, first), rest)
    ensures Possible(known, s, first + rest) && Run(known, s, first + rest) == Run(known, Run(known, s, first), rest)
    decreases |first|
  {
    if first == [] {
      assert first + rest == rest;
    } else {
      var x, tail := first[0], first[1..];
      hide Next, Enabled, Valid;
      RunStarts(known, s, x, tail);
      assert [x] + tail == first;
      RunOfParts(known, Next(known, s, x), tail, rest);
      RunStarts(known, s, x, tail + rest);
      assert [x] + (tail + rest) == first + rest;
    }
  }

  predicate IsStepOf(k: nat, step: Step) {
    !step.StartStep? && step.turn == k
  }

  ghost predicate StepsOf(k: nat, run: seq<Step>) {
    forall i :: 0 <= i < |run| ==> IsStepOf(k, run[i])
  }

  /** What rounds `calls` to 3 of a turn that nothing overlaps come to. */
  ghost predicate Drives(s: State, k: nat, rt: Runtime, end: State)
    requires k < |s.turns| && s.turns[k].place < |s.heap|
  {
    var t := s.turns[k];
    var (history, reply) := Rounds(s.heap[t.place], rt, t.calls);
    && end.heap == s.heap[t.place := history]
    && end.conversations == (if reply.Some? then s.conversations[t.key := t.place] else s.conversations)
    && |end.turns| == |s.turns|
    && (reply.Some? ==> end.turns[k].progress == Returned(reply.value))
    && (reply.None? ==> end.turns[k].progress.FailedAtModel? || end.turns[k].progress.FailedAtTool?)
  }

  /** A call that goes to a tool, and its result. */
  lemma CallAndResult(s: State, k: nat, rt: Runtime) returns (run: seq<Step>, end: State)
    requires Valid(s) && k < |s.turns| && s.turns[k].progress.AtModel?
    requires var reply := rt.complete(s.heap[s.turns[k].place]);
             reply.Some? && reply.value.Call? && reply.value.tool in rt.known && rt.run(reply.value.tool, reply.value.args).Some?
    ensures var (t, call) := (s.turns[k], rt.complete(s.heap[s.turns[k].place]).value);
            var h := s.heap[t.place] + [ToolCall(call.id, call.tool, call.args)]
                     + [ToolResult(call.id, call.tool, rt.run(call.tool, call.args).value)];
            end == NextRound(s.(heap := s.heap[t.place := h]), k, t.(calls := t.calls + 1))
    ensures StepsOf(k, run) && Possible(rt.known, s, run) && Run(rt.known, s, run) == end && Valid(end)
  {
    var t, reply := s.turns[k], rt.complete(s.heap[s.turns[k].place]);
    var x, y := ReplyStep(k, reply), OutputStep(k, rt.run(reply.value.tool, reply.value.args));
    StepKeepsValid(rt.known, s, x);
    var mid := Next(rt.known, s, x);
    StepKeepsValid(rt.known, mid, y);
    end := Next(rt.known, mid, y);
    Two(rt.known, s, x, y, [], end);
    run := [x, y];
    assert run + [] == run;
  }

  /** A call to no tool, answered at once. */
  lemma UnknownCall(s: State, k: nat, rt: Runtime) returns (run: seq<Step>, end: State)
    requires Valid(s) && k < |s.turns| && s.turns[k].progress.AtModel?
    requires var reply := rt.complete(s.heap[s.turns[k].place]);
             reply.Some? && reply.value.Call? && reply.value.tool !in rt.known
    ensures var (t, call) := (s.turns[k], rt.complete(s.heap[s.turns[k].place]).value);
            var h := s.heap[t.place] + [ToolCall(call.id, call.tool, call.args)]
                     + [ToolResult(call.id, call.tool, UnknownTool(call.tool))];
            end == NextRound(s.(heap := s.heap[t.place := h]), k, t.(calls := t.calls + 1))
    ensures StepsOf(k, run) && Possible(rt.known, s, run) && Run(rt.known, s, run) == end && Valid(end)
  {
    var t, reply := s.turns[k], rt.complete(s.heap[s.turns[k].place]);
    var Call(id, tool, args) := reply.value;
    var x := ReplyStep(k, reply);
    RunStarts(rt.known, s, x, []);
    run := [x];
    assert run + [] == run;
    end := Next(rt.known, s, x);
    assert s.heap[t.place] + [ToolCall(id, tool, args)] + [ToolResult(id, tool, UnknownTool(tool))]
        == s.heap[t.place] + CallMessages(rt.known, id, tool, args);
  }

  /** The last round of a turn: a text, or a throw. */
  lemma LastRound(s: State, k: nat, rt: Runtime) returns (run: seq<Step>)
    requires Valid(s) && k < |s.turns| && s.turns[k].progress.AtModel?
    requires var reply := rt.complete(s.heap[s.turns[k].place]);
             reply.Some? && reply.value.Call? ==> ToolOutput(rt, reply.value.tool, reply.value.args).None?
    ensures StepsOf(k, run) && Possible(rt.known, s, run) && Drives(s, k, rt, Run(rt.known, s, run))
  {
    var t, reply := s.turns[k], rt.complete(s.heap[s.turns[k].place]);
    var x := ReplyStep(k, reply);
    RunStarts(rt.known, s, x, []);
    assert [x] + [] == [x];
    run := [x];
    if reply.None? {
      assert s.heap[t.place := s.heap[t.place]] == s.heap;
    } else if reply.value.Call? {
      var mid, y := Next(rt.known, s, x), OutputStep(k, None);
      StepKeepsValid(rt.known, mid, y);
      Two(rt.known, s, x, y, [], Next(rt.known, mid, y));
      run := [x, y];
      assert run + [] == run;
    }
  }

  /** After a call and its result the rest of the turn is rounds `calls + 1` to 3. */
  lemma DrivesOn(s: State, k: nat, rt: Runtime, mid: State, end: State)
    requires Valid(s) && k < |s.turns| && s.turns[k].progress.AtModel?
    requires var reply := rt.complete(s.heap[s.turns[k].place]);
             reply.Some? && reply.value.Call? && ToolOutput(rt, reply.value.tool, reply.value.args).Some?
    requires var (t, call) := (s.turns[k], rt.complete(s.heap[s.turns[k].place]).value);
             var h := s.heap[t.place] + [ToolCall(call.id, call.tool, call.args)]
                      + [ToolResult(call.id, call.tool, ToolOutput(rt, call.tool, call.args).value)];
             mid == NextRound(s.(heap := s.heap[t.place := h]), k, t.(calls := t.calls + 1))
    requires if mid.turns[k].progress.AtModel? then Drives(mid, k, rt, end) else end == mid
    ensures Drives(s, k, rt, end)
  {
    hide ToolOutput;
    var t, call := s.turns[k], rt.complete(s.heap[s.turns[k].place]).value;
    var h := s.heap[t.place] + [ToolCall(call.id, call.tool, call.args)]
             + [ToolResult(call.id, call.tool, ToolOutput(rt, call.tool, call.args).value)];
    assert Rounds(s.heap[t.place], rt, t.calls) == Rounds(h, rt, t.calls + 1);
    if t.calls + 1 >= MAX_ROUNDS {
      assert Rounds(h, rt, t.calls + 1) == (h, Some(GIVE_UP));
    } else {
      assert mid.heap[t.place] == h;
      var x := Rounds(h, rt, t.calls + 1).0;
      assert s.heap[t.place := h][t.place := x] == s.heap[t.place := x];
    }
  }

  /** A turn waiting for the model that nothing overlaps does what `Rounds` says. */
  lemma {:induction false} DriveRounds(s: State, k: nat, rt: Runtime) returns (run: seq<Step>)
    requires Valid(s) && k < |s.turns| && s.turns[k].progress.AtModel?
    ensures StepsOf(k, run) && Possible(rt.known, s, run) && Drives(s, k, rt, Run(rt.known, s, run))
    decreases MAX_ROUNDS - s.turns[k].calls
  {
    var t, reply := s.turns[k], rt.complete(s.heap[s.turns[k].place]);
    if reply.None? || reply.value.Text? || ToolOutput(rt, reply.value.tool, reply.value.args).None? {
      run := LastRound(s, k, rt);
    } else {
      var end;
      if reply.value.tool in rt.known {
        run, end := CallAndResult(s, k, rt);
      } else {
        run, end := UnknownCall(s, k, rt);
      }
      if t.calls + 1 >= MAX_ROUNDS {
        DrivesOn(s, k, rt, end, end);
      } else {
        hide Next, Possible, Run, Valid, Drives;
        var more := DriveRounds(end, k, rt);
        RunOfParts(rt.known, s, run, more);
        run := run + more;
        DrivesOn(s, k, rt, end, Run(rt.known, s, run));
      }
    }
  }

  /** A whole turn that nothing overlaps leaves the stored histories, and replies, as `Chat` says. */
  lemma TurnAlone(s: State, key: string, message: string, rt: Runtime) returns (run: seq<Step>)
    requires Valid(s) && Apart(s)
    ensures Possible(rt.known, s, [StartStep(key, message)] + run) && StepsOf(|s.turns|, run)
    ensures var (end, reply) := (Run(rt.known, s, [StartStep(key, message)] + run), ReplyOf(View(s), key, message, rt));
            && |end.turns| == |s.turns| + 1
            && (reply.Some? ==> end.turns[|s.turns|].progress == Returned(reply.value))
            && (reply.None? ==> end.turns[|s.turns|].progress.FailedAtModel? || end.turns[|s.turns|].progress.FailedAtTool?)
            && View(end) == Stored(View(s), key, message, rt)
  {
    RunStarts(rt.known, s, StartStep(key, message), []);
    var n, k := Next(rt.known, s, StartStep(key, message)), |s.turns|;
    run := DriveRounds(n, k, rt);
    RunStarts(rt.known, s, StartStep(key, message), run);
    var end := Run(rt.known, n, run);
    TurnAloneStores(s, key, message, rt, n, end);
  }

  /** The turn just begun: what its array holds. */
  lemma BegunTurn(s: State, key: string, message: string, n: State)
    requires Valid(s) && n == Start(s, key, message)
    ensures var a := if key in s.conversations then s.conversations[key] else |s.heap|;
            && |n.turns| == |s.turns| + 1 && n.turns[|s.turns|] == TurnState(key, a, 0, AtModel)
            && n.conversations == s.conversations && a < |n.heap|
            && n.heap[a] == (if key in s.conversations then s.heap[a] else []) + [User(message)]
            && (forall b :: 0 <= b < |s.heap| && b != a ==> b < |n.heap| && n.heap[b] == s.heap[b])
  {
  }

  lemma TurnAloneStores(s: State, key: string, message: string, rt: Runtime, n: State, end: State)
    requires Valid(s) && Apart(s) && n == Next(rt.known, s, StartStep(key, message)) && Valid(n) && Valid(end)
    requires |s.turns| < |n.turns| && n.turns[|s.turns|].place < |n.heap| && Drives(n, |s.turns|, rt, end)
    ensures View(end) == Stored(View(s), key, message, rt)
    ensures var reply := ReplyOf(View(s), key, message, rt);
            && (reply.Some? ==> end.turns[|s.turns|].progress == Returned(reply.value))
            && (reply.None? ==> end.turns[|s.turns|].progress.FailedAtModel? || end.turns[|s.turns|].progress.FailedAtTool?)
  {
    BegunTurn(s, key, message, n);
    var a := n.turns[|s.turns|].place;
    var (history, reply) := Rounds(n.heap[a], rt, 0);
    assert (if key in View(s) then View(s)[key] else []) + [User(message)] == n.heap[a];
    StoredIs(View(s), key, message, rt);
    hide Rounds, Next, Start, Stored, ReplyOf, View;
    ViewAfter(s, end, key, a, reply.Some?, history);
  }

  /** The stored histories after one array, stored for the key or for none, has changed and perhaps been stored. */
  lemma ViewAfter(s: State, end: State, key: string, a: nat, stored: bool, history: History)
    requires Valid(s) && Apart(s) && Valid(end) && |s.heap| <= |end.heap| && a < |end.heap| && end.heap[a] == history
    requires a == if key in s.conversations then s.conversations[key] else |s.heap|
    requires forall b :: 0 <= b < |s.heap| && b != a ==> end.heap[b] == s.heap[b]
    requires end.conversations == if stored then s.conversations[key := a] else s.conversations
    ensures key in View(s) <==> key in s.conversations
    ensures View(end) == if key in s.conversations || stored then View(s)[key := history] else View(s)
  {
  }

  /** Visits one after another are a run of the machine, and leave stored what `AfterVisits` says. */
  lemma {:induction false} VisitsOneByOne(known: set<string>, visits: seq<Visit>) returns (run: seq<Step>)
    requires forall n :: 0 <= n < |visits| ==> visits[n].rt.known == known
    ensures Possible(known, INITIAL, run) && Apart(Run(known, INITIAL, run))
    ensures View(Run(known, INITIAL, run)) == AfterVisits(visits)
    decreases |visits|
  {
    if visits == [] {
      run := [];
    } else {
      var v := visits[|visits| - 1];
      var before := VisitsOneByOne(known, visits[..|visits| - 1]);
      var s := Run(known, INITIAL, before);
      var key := Key(v.conversationId, v.personaId);
      var turn := TurnAlone(s, key, v.message, v.rt);
      hide Run, Possible, Apart, Key, Stored, View;
      run := before + ([StartStep(key, v.message)] + turn);
      RunOfParts(known, INITIAL, before, [StartStep(key, v.message)] + turn);
      RunKeepsApart(known, s, [StartStep(key, v.message)] + turn);
    }
  }
}
