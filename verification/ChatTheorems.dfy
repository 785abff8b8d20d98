/** What chat histories look like when turns come one after another, and exactly when such a turn spoils one. */
module ChatTheorems {
  import opened Chat
  import opened Common

  // ---- The shape of a history ---------------------------------------------------------------------

  predicate IsPair(call: Message, result: Message) {
    call.ToolCall? && result.ToolResult? && call.id == result.id && call.tool == result.tool
  }

  /** What follows a user's message: pairs of a call and its result, ended by the assistant's text or by having
      used up the rounds. */
  predicate Finished(t: History, rounds: nat) {
    if rounds == 0 then t == []
    else (|t| == 1 && t[0].AssistantText?) || (|t| >= 2 && IsPair(t[0], t[1]) && Finished(t[2..], rounds - 1))
  }

  predicate IsTurn(t: History) {
    t != [] && t[0].User? && Finished(t[1..], MAX_ROUNDS)
  }

  function LastUser(h: History): (i: int)
    ensures -1 <= i < |h| && (i >= 0 ==> h[i].User?)
    ensures forall j :: i < j < |h| ==> !h[j].User?
  {
    if h == [] then -1 else if h[|h| - 1].User? then |h| - 1 else LastUser(h[..|h| - 1])
  }

  /** A history is turn after turn. */
  predicate WellFormed(h: History)
    decreases |h|
  {
    h == [] || (LastUser(h) >= 0 && IsTurn(h[LastUser(h)..]) && WellFormed(h[..LastUser(h)]))
  }

  ghost predicate NoUser(t: History) {
    forall i :: 0 <= i < |t| ==> !t[i].User?
  }

  lemma {:induction false} RoundsFinishIff(h: History, rt: Runtime, i: nat) returns (t: History)
    requires i <= MAX_ROUNDS
    ensures Rounds(h, rt, i).0 == h + t && NoUser(t)
    ensures Rounds(h, rt, i).1.Some? <==> Finished(t, MAX_ROUNDS - i)
    decreases MAX_ROUNDS - i
  {
    hide ToolOutput;
    t := [];
    if i < MAX_ROUNDS && rt.complete(h).Some? {
      match rt.complete(h).value {
        case Text(content) => t := [AssistantText(content)];
        case Call(id, tool, args) =>
          var call := ToolCall(id, tool, args);
          var output := ToolOutput(rt, tool, args);
          t := [call];
          if output.Some? {
            var result := ToolResult(id, tool, output.value);
            var rest := RoundsFinishIff(h + [call] + [result], rt, i + 1);
            t := [call, result] + rest;
            assert t[2..] == rest;
            assert h + t == h + [call] + [result] + rest;
          }
      }
    }
  }

  lemma {:induction false} LastUserIs(h: History, user: Message, t: History)
    requires user.User? && NoUser(t)
    ensures LastUser(h + [user] + t) == |h|
  {
    var all := h + [user] + t;
    if t == [] {
      assert all[|all| - 1] == user;
    } else {
      var n := |t| - 1;
      assert all[|all| - 1] == t[n];
      assert all[..|all| - 1] == h + [user] + t[..n];
      LastUserIs(h, user, t[..n]);
    }
  }

  // ---- What a turn says -----------------------------------------------------------------------------

  /** Each message after the user's is what happened: texts and calls are what the model answered to all before them, a
      result is what the tool made of the call before it. */
  ghost predicate IsTrue(h: History, t: History, rt: Runtime) {
    forall j {:trigger t[j]} :: 0 <= j < |t| ==>
      match t[j]
      case User(_) => false
      case AssistantText(content) => rt.complete(h + t[..j]) == Some(Text(content))
      case ToolCall(id, tool, args) => rt.complete(h + t[..j]) == Some(Call(id, tool, args))
      case ToolResult(id, tool, content) =>
        j > 0 && t[j - 1].ToolCall? && t[j - 1].id == id && t[j - 1].tool == tool
        && ToolOutput(rt, tool, t[j - 1].args) == Some(content)
  }

  lemma PairFirst(h: History, call: Message, result: Message, rest: History, rt: Runtime)
    requires call.ToolCall? && rt.complete(h) == Some(Call(call.id, call.tool, call.args))
    requires result.ToolResult? && result.id == call.id && result.tool == call.tool
    requires ToolOutput(rt, call.tool, call.args) == Some(result.content)
    requires IsTrue(h + [call] + [result], rest, rt)
    ensures IsTrue(h, [call, result] + rest, rt)
  {
    hide ToolOutput;
    var t := [call, result] + rest;
    forall j {:trigger t[j]} | 0 <= j < |t| && j >= 2 ensures t[j] == rest[j - 2] && h + t[..j] == (h + [call] + [result]) + rest[..j - 2] {
    }
    assert h + t[..0] == h;
  }

  lemma {:induction false} RoundsAreTrue(h: History, rt: Runtime, i: nat) returns (t: History)
    requires i <= MAX_ROUNDS
    ensures Rounds(h, rt, i).0 == h + t && IsTrue(h, t, rt)
    ensures match Rounds(h, rt, i).1
            case Some(reply) =>
              (t != [] && t[|t| - 1] == AssistantText(reply)) || (reply == GIVE_UP && |t| == 2 * (MAX_ROUNDS - i))
            case None =>
              if t != [] && t[|t| - 1].ToolCall? then ToolOutput(rt, t[|t| - 1].tool, t[|t| - 1].args) == None
              else rt.complete(h + t) == None
    decreases MAX_ROUNDS - i
  {
    hide ToolOutput, IsTrue;
    t := [];
    assert h + t == h;
    assert IsTrue(h, [], rt) by { NothingIsTrue(h, rt); }
    if i < MAX_ROUNDS && rt.complete(h).Some? {
      match rt.complete(h).value {
        case Text(content) =>
          t := [AssistantText(content)];
          OneIsTrue(h, t[0], rt);
        case Call(id, tool, args) =>
          var call := ToolCall(id, tool, args);
          var output := ToolOutput(rt, tool, args);
          t := [call];
          OneIsTrue(h, call, rt);
          if output.Some? {
            var result := ToolResult(id, tool, output.value);
            var rest := RoundsAreTrue(h + [call] + [result], rt, i + 1);
            t := [call, result] + rest;
            PairFirst(h, call, result, rest, rt);
            assert h + t == h + [call] + [result] + rest;
          }
      }
    }
  }

  lemma NothingIsTrue(h: History, rt: Runtime)
    ensures IsTrue(h, [], rt)
  {
  }

  lemma OneIsTrue(h: History, m: Message, rt: Runtime)
    requires match m
             case AssistantText(content) => rt.complete(h) == Some(Text(content))
             case ToolCall(id, tool, args) => rt.complete(h) == Some(Call(id, tool, args))
             case _ => false
    ensures IsTrue(h, [m], rt)
  {
    assert h + [m][..0] == h;
  }

  /** A turn that nothing overlaps pushes the user's message and then only what happened; its reply is the text the
      model ended with, or the apology after four calls; it throws exactly where the model or a tool did. */
  lemma TurnSaysWhatHappened(h: History, message: string, rt: Runtime) returns (t: History)
    ensures Turn(h, message, rt).0 == h + [User(message)] + t && IsTrue(h + [User(message)], t, rt)
    ensures match Turn(h, message, rt).1
            case Some(reply) => (t != [] && t[|t| - 1] == AssistantText(reply)) || (reply == GIVE_UP && |t| == 8)
            case None =>
              if t != [] && t[|t| - 1].ToolCall? then ToolOutput(rt, t[|t| - 1].tool, t[|t| - 1].args) == None
              else rt.complete(h + [User(message)] + t) == None
  {
    hide Rounds, ToolOutput, IsTrue;
    t := RoundsAreTrue(h + [User(message)], rt, 0);
  }

  /** A turn on a well-formed history leaves it well formed exactly when the turn returned. */
  lemma TurnKeepsShapeIff(h: History, message: string, rt: Runtime)
    requires WellFormed(h)
    ensures WellFormed(Turn(h, message, rt).0) <==> Turn(h, message, rt).1.Some?
  {
    hide Rounds, LastUser, Finished, NoUser;
    var user := User(message);
    var t := RoundsFinishIff(h + [user], rt, 0);
    var all := h + [user] + t;
    LastUserIs(h, user, t);
    assert all[|h|..] == [user] + t && ([user] + t)[1..] == t && all[..|h|] == h;
    assert WellFormed(all) <==> IsTurn([user] + t);
  }

  ghost predicate AllWellFormed(conversations: map<string, History>) {
    forall k :: k in conversations ==> WellFormed(conversations[k])
  }

  /** The histories stay well formed unless a turn throws on a history already stored, which then keeps the
      unfinished turn; a throw in a new conversation leaves no trace. No other history changes. */
  lemma StoredKeepsShapesIff(conversations: map<string, History>, key: string, message: string, rt: Runtime)
    requires AllWellFormed(conversations)
    ensures var (after, reply) := (Stored(conversations, key, message, rt), ReplyOf(conversations, key, message, rt));
            && (AllWellFormed(after) <==> reply.Some? || key !in conversations)
            && (reply.None? && key !in conversations ==> after == conversations)
            && after - {key} == conversations - {key}
  {
    hide Turn, WellFormed;
    var history := if key in conversations then conversations[key] else [];
    assert WellFormed([]) by { EmptyIsWellFormed(); }
    TurnKeepsShapeIff(history, message, rt);
    var after := Stored(conversations, key, message, rt);
    if key in conversations {
      assert key in after;
    }
  }

  lemma EmptyIsWellFormed()
    ensures WellFormed([])
  {
  }

  datatype Visit = Visit(conversationId: string, personaId: string, message: string, rt: Runtime)

  function AfterVisits(visits: seq<Visit>): map<string, History> {
    if visits == [] then map[]
    else
      var v := visits[|visits| - 1];
      Stored(AfterVisits(visits[..|visits| - 1]), Key(v.conversationId, v.personaId), v.message, v.rt)
  }

  // ---- Pairs --------------------------------------------------------------------------------------------

  /** Every call is directly followed by its result, and every result directly follows its call. */
  ghost predicate Paired(h: History) {
    && (forall i :: 0 <= i < |h| && h[i].ToolCall? ==> i + 1 < |h| && IsPair(h[i], h[i + 1]))
    && (forall i :: 0 <= i < |h| && h[i].ToolResult? ==> i > 0 && IsPair(h[i - 1], h[i]))
  }

  function Calls(h: History): nat {
    if h == [] then 0 else (if h[0].ToolCall? then 1 else 0) + Calls(h[1..])
  }

  lemma {:induction false} FinishedIsPaired(t: History, rounds: nat)
    requires Finished(t, rounds)
    ensures Paired(t) && Calls(t) <= rounds
  {
    if rounds > 0 && !(|t| == 1 && t[0].AssistantText?) {
      FinishedIsPaired(t[2..], rounds - 1);
      var rest := t[2..];
      assert t == [t[0], t[1]] + rest;
      assert t[1..][1..] == rest;
      forall i | 0 <= i < |t| && t[i].ToolCall? ensures i + 1 < |t| && IsPair(t[i], t[i + 1]) {
        if i >= 2 {
          assert rest[i - 2] == t[i];
        }
      }
      forall i | 0 <= i < |t| && t[i].ToolResult? ensures i > 0 && IsPair(t[i - 1], t[i]) {
        if i >= 2 {
          assert rest[i - 2] == t[i];
        }
      }
    }
  }

  lemma PairedParts(a: History, b: History)
    requires Paired(a) && Paired(b)
    ensures Paired(a + b)
  {
    var h := a + b;
    forall i | 0 <= i < |h| && h[i].ToolResult? ensures i > 0 && IsPair(h[i - 1], h[i]) {
      assert i >= |a| ==> h[i] == b[i - |a|];
    }
    forall i | 0 <= i < |h| && h[i].ToolCall? ensures i + 1 < |h| && IsPair(h[i], h[i + 1]) {
      assert i >= |a| ==> h[i] == b[i - |a|];
    }
  }

  lemma TurnIsPaired(t: History)
    requires IsTurn(t)
    ensures Paired(t) && Calls(t) <= MAX_ROUNDS
  {
    var (user, rest) := (t[0], t[1..]);
    FinishedIsPaired(rest, MAX_ROUNDS);
    assert Paired([user]);
    PairedParts([user], rest);
    assert t == [user] + rest;
  }

  /** In a well-formed history calls and results come in adjacent pairs of one id, at most four per user message. */
  lemma {:induction false} WellFormedIsPaired(h: History)
    requires WellFormed(h)
    ensures Paired(h)
    ensures h != [] ==> Calls(h[LastUser(h)..]) <= MAX_ROUNDS
    decreases |h|
  {
    hide Paired, IsTurn, Calls;
    if h == [] {
      NothingIsPaired();
    } else {
      var i := LastUser(h);
      WellFormedIsPaired(h[..i]);
      TurnIsPaired(h[i..]);
      PairedParts(h[..i], h[i..]);
      assert h == h[..i] + h[i..];
    }
  }

  lemma NothingIsPaired()
    ensures Paired([])
  {
  }

  /** Over any visits one after another that all return, in whatever conversations and as whatever personas, every stored history is
      turns of paired calls. */
  lemma {:induction false} ReturningVisitsKeepHistoriesPaired(visits: seq<Visit>)
    requires forall n :: 0 <= n < |visits| ==>
               var v := visits[n];
               ReplyOf(AfterVisits(visits[..n]), Key(v.conversationId, v.personaId), v.message, v.rt).Some?
    ensures AllWellFormed(AfterVisits(visits))
    ensures forall k :: k in AfterVisits(visits) ==> Paired(AfterVisits(visits)[k])
  {
    hide Stored, ReplyOf, WellFormed, Paired, Key;
    if visits != [] {
      var n := |visits| - 1;
      var v := visits[n];
      forall m | 0 <= m < n
        ensures var w := visits[..n][m];
                ReplyOf(AfterVisits(visits[..n][..m]), Key(w.conversationId, w.personaId), w.message, w.rt).Some?
      {
        assert visits[..n][..m] == visits[..m];
      }
      ReturningVisitsKeepHistoriesPaired(visits[..n]);
      StoredKeepsShapesIff(AfterVisits(visits[..n]), Key(v.conversationId, v.personaId), v.message, v.rt);
    }
    forall k | k in AfterVisits(visits) ensures Paired(AfterVisits(visits)[k]) {
      WellFormedIsPaired(AfterVisits(visits)[k]);
    }
  }
}
