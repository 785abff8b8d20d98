/** Chat turns as they overlap: each is cut at its two awaits, and turns on one stored history share its array. */
module ChatTurns {
  import opened Common
  import opened Chat

  /** Waiting for the model or for a tool, returned, or out by a throw at one of these waits. */
  datatype Progress =
    | AtModel
    | AtTool(id: string, tool: string)
    | Returned(reply: string)
    | FailedAtModel
    | FailedAtTool(id: string, tool: string)

  /** A turn holds on to the array it started with, named by its place among all arrays; `calls` counts the tool calls it has pushed. */
  datatype TurnState = TurnState(key: string, place: nat, calls: nat, progress: Progress)

  /** Every array ever made, the one stored for each key, and every turn. */
  datatype State = State(heap: seq<History>, conversations: map<string, nat>, turns: seq<TurnState>)

  const INITIAL := State([], map[], [])

  ghost predicate Valid(s: State) {
    && (forall key :: key in s.conversations ==> s.conversations[key] < |s.heap|)
    && (forall k :: 0 <= k < |s.turns| ==> s.turns[k].place < |s.heap|)
    && (forall k :: 0 <= k < |s.turns| ==> s.turns[k].calls <= MAX_ROUNDS)
    && (forall k :: 0 <= k < |s.turns| && s.turns[k].progress.AtModel? ==> s.turns[k].calls < MAX_ROUNDS)
  }

  datatype Step =
    | StartStep(key: string, message: string)
    | ReplyStep(turn: nat, reply: Option<Reply>)
    | OutputStep(turn: nat, output: Option<string>)

  predicate Enabled(s: State, step: Step) {
    match step
    case StartStep(_, _) => true
    case ReplyStep(k, _) => k < |s.turns| && s.turns[k].progress.AtModel?
    case OutputStep(k, _) => k < |s.turns| && s.turns[k].progress.AtTool?
  }

  function Push(s: State, place: nat, messages: History): State
    requires place < |s.heap|
  {
    s.(heap := s.heap[place := s.heap[place] + messages])
  }

  function SetTurn(s: State, k: nat, t: TurnState): State
    requires k < |s.turns|
  {
    s.(turns := s.turns[k := t])
  }

  /** `conversations.set(key, history)`, then the answer. */
  function Return(s: State, k: nat, t: TurnState, reply: string): State
    requires k < |s.turns|
  {
    SetTurn(s, k, t.(progress := Returned(reply))).(conversations := s.conversations[t.key := t.place])
  }

  /** The next round, or the end of the loop. */
  function NextRound(s: State, k: nat, t: TurnState): State
    requires k < |s.turns|
  {
    if t.calls >= MAX_ROUNDS then Return(s, k, t, GIVE_UP) else SetTurn(s, k, t.(progress := AtModel))
  }

  /** The array of the key, or a new one that is not stored yet; up to the await of the model. */
  function Start(s: State, key: string, message: string): State
    requires Valid(s)
  {
    if key in s.conversations then
      var place := s.conversations[key];
      Push(s, place, [User(message)]).(turns := s.turns + [TurnState(key, place, 0, AtModel)])
    else
      s.(heap := s.heap + [[User(message)]], turns := s.turns + [TurnState(key, |s.heap|, 0, AtModel)])
  }

  /** What a call pushes at once: the call, and the answer that there is no such tool. */
  function CallMessages(known: set<string>, id: string, tool: string, args: string): History {
    if tool in known then [ToolCall(id, tool, args)] else [ToolCall(id, tool, args), ToolResult(id, tool, UnknownTool(tool))]
  }

  /** The model has answered or thrown. */
  function Resume(known: set<string>, s: State, k: nat, reply: Option<Reply>): State
    requires Valid(s) && Enabled(s, ReplyStep(k, reply))
  {
    var t := s.turns[k];
    match reply
    case None => SetTurn(s, k, t.(progress := FailedAtModel))
    case Some(Text(content)) => Return(Push(s, t.place, [AssistantText(content)]), k, t, content)
    case Some(Call(id, tool, args)) =>
      var asked := Push(s, t.place, CallMessages(known, id, tool, args));
      if tool in known then SetTurn(asked, k, t.(calls := t.calls + 1, progress := AtTool(id, tool)))
      else NextRound(asked, k, t.(calls := t.calls + 1))
  }

  /** The tool has returned or thrown. */
  function Finish(s: State, k: nat, output: Option<string>): State
    requires Valid(s) && Enabled(s, OutputStep(k, output))
  {
    var t := s.turns[k];
    match output
    case None => SetTurn(s, k, t.(progress := FailedAtTool(t.progress.id, t.progress.tool)))
    case Some(content) => NextRound(Push(s, t.place, [ToolResult(t.progress.id, t.progress.tool, content)]), k, t)
  }

  function Next(known: set<string>, s: State, step: Step): State
    requires Valid(s) && Enabled(s, step)
  {
    match step
    case StartStep(key, message) => Start(s, key, message)
    case ReplyStep(k, reply) => Resume(known, s, k, reply)
    case OutputStep(k, output) => Finish(s, k, output)
  }

  lemma PushKeepsValid(s: State, place: nat, messages: History)
    requires Valid(s) && place < |s.heap|
    ensures Valid(Push(s, place, messages))
  {
  }

  lemma SetTurnKeepsValid(s: State, k: nat, t: TurnState)
    requires Valid(s) && k < |s.turns| && t.place < |s.heap| && t.calls <= MAX_ROUNDS
    requires t.progress.AtModel? ==> t.calls < MAX_ROUNDS
    ensures Valid(SetTurn(s, k, t))
    ensures Valid(SetTurn(s, k, t).(conversations := s.conversations[t.key := t.place]))
  {
  }

  lemma StepKeepsValid(known: set<string>, s: State, step: Step)
    requires Valid(s) && Enabled(s, step)
    ensures Valid(Next(known, s, step))
  {
    match step {
      case StartStep(_, _) =>
      case ReplyStep(k, reply) =>
        var t := s.turns[k];
        if reply.Some? {
          var pushed := match reply.value
                        case Text(content) => [AssistantText(content)]
                        case Call(id, tool, args) => CallMessages(known, id, tool, args);
          PushKeepsValid(s, t.place, pushed);
          hide Valid;
          var t' := if reply.value.Text? then t.(progress := Returned(reply.value.content))
                    else if reply.value.tool in known then
                      t.(calls := t.calls + 1, progress := AtTool(reply.value.id, reply.value.tool))
                    else if t.calls + 1 >= MAX_ROUNDS then t.(calls := t.calls + 1, progress := Returned(GIVE_UP))
                    else t.(calls := t.calls + 1, progress := AtModel);
          SetTurnKeepsValid(Push(s, t.place, pushed), k, t');
        }
      case OutputStep(k, output) =>
        var t := s.turns[k];
        if output.Some? {
          var pushed := [ToolResult(t.progress.id, t.progress.tool, output.value)];
          PushKeepsValid(s, t.place, pushed);
          hide Valid;
          SetTurnKeepsValid(Push(s, t.place, pushed), k,
                            t.(progress := if t.calls >= MAX_ROUNDS then Returned(GIVE_UP) else AtModel));
        }
    }
  }

  ghost predicate Possible(known: set<string>, s: State, run: seq<Step>)
    requires Valid(s)
    decreases |run|
  {
    run == [] ||
    (Enabled(s, run[0]) && (StepKeepsValid(known, s, run[0]); Possible(known, Next(known, s, run[0]), run[1..])))
  }

  ghost function Run(known: set<string>, s: State, run: seq<Step>): (r: State)
    requires Valid(s) && Possible(known, s, run)
    ensures Valid(r)
    decreases |run|
  {
    if run == [] then s
    else
      StepKeepsValid(known, s, run[0]);
      Run(known, Next(known, s, run[0]), run[1..])
  }

  /** The process: its arrays, its map and the turns in flight. */
  class ChatServer {
    const known: set<string>
    var heap: seq<History>
    var conversations: map<string, nat>
    var turns: seq<TurnState>

    ghost function Contents(): State
      reads this
    {
      State(heap, conversations, turns)
    }

    constructor (known: set<string>)
      ensures Contents() == INITIAL && this.known == known
    {
      this.known := known;
      heap, conversations, turns := [], map[], [];
    }

    method PushOnto(place: nat, message: Message)
      requires place < |heap|
      modifies this`heap
      ensures heap == old(heap)[place := old(heap[place]) + [message]]
    {
      heap := heap[place := heap[place] + [message]];
    }

    method GoOn(k: nat, t: TurnState)
      requires k < |turns|
      modifies this`turns, this`conversations
      ensures Contents() == NextRound(old(Contents()), k, t)
    {
      if t.calls >= MAX_ROUNDS {
        conversations := conversations[t.key := t.place];
        turns := turns[k := t.(progress := Returned(GIVE_UP))];
      } else {
        turns := turns[k := t.(progress := AtModel)];
      }
    }

    /** A new turn, up to the await of the model. */
    method StartTurn(key: string, message: string) returns (k: nat)
      requires Valid(Contents())
      modifies this
      ensures k == |old(turns)| && Contents() == Next(known, old(Contents()), StartStep(key, message))
    {
      k := |turns|;
      var place;
      if key in conversations {
        place := conversations[key];
      } else {
        place := |heap|;
        heap := heap + [[]];
        assert (heap[|heap| - 1] + [User(message)]) == [User(message)];
      }
      PushOnto(place, User(message));
      assert key !in conversations ==> heap == old(heap) + [[User(message)]];
      turns := turns + [TurnState(key, place, 0, AtModel)];
    }

    /** The turn goes on with what the model answered, up to its next await. */
    method ResumeTurn(k: nat, reply: Option<Reply>)
      requires Valid(Contents()) && Enabled(Contents(), ReplyStep(k, reply))
      modifies this
      ensures Contents() == Next(known, old(Contents()), ReplyStep(k, reply))
    {
      var t := turns[k];
      if reply.None? {
        turns := turns[k := t.(progress := FailedAtModel)];
        return;
      }
      if reply.value.Text? {
        PushOnto(t.place, AssistantText(reply.value.content));
        conversations := conversations[t.key := t.place];
        turns := turns[k := t.(progress := Returned(reply.value.content))];
        return;
      }
      var Call(id, tool, args) := reply.value;
      PushOnto(t.place, ToolCall(id, tool, args));
      if tool in known {
        turns := turns[k := t.(calls := t.calls + 1, progress := AtTool(id, tool))];
      } else {
        PushOnto(t.place, ToolResult(id, tool, UnknownTool(tool)));
        assert heap[t.place] == old(heap[t.place]) + CallMessages(known, id, tool, args);
        assert heap == old(heap)[t.place := heap[t.place]];
        GoOn(k, t.(calls := t.calls + 1));
      }
    }

    /** The turn goes on with what the tool returned, up to its next await. */
    method FinishCall(k: nat, output: Option<string>)
      requires Valid(Contents()) && Enabled(Contents(), OutputStep(k, output))
      modifies this
      ensures Contents() == Next(known, old(Contents()), OutputStep(k, output))
    {
      var t := turns[k];
      if output.None? {
        turns := turns[k := t.(progress := FailedAtTool(t.progress.id, t.progress.tool))];
        return;
      }
      PushOnto(t.place, ToolResult(t.progress.id, t.progress.tool, output.value));
      GoOn(k, t);
    }
  }
}
