/** The concierge's chat: which history a turn belongs to, and turns that nothing overlaps (`ChatTurns` has those that overlap). */
module Chat {
  import opened Common
  import Personas

  // ---- Keys --------------------------------------------------------------------------------

  function Key(conversationId: string, personaId: string): string {
    conversationId + "::" + personaId
  }

  /** Whatever the conversation ids contain, two validated personas or two conversations never share a history. */
  lemma KeyIsInjective(c1: string, p1: string, c2: string, p2: string)
    requires Personas.IsPersonaId(p1) && Personas.IsPersonaId(p2) && Key(c1, p1) == Key(c2, p2)
    ensures c1 == c2 && p1 == p2
  {
    var k := Key(c1, p1);
    if |p1| < |p2| {
      SeparatorBeforePersona(c1, p1);
      PersonaHasNoColon(c2, p2, |k| - |p1| - 1);
    } else if |p2| < |p1| {
      SeparatorBeforePersona(c2, p2);
      PersonaHasNoColon(c1, p1, |k| - |p2| - 1);
    } else {
      assert k[..|c1|] == c1 && k[..|c2|] == c2;
      assert k[|c1| + 2..] == p1 && k[|c2| + 2..] == p2;
    }
  }

  lemma SeparatorBeforePersona(c: string, p: string)
    ensures var k := Key(c, p); k[|k| - |p| - 1] == ':'
  {
  }

  lemma PersonaHasNoColon(c: string, p: string, i: nat)
    requires Personas.IsPersonaId(p) && |c| + 2 <= i < |Key(c, p)|
    ensures Key(c, p)[i] != ':'
  {
    assert Key(c, p)[i] == p[i - |c| - 2];
  }

  // ---- One turn, uninterrupted ------------------------------------------------------------------------------

  datatype Message =
    | User(content: string)
    | AssistantText(content: string)
    | ToolCall(id: string, tool: string, args: string)
    | ToolResult(id: string, tool: string, content: string)

  type History = seq<Message>

  datatype Reply = Text(content: string) | Call(id: string, tool: string, args: string)

  /** The language model, which may throw, and the tools, of which a known one may throw. */
  datatype Runtime = Runtime(complete: History -> Option<Reply>, known: set<string>, run: (string, string) -> Option<string>)

  const MAX_ROUNDS := 4

  const GIVE_UP := "Sorry, I wasn't able to complete that — could you rephrase?"

  function UnknownTool(tool: string): string {
    "{\"error\":\"Unknown tool: " + tool + "\"}"
  }

  function ToolOutput(rt: Runtime, tool: string, args: string): Option<string> {
    if tool in rt.known then rt.run(tool, args) else Some(UnknownTool(tool))
  }

  /** Rounds `i` to 3 of a turn: what the history has become, and the reply unless something threw. */
  function Rounds(history: History, rt: Runtime, i: nat): (History, Option<string>)
    decreases MAX_ROUNDS - i
  {
    if i >= MAX_ROUNDS then (history, Some(GIVE_UP))
    else
      match rt.complete(history)
      case None => (history, None)
      case Some(Text(content)) => (history + [AssistantText(content)], Some(content))
      case Some(Call(id, tool, args)) =>
        var asked := history + [ToolCall(id, tool, args)];
        match ToolOutput(rt, tool, args)
        case None => (asked, None)
        case Some(output) => Rounds(asked + [ToolResult(id, tool, output)], rt, i + 1)
  }

  function Turn(history: History, message: string, rt: Runtime): (History, Option<string>) {
    Rounds(history + [User(message)], rt, 0)
  }

  /** A stored history is pushed to in place, thrown turn or not; a new one is stored when its turn returns. */
  function Stored(conversations: map<string, History>, key: string, message: string, rt: Runtime): map<string, History> {
    var history := if key in conversations then conversations[key] else [];
    var (history', reply) := Turn(history, message, rt);
    if key in conversations || reply.Some? then conversations[key := history'] else conversations
  }

  function ReplyOf(conversations: map<string, History>, key: string, message: string, rt: Runtime): Option<string> {
    Turn(if key in conversations then conversations[key] else [], message, rt).1
  }

  lemma StoredIs(conversations: map<string, History>, key: string, message: string, rt: Runtime)
    ensures var history := if key in conversations then conversations[key] else [];
            var (history', reply) := Rounds(history + [User(message)], rt, 0);
            && ReplyOf(conversations, key, message, rt) == reply
            && Stored(conversations, key, message, rt)
               == if key in conversations || reply.Some? then conversations[key := history'] else conversations
  {
  }

  class Conversation {
    var messages: History

    constructor ()
      ensures messages == []
    {
      messages := [];
    }

    method Push(message: Message)
      modifies this
      ensures messages == old(messages) + [message]
    {
      messages := messages + [message];
    }
  }

  class Conversations {
    var byKey: map<string, Conversation>
    ghost var histories: map<string, History>

    /** Each key has an array of its own, holding its history. */
    ghost predicate Valid()
      reads this, byKey.Values
    {
      && (forall k :: k in byKey ==> k in histories && byKey[k].messages == histories[k])
      && (forall k :: k in histories ==> k in byKey)
      && (forall a, b :: a in byKey && b in byKey && a != b ==> byKey[a] != byKey[b])
    }

    constructor ()
      ensures Valid() && histories == map[]
    {
      byKey, histories := map[], map[];
    }

    /** The message and the loop of a turn, pushing onto the array it was given. */
    static method Exchange(history: Conversation, message: string, rt: Runtime) returns (reply: Option<string>)
      modifies history
      ensures (history.messages, reply) == Rounds(old(history.messages) + [User(message)], rt, 0)
    {
      history.Push(User(message));
      for i := 0 to MAX_ROUNDS
        invariant Rounds(history.messages, rt, i) == Rounds(old(history.messages) + [User(message)], rt, 0)
      {
        var response := rt.complete(history.messages);
        if response.None? {
          return None;
        }
        if response.value.Text? {
          history.Push(AssistantText(response.value.content));
          return Some(response.value.content);
        }
        var Call(id, tool, args) := response.value;
        history.Push(ToolCall(id, tool, args));
        var output := ToolOutput(rt, tool, args);
        if output.None? {
          return None;
        }
        history.Push(ToolResult(id, tool, output.value));
      }
      reply := Some(GIVE_UP);
    }

    method RunChatTurn(conversationId: string, personaId: string, message: string, rt: Runtime) returns (reply: Option<string>)
      requires Valid()
      modifies this, byKey.Values
      ensures Valid()
      ensures histories == Stored(old(histories), Key(conversationId, personaId), message, rt)
      ensures reply == ReplyOf(old(histories), Key(conversationId, personaId), message, rt)
    {
      hide Rounds, Key, Turn, Stored, ReplyOf;
      var key := Key(conversationId, personaId);
      StoredIs(histories, key, message, rt);
      var history: Conversation;
      if key in byKey {
        history := byKey[key];
      } else {
        history := new Conversation();
      }
      reply := Exchange(history, message, rt);
      if reply.Some? {
        byKey := byKey[key := history];
      }
      if key in byKey {
        histories := histories[key := history.messages];
      }
    }
  }
}
