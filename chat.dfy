/** The chat widget's message list (`components/ChatBot`): the send guards,
    the user message and its `'...'` placeholder, the history sent to the
    model, and how the reply or an apology lands in the list. The Gemini
    call is abstracted: a reply is either a text or a failure. */
module ChatBot {
  import opened Wrappers
  import opened Strings

  datatype Role = User | Assistant

  datatype Message = Message(role: Role, content: string)

  /** What the request produced: the response text, or an exception (no
      model, a failed call, a failed `text()`). */
  datatype Reply = Answered(text: string) | Failed

  const Placeholder: string := "..."
  const StartingMessage: string := "Iniciando sistema... por favor espera."
  const NoResponse: string := "No se recibió respuesta."
  const LongApology: string := "Lo siento, hubo un error técnico. Intenta de nuevo más tarde."
  const ShortApology: string := "Lo siento, hubo un error técnico."

  /** The component's state: the list, the input box, the loading flag and
      the texts of the initial prompt. */
  datatype ChatState = ChatState(
    messages: seq<Message>,
    userInput: string,
    isLoading: bool,
    initialPrompt: seq<string>
  )

  /** What is sent to the model: the history and the system instruction. */
  datatype Request = Request(history: string, systemInstruction: string)

  // ---------------------------------------------------------------------
  // The history string

  /** One history line: `User: c` or `Assistant: c`. */
  function Line(m: Message): string
  {
    (if m.role == User then "User" else "Assistant") + ": " + m.content
  }

  function Lines(msgs: seq<Message>): (lines: seq<string>)
    ensures |lines| == |msgs|
    ensures forall k :: 0 <= k < |msgs| ==> lines[k] == Line(msgs[k])
  {
    seq(|msgs|, k requires 0 <= k < |msgs| => Line(msgs[k]))
  }

  /** `historyForPrompt`: the lines joined by `\n`. */
  function HistoryForPrompt(msgs: seq<Message>): string
  {
    Join(Lines(msgs), "\n")
  }

  /** Each message adds one line to the end of the history. */
  lemma HistoryExtends(msgs: seq<Message>, m: Message)
    requires msgs != []
    ensures HistoryForPrompt(msgs + [m]) == HistoryForPrompt(msgs) + "\n" + Line(m)
  {
    assert Lines(msgs + [m]) == Lines(msgs) + [Line(m)];
    JoinAppend(Lines(msgs), [Line(m)], "\n");
  }

  /** When no message contains a line break, the history splits back into one
      line per message, from which the role and the content can be read. */
  lemma HistoryLines(msgs: seq<Message>)
    requires msgs != []
    requires forall k :: 0 <= k < |msgs| ==> '\n' !in msgs[k].content
    ensures Split(HistoryForPrompt(msgs), "\n") == Lines(msgs)
  {
    var lines := Lines(msgs);
    forall k | 0 <= k < |lines|
      ensures "\n"[0] !in lines[k]
    {
      var prefix := if msgs[k].role == User then "User" else "Assistant";
      assert lines[k] == prefix + ": " + msgs[k].content;
      assert '\n' !in prefix + ": ";
    }
    SplitJoin(lines, "\n");
  }

  // ---------------------------------------------------------------------
  // Where the reply lands

  /** `findLastIndex(msg => msg.role === 'assistant')`. */
  function LastAssistantIndex(msgs: seq<Message>): (i: int)
    ensures -1 <= i < |msgs|
    ensures i >= 0 ==> msgs[i].role == Assistant
    ensures forall j :: i < j < |msgs| ==> msgs[j].role != Assistant
  {
    if msgs == [] then -1
    else if msgs[|msgs| - 1].role == Assistant then |msgs| - 1
    else LastAssistantIndex(msgs[..|msgs| - 1])
  }

  /** The last assistant message is the `'...'` placeholder. */
  predicate AwaitsReply(msgs: seq<Message>)
  {
    var i := LastAssistantIndex(msgs);
    i != -1 && msgs[i].content == Placeholder
  }

  /** The list after a reply: the placeholder takes `replacement` in place, or,
      when there is none, a message with `appended` goes at the end. */
  function Land(msgs: seq<Message>, replacement: string, appended: string): seq<Message>
  {
    if AwaitsReply(msgs) then msgs[LastAssistantIndex(msgs) := Message(Assistant, replacement)]
    else msgs + [Message(Assistant, appended)]
  }

  /** The text shown for a successful reply. */
  function ResponseText(text: string): string
  {
    if text == "" then NoResponse else text
  }

  /** The list after the request settled. */
  function Settle(msgs: seq<Message>, reply: Reply): seq<Message>
  {
    match reply
    case Answered(text) => Land(msgs, ResponseText(text), ResponseText(text))
    case Failed => Land(msgs, LongApology, ShortApology)
  }

  /** A reply either overwrites the placeholder, leaving the length and every
      other message as they were, or adds one assistant message at the end. */
  lemma SettleTouchesOneMessage(msgs: seq<Message>, reply: Reply)
    ensures var r := Settle(msgs, reply);
      var text := if reply.Failed? then LongApology else ResponseText(reply.text);
      var extra := if reply.Failed? then ShortApology else ResponseText(reply.text);
      if AwaitsReply(msgs) then
        var i := LastAssistantIndex(msgs);
        |r| == |msgs| && r[i] == Message(Assistant, text)
        && (forall j :: 0 <= j < |msgs| && j != i ==> r[j] == msgs[j])
      else r == msgs + [Message(Assistant, extra)]
  {
  }

  /** A reply never leaves an empty assistant message behind. */
  lemma SettledTextIsNeverEmpty(msgs: seq<Message>, reply: Reply)
    ensures var r := Settle(msgs, reply);
      var i := LastAssistantIndex(r);
      i >= 0 && r[i].content != ""
  {
    var r := Settle(msgs, reply);
    if AwaitsReply(msgs) {
      var i := LastAssistantIndex(msgs);
      assert r[i].role == Assistant;
      forall j | i < j < |r| ensures r[j].role != Assistant {
        assert r[j] == msgs[j];
      }
      assert LastAssistantIndex(r) == i;
    } else {
      assert r[|r| - 1].role == Assistant;
    }
  }

  // ---------------------------------------------------------------------
  // Sending

  /** `handleSendMessage` up to the request: nothing for an empty input or
      while a reply is pending; a notice when the initial prompt has not
      arrived; otherwise the user message and the placeholder go in, the
      input is cleared and the request carries the history without the
      placeholder. */
  function Send(s: ChatState): (ChatState, Option<Request>)
  {
    if Trim(s.userInput) == "" || s.isLoading then (s, None)
    else if |s.initialPrompt| == 0 then
      (s.(messages := s.messages + [Message(Assistant, StartingMessage)]), None)
    else
      var current := s.messages + [Message(User, s.userInput)];
      (s.(messages := current + [Message(Assistant, Placeholder)], userInput := "", isLoading := true),
       Some(Request(HistoryForPrompt(current), s.initialPrompt[0])))
  }

  /** The rest of `handleSendMessage`: the reply lands and loading ends. */
  function Complete(s: ChatState, reply: Reply): ChatState
  {
    s.(messages := Settle(s.messages, reply), isLoading := false)
  }

  lemma SendGuards(s: ChatState)
    ensures Trim(s.userInput) == "" || s.isLoading ==> Send(s) == (s, None)
    ensures !(Trim(s.userInput) == "" || s.isLoading) && |s.initialPrompt| == 0 ==>
      Send(s).1 == None && Send(s).0.messages == s.messages + [Message(Assistant, StartingMessage)]
      && Send(s).0.userInput == s.userInput
    ensures Send(s).1.Some? <==> Trim(s.userInput) != "" && !s.isLoading && |s.initialPrompt| > 0
  {
  }

  /** A send followed by its own reply adds exactly the user message and the
      answer (or the long apology) to the list, and leaves loading off. */
  lemma {:induction false} SendThenComplete(s: ChatState, reply: Reply)
    requires Send(s).1.Some?
    ensures var t := Complete(Send(s).0, reply);
      t.messages == s.messages + [Message(User, s.userInput),
                                  Message(Assistant, if reply.Failed? then LongApology else ResponseText(reply.text))]
      && !t.isLoading && t.userInput == ""
  {
    var current := s.messages + [Message(User, s.userInput)];
    var sent := current + [Message(Assistant, Placeholder)];
    var t := s.(messages := sent, userInput := "", isLoading := true);
    assert Send(s).0 == t;
    assert LastAssistantIndex(sent) == |current|;
    assert AwaitsReply(sent);
    assert Settle(sent, reply) == current + [Message(Assistant, if reply.Failed? then LongApology else ResponseText(reply.text))];
  }

  /** The request's history is the list before the placeholder, one line per
      message, ending with the user's own line; on an empty chat that line is
      the whole history. */
  lemma {:induction false} RequestHistory(s: ChatState)
    requires Send(s).1.Some?
    ensures Send(s).1.value.history ==
      (if s.messages == [] then "" else HistoryForPrompt(s.messages) + "\n") + "User: " + s.userInput
    ensures Send(s).1.value.systemInstruction == s.initialPrompt[0]
  {
    var current := s.messages + [Message(User, s.userInput)];
    assert Send(s).1 == Some(Request(HistoryForPrompt(current), s.initialPrompt[0]));
    if s.messages == [] {
      assert current == [Message(User, s.userInput)];
      assert Lines(current)[0] == Line(current[0]) == "User: " + s.userInput;
    } else {
      HistoryExtends(s.messages, Message(User, s.userInput));
    }
  }

  // ---------------------------------------------------------------------
  // The component

  class ChatBotComponent {
    var messages: seq<Message>
    var userInput: string
    var isLoading: bool
    var initialPrompt: seq<string>

    function State(): ChatState
      reads this
    {
      ChatState(messages, userInput, isLoading, initialPrompt)
    }

    constructor ()
      ensures State() == ChatState([], "", false, [])
    {
      messages, userInput, isLoading, initialPrompt := [], "", false, [];
    }

    /** The input box changed. */
    method SetInput(text: string)
      modifies this
      ensures State() == old(State()).(userInput := text)
    {
      userInput := text;
    }

    /** The agent context arrived. */
    method PromptLoaded(texts: seq<string>)
      modifies this
      ensures State() == old(State()).(initialPrompt := texts)
    {
      initialPrompt := texts;
    }

    method SendMessage() returns (request: Option<Request>)
      modifies this
      ensures (State(), request) == Send(old(State()))
    {
      if Trim(userInput) == "" || isLoading {
        return None;
      }
      if |initialPrompt| == 0 {
        messages := messages + [Message(Assistant, StartingMessage)];
        return None;
      }
      var current := messages + [Message(User, userInput)];
      request := Some(Request(HistoryForPrompt(current), initialPrompt[0]));
      messages, userInput, isLoading := current + [Message(Assistant, Placeholder)], "", true;
    }

    /** The request settled: search back for the last assistant message and
      overwrite it when it is the placeholder, else append. */
    method ReceiveReply(reply: Reply)
      modifies this
      ensures State() == Complete(old(State()), reply)
    {
      var replacement, appended := LongApology, ShortApology;
      if reply.Answered? {
        replacement := if reply.text == "" then NoResponse else reply.text;
        appended := replacement;
      }
      var i := |messages| - 1;
      while i >= 0 && messages[i].role != Assistant
        invariant -1 <= i < |messages|
        invariant forall j :: i < j < |messages| ==> messages[j].role != Assistant
        decreases i + 1
      {
        i := i - 1;
      }
      assert i == LastAssistantIndex(messages);
      if i != -1 && messages[i].content == Placeholder {
        messages := messages[i := Message(Assistant, replacement)];
      } else {
        messages := messages + [Message(Assistant, appended)];
      }
      isLoading := false;
    }
  }
}
