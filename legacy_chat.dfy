/** The older chat widget (`componets/ChatBot`): no loading flag, a prompt
    built from the initial texts and the whole conversation, and replies that
    are only ever appended. */
module LegacyChatBot {
  import opened Wrappers
  import opened Strings
  import opened ChatBot

  const Apology: string := "Lo siento, hubo un error al procesar tu mensaje."

  datatype LegacyState = LegacyState(messages: seq<Message>, userInput: string, initialPrompt: seq<string>)

  /** A message as the prompt shows it: the raw role name, a colon, the text. */
  function RawLine(m: Message): string
  {
    (if m.role == User then "user" else "assistant") + ": " + m.content
  }

  function RawLines(msgs: seq<Message>): (lines: seq<string>)
    ensures |lines| == |msgs|
    ensures forall k :: 0 <= k < |msgs| ==> lines[k] == RawLine(msgs[k])
  {
    seq(|msgs|, k requires 0 <= k < |msgs| => RawLine(msgs[k]))
  }

  /** `fullPrompt`: the initial texts joined by `\n`, a `\n`, then the
      conversation joined by `\n`. */
  function FullPrompt(initialTexts: seq<string>, msgs: seq<Message>): string
  {
    Join(initialTexts, "\n") + "\n" + Join(RawLines(msgs), "\n")
  }

  /** With at least one initial text the prompt is a single `\n`-joined list:
      the initial texts, then one line per message; without any it starts
      with a bare line break. */
  lemma {:induction false} FullPromptIsOneList(initialTexts: seq<string>, msgs: seq<Message>)
    requires msgs != []
    ensures initialTexts != [] ==>
      FullPrompt(initialTexts, msgs) == Join(initialTexts + RawLines(msgs), "\n")
    ensures initialTexts == [] ==> FullPrompt(initialTexts, msgs) == "\n" + Join(RawLines(msgs), "\n")
  {
    if initialTexts != [] {
      JoinAppend(initialTexts, RawLines(msgs), "\n");
    }
  }

  /** `handleSendMessage` up to the request: nothing when the trimmed input is
      empty (the `!initialPrompt` test never holds for an array); otherwise
      the user message goes in, the input is cleared and the prompt is sent. */
  function Submit(s: LegacyState): (LegacyState, Option<string>)
  {
    if Trim(s.userInput) == "" then (s, None)
    else
      var current := s.messages + [Message(User, s.userInput)];
      (s.(messages := current, userInput := ""), Some(FullPrompt(s.initialPrompt, current)))
  }

  /** A settled request appends the answer as given, or the apology. */
  function Receive(s: LegacyState, reply: Reply): LegacyState
  {
    s.(messages := s.messages + [Message(Assistant, if reply.Failed? then Apology else reply.text)])
  }

  lemma SendGuard(s: LegacyState)
    ensures Submit(s).1.None? <==> Trim(s.userInput) == ""
    ensures Submit(s).1.None? ==> Submit(s).0 == s
    ensures Submit(s).1.Some? ==>
      Submit(s).0.messages == s.messages + [Message(User, s.userInput)] && Submit(s).0.userInput == ""
  {
  }

  /** The events the component sees. */
  datatype Event = Type(text: string) | SendClicked | Settled(reply: Reply)

  function Step(s: LegacyState, e: Event): LegacyState
  {
    match e
    case Type(text) => s.(userInput := text)
    case SendClicked => Submit(s).0
    case Settled(reply) => Receive(s, reply)
  }

  function Run(s: LegacyState, events: seq<Event>): LegacyState
    decreases |events|
  {
    if events == [] then s else Run(Step(s, events[0]), events[1..])
  }

  /** Whatever happens, the list only grows: every earlier message stays
      where it was, unchanged. */
  lemma {:induction false} MessagesOnlyGrow(s: LegacyState, events: seq<Event>)
    decreases |events|
    ensures s.messages <= Run(s, events).messages
  {
    if events != [] {
      MessagesOnlyGrow(Step(s, events[0]), events[1..]);
    }
  }

  /** Every reply adds exactly one assistant message. */
  lemma ReceiveAppendsOne(s: LegacyState, reply: Reply)
    ensures |Receive(s, reply).messages| == |s.messages| + 1
    ensures Receive(s, reply).messages[|s.messages|].role == Assistant
    ensures reply.Failed? ==> Receive(s, reply).messages[|s.messages|].content == Apology
  {
  }

  class LegacyChatBotComponent {
    var messages: seq<Message>
    var userInput: string
    var initialPrompt: seq<string>

    function State(): LegacyState
      reads this
    {
      LegacyState(messages, userInput, initialPrompt)
    }

    constructor ()
      ensures State() == LegacyState([], "", [])
    {
      messages, userInput, initialPrompt := [], "", [];
    }

    method SetInput(text: string)
      modifies this
      ensures State() == Step(old(State()), Type(text))
    {
      userInput := text;
    }

    /** `/system_prompt.json` arrived (or failed, giving `[]`). */
    method PromptLoaded(texts: seq<string>)
      modifies this
      ensures State() == old(State()).(initialPrompt := texts)
    {
      initialPrompt := texts;
    }

    method SendMessage() returns (prompt: Option<string>)
      modifies this
      ensures (State(), prompt) == Submit(old(State()))
    {
      if Trim(userInput) == "" {
        return None;
      }
      var current := messages + [Message(User, userInput)];
      messages := current;
      userInput := "";
      prompt := Some(FullPrompt(initialPrompt, current));
    }

    method ReceiveReply(reply: Reply)
      modifies this
      ensures State() == Receive(old(State()), reply)
      ensures old(messages) <= messages
    {
      var content := if reply.Failed? then Apology else reply.text;
      messages := messages + [Message(Assistant, content)];
    }
  }
}
