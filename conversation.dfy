/**
 * The chat widget's conversation state and the handlers that change it.
 *
 * Sending is split after its first `await`, the call to the chat service:
 * `BeginSend` is everything before it. The second `await`, the typing delay,
 * changes no state, so `CompleteSend` stands for the service's outcome, the
 * delay and the append together, with the outcome as a parameter. Other
 * events may run while a send is in flight, including other sends; each
 * completion appends to the log as it is at that moment.
 */
module Conversation {
  import opened Wrappers
  import opened Text
  import opened Messages
  import opened Visibility
  import opened Format

  /**
   * `message || inputMessage.trim()`, then the emptiness check: the text that
   * is sent, or `None` when the send does nothing. An explicit non-empty message
   * is used as given; otherwise the trimmed input is used.
   */
  function SendText(message: Option<string>, input: string): (r: Option<string>)
    ensures r.Some? ==> r.value != ""
    ensures message.Some? && message.value != "" ==> r == message
    ensures message.None? || message.value == "" ==>
      (r.None? <==> AllWhitespace(input)) && (r.Some? ==> r.value == Trim(input))
  {
    TrimEmptyIff(input);
    var text := if message.Some? && message.value != "" then message.value else Trim(input);
    if text == "" then None else Some(text)
  }

  /** What every message in the log satisfies: a user turn is non-empty and carries no metadata. */
  predicate WellFormed(m: Message) {
    m.sender == User ==> m.content != "" && m.HasNoMetadata()
  }

  /** The send button is enabled exactly when pressing it would send something. */
  lemma SendEnabledIffSends(input: string)
    ensures SendEnabled(input, false) <==> SendText(None, input).Some?
    ensures SendEnabled(input, false) ==> SendText(None, input) == Some(Trim(input))
  {
    TrimEmptyIff(input);
  }

  /** Every quick question is sent as written, whatever the input holds. */
  lemma QuickQuestionSends(i: nat, input: string)
    requires i < |QuickQuestions|
    ensures SendText(Some(QuickQuestions[i]), input) == Some(QuickQuestions[i])
  {
    QuickQuestionsNonEmpty();
  }

  class ChatBot {
    var messages: seq<Message>
    var inputMessage: string
    var isTyping: bool
    var isListening: bool
    /** How many sends have begun and not yet completed. */
    ghost var pending: nat

    ghost predicate Valid()
      reads this
    {
      (forall i :: 0 <= i < |messages| ==> WellFormed(messages[i]))
      && (isTyping ==> pending > 0)
    }

    /** The state before the widget is first opened. */
    constructor ()
      ensures Valid()
      ensures messages == [] && inputMessage == "" && !isTyping && !isListening && pending == 0
    {
      messages := [];
      inputMessage := "";
      isTyping := false;
      isListening := false;
      pending := 0;
    }

    /** Opening the widget (or the signed-in user changing while it is open) resets the log to the welcome. */
    method Open(user: Option<Profile>)
      requires Valid()
      modifies this`messages
      ensures Valid()
      ensures messages == [WelcomeMessage(user)]
      ensures ShowsQuickQuestions(messages)
    {
      messages := [WelcomeMessage(user)];
    }

    /** Typing in the input box. */
    method SetInput(text: string)
      requires Valid()
      modifies this`inputMessage
      ensures Valid() && inputMessage == text
    {
      inputMessage := text;
    }

    /**
     * `handleSendMessage` up to the awaited service call. `message` is the
     * explicit argument (a quick question or the initial message), `None` for
     * the send button and the Enter key; `now` is the clock reading used in the
     * new message's id. Returns the text handed to the chat service, or `None`
     * when the send does nothing.
     */
    method BeginSend(message: Option<string>, now: nat) returns (sent: Option<string>)
      requires Valid()
      modifies this`messages, this`inputMessage, this`isTyping, this`pending
      ensures Valid()
      ensures sent == SendText(message, old(inputMessage))
      ensures sent.None? ==>
        messages == old(messages) && inputMessage == old(inputMessage)
        && isTyping == old(isTyping) && pending == old(pending)
      ensures sent.Some? ==>
        |messages| == |old(messages)| + 1 && messages[..|old(messages)|] == old(messages)
        && messages[|old(messages)|] == UserMessage(sent.value, now)
        && inputMessage == "" && isTyping && pending == old(pending) + 1
    {
      sent := SendText(message, inputMessage);
      if sent.None? {
        return;
      }
      messages := messages + [UserMessage(sent.value, now)];
      inputMessage := "";
      isTyping := true;
      pending := pending + 1;
    }

    /**
     * `handleSendMessage` after the service call and the typing delay: `reply`
     * is what the chat service produced, `now` the clock reading for the id.
     * Exactly one bot
     * message is appended and the composing flag is cleared on both paths.
     */
    method CompleteSend(reply: Reply, now: nat)
      requires Valid() && pending > 0
      modifies this`messages, this`isTyping, this`pending
      ensures Valid()
      ensures |messages| == |old(messages)| + 1 && messages[..|old(messages)|] == old(messages)
      ensures messages[|old(messages)|] == ReplyMessage(reply, now)
      ensures var m := messages[|old(messages)|];
        m.sender == Bot
        && match reply
           case Ok(r) =>
             m.content == r.message && m.persona == r.persona && m.intent == r.intent
             && m.confidence == r.confidence && m.didYouKnow == r.didYouKnow
           case Err =>
             m.content == ApologyText && m.HasNoMetadata()
      ensures !isTyping && pending == old(pending) - 1
    {
      messages := messages + [ReplyMessage(reply, now)];
      isTyping := false;
      pending := pending - 1;
    }

    /** `clearChat`: the log becomes the single message after clearing; sends in flight are not cancelled. */
    method Clear()
      requires Valid()
      modifies this`messages
      ensures Valid()
      ensures messages == [ClearedMessage()]
      ensures |messages| == 1 && messages[0].sender == Bot && messages[0].id == "welcome-new"
        && messages[0].persona == None && messages[0].intent == None
    {
      messages := [ClearedMessage()];
    }

    /** The recogniser's start event. */
    method VoiceStarted()
      requires Valid()
      modifies this`isListening
      ensures Valid() && isListening
    {
      isListening := true;
    }

    /** The recogniser's result event: the transcript replaces the input; nothing is sent. */
    method VoiceResult(transcript: string)
      requires Valid()
      modifies this`inputMessage, this`isListening
      ensures Valid() && inputMessage == transcript && !isListening
    {
      inputMessage := transcript;
      isListening := false;
    }

    /** The recogniser's error or end event. */
    method VoiceStopped()
      requires Valid()
      modifies this`isListening
      ensures Valid() && !isListening
    {
      isListening := false;
    }
  }

  /** While a reply is being composed, some send is in flight, so `CompleteSend` may run. */
  lemma TypingMeansPending(chat: ChatBot)
    requires chat.Valid() && chat.isTyping
    ensures chat.pending > 0
  {
  }

  /**
   * What the invariant buys: the "Did You Know?" guard does not look at the
   * sender, yet no user turn in a valid log shows the panel, and every user
   * turn is rendered as its non-empty content in plain text.
   */
  lemma UserTurnsRenderPlain(chat: ChatBot)
    requires chat.Valid()
    ensures forall i :: 0 <= i < |chat.messages| && chat.messages[i].sender == User ==>
      chat.messages[i].content != "" && !ShowsDidYouKnow(chat.messages[i]) && !ShowsMetadata(chat.messages[i])
      && Render(chat.messages[i]) == PlainText(chat.messages[i].content)
  {
    forall i | 0 <= i < |chat.messages| && chat.messages[i].sender == User
      ensures chat.messages[i].content != "" && !ShowsDidYouKnow(chat.messages[i])
    {
      assert WellFormed(chat.messages[i]);
    }
  }

  /**
   * Two sends in flight at once, the second answered first: a quick question
   * is sent, the chat is cleared (which brings the quick questions back), and
   * another quick question is sent before either reply arrives. The replies
   * appear in the order they arrive, and the composing flag is already off
   * while the first reply is still outstanding.
   */
  method OverlappingSends(user: Option<Profile>, first: Response, second: Response)
    returns (log: seq<Message>, typingWhileOneOutstanding: bool)
    ensures |log| == 4
    ensures log[0] == ClearedMessage()
    ensures log[1] == UserMessage(QuickQuestions[1], 2)
    ensures log[2].sender == Bot && log[2].content == second.message
    ensures log[3].sender == Bot && log[3].content == first.message
    ensures !typingWhileOneOutstanding
  {
    var chat := new ChatBot();
    chat.Open(user);
    QuickQuestionsNonEmpty();
    assert ShowsQuickQuestions(chat.messages);
    var a := chat.BeginSend(Some(QuickQuestions[0]), 1);
    chat.Clear();
    assert ShowsQuickQuestions(chat.messages);
    var b := chat.BeginSend(Some(QuickQuestions[1]), 2);
    chat.CompleteSend(Ok(second), 3);
    typingWhileOneOutstanding := chat.isTyping;
    chat.CompleteSend(Ok(first), 4);
    log := chat.messages;
  }

  /** A reply that arrives after the conversation was cleared still lands, after the cleared welcome. */
  method ReplyAfterClear(user: Option<Profile>, reply: Reply) returns (log: seq<Message>)
    ensures log == [ClearedMessage(), ReplyMessage(reply, 2)]
  {
    var chat := new ChatBot();
    chat.Open(user);
    QuickQuestionsNonEmpty();
    var sent := chat.BeginSend(Some(QuickQuestions[4]), 1);
    chat.Clear();
    chat.CompleteSend(reply, 2);
    log := chat.messages;
  }

  /** Sending a question while the service fails: one user turn, then the apology, and the flag is cleared. */
  method FailedSend(user: Option<Profile>) returns (log: seq<Message>, typing: bool)
    ensures |log| == 3
    ensures log[1].sender == User && log[1].content == QuickQuestions[0]
    ensures log[2].sender == Bot && log[2].content == ApologyText && log[2].HasNoMetadata()
    ensures !typing
  {
    var chat := new ChatBot();
    chat.Open(user);
    QuickQuestionsNonEmpty();
    var sent := chat.BeginSend(Some(QuickQuestions[0]), 1);
    chat.CompleteSend(Err, 2);
    log, typing := chat.messages, chat.isTyping;
  }

  /** A whitespace-only input sends nothing, and the quick questions stay on offer. */
  method BlankInputIsIgnored(user: Option<Profile>) returns (log: seq<Message>, sent: Option<string>)
    ensures sent == None && log == [WelcomeMessage(user)] && ShowsQuickQuestions(log)
  {
    var chat := new ChatBot();
    chat.Open(user);
    chat.SetInput(" \t ");
    assert AllWhitespace(" \t ");
    sent := chat.BeginSend(None, 1);
    log := chat.messages;
  }
}
