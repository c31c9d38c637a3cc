/**
 * The chat widget's message record and the fixed messages it builds:
 * the personalised welcome, the welcome after clearing, a user turn,
 * and the bot turn made from the chat service's reply or its failure.
 */
module Messages {
  import opened Wrappers
  import opened Text

  /** `ChatMessage.type`. */
  datatype Sender = User | Bot

  /** `ChatMessage`, without its `timestamp` (the clock is not modelled). */
  datatype Message = Message(
    id: string,
    sender: Sender,
    content: string,
    persona: Option<string>,
    intent: Option<string>,
    confidence: Option<real>,
    didYouKnow: Option<string>)
  {
    /** No persona, intent, confidence or did-you-know attached. */
    predicate HasNoMetadata() {
      persona == None && intent == None && confidence == None && didYouKnow == None
    }
  }

  /** The part of the signed-in user the widget reads: `user.full_name`, which may be absent. */
  datatype Profile = Profile(fullName: Option<string>)

  /** What `ChatService.processMessage` resolves to. */
  datatype Response = Response(
    message: string,
    persona: Option<string>,
    intent: Option<string>,
    confidence: Option<real>,
    didYouKnow: Option<string>)

  /** The outcome of the awaited service call: a response, or a rejection. */
  datatype Reply = Ok(response: Response) | Err

  const WelcomePrefix: string := "\U{1F64F} Namaste "
  const WelcomeSuffix: string := "! I'm your eYogi AI assistant. I'm here to help you with questions about our courses, Gurukuls, enrollment, and anything related to your learning journey. How can I assist you today?"
  const ClearedText: string := "\U{1F64F} Chat cleared! I'm ready to help you with any questions about eYogi Gurukul. What would you like to know?"
  const ApologyText: string := "I apologize, but I encountered an error processing your message. Please try again or contact our support team for assistance."

  /** The questions offered as one-click sends while the conversation is fresh. */
  const QuickQuestions: seq<string> := [
    "What courses are available for my age?",
    "How do I enroll in a course?",
    "What is the fee structure?",
    "Tell me about Hinduism Gurukul",
    "How do I get certificates?",
    "What are the different Gurukuls?",
    "Tell me an interesting fact",
    "Share some Sanskrit wisdom"
  ]

  /** `user?.full_name?.split(' ')[0] || 'friend'`. */
  function GreetingName(user: Option<Profile>): string {
    var first :=
      if user.Some? && user.value.fullName.Some? then Split(user.value.fullName.value, ' ')[0] else "";
    if first == "" then "friend" else first
  }

  /** The welcome message placed in the log when the widget opens. */
  function WelcomeMessage(user: Option<Profile>): Message {
    Message("welcome", Bot, WelcomePrefix + GreetingName(user) + WelcomeSuffix,
            Some("student"), Some("greeting"), None, None)
  }

  /** The only message left after the conversation is cleared. */
  function ClearedMessage(): Message {
    Message("welcome-new", Bot, ClearedText, None, None, None, None)
  }

  /** The user's turn, stamped with the clock reading `now`. */
  function UserMessage(text: string, now: nat): Message {
    Message("user-" + Decimal(now), User, text, None, None, None, None)
  }

  /** The bot's turn: the service's response with its metadata, or the fixed apology. */
  function ReplyMessage(reply: Reply, now: nat): Message {
    match reply
    case Ok(r) => Message("bot-" + Decimal(now), Bot, r.message, r.persona, r.intent, r.confidence, r.didYouKnow)
    case Err => Message("error-" + Decimal(now), Bot, ApologyText, None, None, None, None)
  }

  /**
   * The greeting names the first space-separated word of the user's full name,
   * and `friend` when there is no user, no full name, or the name starts with a space
   * (so that its first word is empty).
   */
  lemma GreetingNameIsFirstWord(user: Option<Profile>)
    ensures var g := GreetingName(user);
      g != "" && ' ' !in g
      && if user.Some? && user.value.fullName.Some? && user.value.fullName.value != []
            && user.value.fullName.value[0] != ' '
         then var n := user.value.fullName.value; g <= n && (|g| == |n| || n[|g|] == ' ')
         else g == "friend"
  {
    if user.Some? && user.value.fullName.Some? {
      var n := user.value.fullName.value;
      SplitFirst(n, ' ');
      if n != [] && n[0] != ' ' {
        assert Split(n, ' ')[0][0] == n[0];
      }
    }
  }

  /** The welcome text is the fixed greeting around the user's name. */
  lemma WelcomeNamesUser(user: Option<Profile>)
    ensures var m := WelcomeMessage(user);
      m.id == "welcome" && m.sender == Bot
      && m.persona == Some("student") && m.intent == Some("greeting")
      && m.confidence == None && m.didYouKnow == None
      && m.content[..|WelcomePrefix|] == WelcomePrefix
      && m.content[|WelcomePrefix|..|WelcomePrefix| + |GreetingName(user)|] == GreetingName(user)
      && m.content[|WelcomePrefix| + |GreetingName(user)|..] == WelcomeSuffix
  {
  }

  /**
   * Opening for "Priya Shah" greets "Priya"; with no name, or a name starting
   * with a space, the greeting is "friend". The names are parameters fixed by
   * `requires` so that the verifier does not unfold `Split` on a literal.
   */
  lemma WelcomeExamples(first: string, last: string)
    requires first == "Priya" && last == "Shah"
    ensures GreetingName(Some(Profile(Some(first + " " + last)))) == "Priya"
    ensures GreetingName(Some(Profile(Some(" " + first)))) == "friend"
    ensures GreetingName(Some(Profile(None))) == "friend"
    ensures GreetingName(None) == "friend"
  {
    assert ' ' !in first;
    SplitPrefix(first, last, ' ');
    assert first + " " + last == first + [' '] + last;
    assert (" " + first)[0] == ' ';
  }

  /** Ids built from different clock readings differ. */
  lemma ClockIdsDiffer(text: string, reply: Reply, now: nat, later: nat)
    requires now != later
    ensures UserMessage(text, now).id != UserMessage(text, later).id
    ensures ReplyMessage(reply, now).id != ReplyMessage(reply, later).id
  {
    DecimalRoundTrip(now);
    DecimalRoundTrip(later);
    var d1, d2 := Decimal(now), Decimal(later);
    assert d1 != d2;
    forall p: string ensures p + d1 != p + d2 {
      assert (p + d1)[|p|..] == d1 && (p + d2)[|p|..] == d2;
    }
  }

  /** All quick questions are non-empty, so clicking one always sends it. */
  lemma QuickQuestionsNonEmpty()
    ensures |QuickQuestions| == 8
    ensures forall i :: 0 <= i < |QuickQuestions| ==> QuickQuestions[i] != ""
  {
  }
}
