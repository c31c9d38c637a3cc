/**
 * What the widget shows around each message and below the log: the
 * persona/intent/confidence badges, the "Did You Know?" panel, the quick
 * questions, and whether the send button is enabled. Optional fields are
 * judged by JavaScript truthiness: a string counts when present and
 * non-empty, a number when present and non-zero.
 */
module Visibility {
  import opened Wrappers
  import opened Text
  import opened Messages

  /** Truthiness of an optional string. */
  predicate Truthy(o: Option<string>) {
    o.Some? && o.value != ""
  }

  /** Truthiness of an optional number. */
  predicate NonZero(o: Option<real>) {
    o.Some? && o.value != 0.0
  }

  /** The metadata row appears under bot messages that carry a persona or an intent. */
  predicate ShowsMetadata(m: Message) {
    m.sender == Bot && (Truthy(m.persona) || Truthy(m.intent))
  }

  /** The persona badge, inside the metadata row. */
  predicate ShowsPersona(m: Message) {
    ShowsMetadata(m) && Truthy(m.persona)
  }

  /** The intent badge, inside the metadata row. */
  predicate ShowsIntent(m: Message) {
    ShowsMetadata(m) && Truthy(m.intent)
  }

  /** `Math.round(x)`: the nearest integer, halves rounding up. */
  function Round(x: real): (r: int)
    ensures r as real - 0.5 <= x < r as real + 0.5
  {
    (x + 0.5).Floor
  }

  /**
   * What the confidence slot of the metadata row renders as written: the guard
   * `confidence && …` evaluates to the number itself when it is 0, and React
   * renders that number as the text "0".
   */
  datatype ConfidenceSlot = Nothing | StrayZero | Percent(value: int)

  function ConfidenceSlotAsWritten(m: Message): ConfidenceSlot {
    if !ShowsMetadata(m) || m.confidence.None? then Nothing
    else if m.confidence.value == 0.0 then StrayZero
    else Percent(Round(m.confidence.value * 100.0))
  }

  /** The confidence percentage shown inside the metadata row, if any: nothing for an absent or zero confidence. */
  function ConfidenceShown(m: Message): Option<int> {
    if ShowsMetadata(m) && NonZero(m.confidence) then Some(Round(m.confidence.value * 100.0)) else None
  }

  /** The "Did You Know?" panel; it does not look at the sender. */
  predicate ShowsDidYouKnow(m: Message) {
    Truthy(m.didYouKnow)
  }

  /** The quick questions are offered while the log holds at most the welcome message. */
  predicate ShowsQuickQuestions(log: seq<Message>) {
    |log| <= 1
  }

  /** The send button is enabled when the trimmed input is non-empty and no reply is being composed. */
  predicate SendEnabled(input: string, isTyping: bool) {
    Trim(input) != "" && !isTyping
  }

  /** A confidence in [0, 1] shows as a whole percentage in [0, 100]. */
  lemma PercentInRange(c: real)
    requires 0.0 <= c <= 1.0
    ensures 0 <= Round(c * 100.0) <= 100
  {
    var r := Round(c * 100.0);
    assert 0.0 <= c * 100.0 <= 100.0;
    assert r as real - 0.5 <= 100.0 && 0.0 < r as real + 0.5;
  }

  /** Examples of the rounding: 0.873 shows as 87, 1 as 100, and a half rounds up. */
  lemma PercentExamples()
    ensures Round(0.873 * 100.0) == 87
    ensures Round(1.0 * 100.0) == 100
    ensures Round(0.125 * 100.0) == 13
    ensures Round(0.004 * 100.0) == 0
  {
  }

  /** The send button is enabled exactly when nothing is being composed and the input has a non-whitespace character. */
  lemma SendEnabledIff(input: string, isTyping: bool)
    ensures SendEnabled(input, isTyping) <==> !isTyping && exists i :: 0 <= i < |input| && !IsWhitespace(input[i])
  {
    TrimEmptyIff(input);
  }

  /**
   * The confidence of a reply that shows its badge row: a confidence in (0, 1]
   * shows as its rounded percentage, within 0..100; a confidence of 0 shows
   * nothing, where the widget as written prints a stray "0"; a reply without
   * a persona or an intent shows no confidence at all.
   */
  lemma ReplyConfidence(r: Response, now: nat)
    ensures var m := ReplyMessage(Ok(r), now);
      (Truthy(r.persona) || Truthy(r.intent)) && r.confidence.Some? && 0.0 < r.confidence.value <= 1.0 ==>
        ConfidenceShown(m) == Some(Round(r.confidence.value * 100.0))
        && 0 <= ConfidenceShown(m).value <= 100
    ensures var m := ReplyMessage(Ok(r), now);
      (Truthy(r.persona) || Truthy(r.intent)) && r.confidence == Some(0.0) ==>
        ConfidenceShown(m) == None && ConfidenceSlotAsWritten(m) == StrayZero
    ensures var m := ReplyMessage(Ok(r), now);
      !Truthy(r.persona) && !Truthy(r.intent) ==>
        ConfidenceShown(m) == None && ConfidenceSlotAsWritten(m) == Nothing
  {
    if r.confidence.Some? && 0.0 < r.confidence.value <= 1.0 {
      PercentInRange(r.confidence.value);
    }
  }

  /** A user's turn never shows badges, a confidence or a "Did You Know?" panel. */
  lemma UserTurnShowsNoMetadata(text: string, now: nat)
    ensures var m := UserMessage(text, now);
      !ShowsMetadata(m) && !ShowsPersona(m) && !ShowsIntent(m)
      && ConfidenceShown(m) == None && !ShowsDidYouKnow(m)
  {
  }

  /**
   * A bot turn built from a response shows the metadata row exactly when the
   * response has a persona or an intent, and the panel exactly when it has a fact;
   * the apology after a failure shows neither.
   */
  lemma ReplyVisibility(reply: Reply, now: nat)
    ensures var m := ReplyMessage(reply, now);
      match reply
      case Ok(r) =>
        (ShowsMetadata(m) <==> Truthy(r.persona) || Truthy(r.intent))
        && (ShowsDidYouKnow(m) <==> Truthy(r.didYouKnow))
        && (ConfidenceShown(m).Some? <==> ShowsMetadata(m) && NonZero(r.confidence))
      case Err =>
        !ShowsMetadata(m) && ConfidenceShown(m) == None && !ShowsDidYouKnow(m)
  {
  }

  /** The welcome shows both badges and nothing else; the message after clearing shows none. */
  lemma WelcomeVisibility(user: Option<Profile>)
    ensures var w := WelcomeMessage(user);
      ShowsPersona(w) && ShowsIntent(w) && ConfidenceShown(w) == None && !ShowsDidYouKnow(w)
    ensures var c := ClearedMessage();
      !ShowsMetadata(c) && ConfidenceShown(c) == None && !ShowsDidYouKnow(c)
  {
  }

  /** A reply with a persona and a confidence of 0 renders a stray "0" in its metadata row. */
  lemma ZeroConfidenceShowsStrayZero(r: Response, now: nat)
    requires Truthy(r.persona) && r.confidence == Some(0.0)
    ensures ConfidenceSlotAsWritten(ReplyMessage(Ok(r), now)) == StrayZero
    ensures ConfidenceShown(ReplyMessage(Ok(r), now)) == None
  {
  }

  /** The intended rendering agrees with the written one everywhere except the stray zero. */
  lemma ConfidenceShownMatchesAsWritten(m: Message)
    ensures ConfidenceSlotAsWritten(m) == StrayZero <==> ShowsMetadata(m) && m.confidence == Some(0.0)
    ensures ConfidenceSlotAsWritten(m) != StrayZero ==>
      match ConfidenceShown(m)
      case None => ConfidenceSlotAsWritten(m) == Nothing
      case Some(p) => ConfidenceSlotAsWritten(m) == Percent(p)
  {
  }
}
