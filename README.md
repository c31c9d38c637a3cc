# eYogi chat assistant: a Dafny model

This project models the conversation logic of the eYogi Gurukul chat widget
(`src/components/chat/ChatBot.tsx`). It has three parts.

- **Conversation state** (`conversation.dfy`). The class `Conversation.ChatBot` has the
  component's four pieces of state: the message log, the composing flag `isTyping`, the
  input text and the listening flag. Its methods are the handlers that change them. The send button and the Enter key (without Shift) both call `BeginSend(None, now)`.
  Sending a message is split after its first `await`, the service call (line 98). The second `await`, the typing delay (line 101), changes no state, so `CompleteSend` stands for the service's outcome, the delay and the append together. `BeginSend` checks the text, appends the
  user's turn, clears the input and raises `isTyping`. `CompleteSend` takes the chat
  service's outcome, appends exactly one bot turn and clears `isTyping`. The outcome is
  either a response or a failure. A ghost counter `pending` tracks the sends that have
  begun and not yet completed. The invariant `Valid()` says that every user turn in the
  log is non-empty and carries no metadata, and that `isTyping` implies a pending send.
  Small client methods replay the widget's scenarios. They cover two sends in flight whose
  replies arrive out of order, a reply landing after the chat was cleared, a failing
  service, and blank input.
- **Message formatting** (`format.dfy`). Bot content goes through three global regex
  replacements: bold, then links, then newline to `<br>`. Each is modelled as the
  left-to-right scan that a global `String.prototype.replace` performs. The JavaScript
  regex semantics are spelled out: the lazy bold text stops at the first `**`; JavaScript's
  `.` excludes `\n`, `\r`, U+2028 and U+2029; the link's negated classes are greedy.
  User content is rendered as plain text.
- **Render visibility** (`visibility.dfy`). These predicates decide what is shown: the
  metadata row and its badges, the confidence percentage (`Math.round`), the
  "Did You Know?" panel, the quick questions and the send button. Optional fields are
  judged by JavaScript truthiness.

Supporting modules: `messages.dfy` holds the `ChatMessage` record, the service's
response, and the welcome, cleared, user and reply messages built from them.
`text.dfy` models the JavaScript built-ins the widget uses: `trim`, `split(' ')`, and
the decimal digits of `Date.now()` in ids. `wrappers.dfy` holds `Option`.

The chat service, the signed-in user and the clock are inputs. The service's outcome is
the `Reply` passed to `CompleteSend`. The user is the `Option<Profile>` passed to `Open`.
The clock reading is the `now` used to build ids.

Behaviour of the code worth noting:
- An explicit message (a quick question or the initial message) is sent as given, without
  trimming. Only the input box's text is trimmed (`SendText`).
- A voice transcript only replaces the input text; it is not submitted (`VoiceResult`).
- The formatting chain is not idempotent on its own output. For example, `**a`, newline,
  `**` becomes `**a<br>**`, which a second pass turns bold (`FormatNotIdempotent`). The
  widget only ever formats stored content, so this is never observed.
- With overlapping sends, the first completion clears `isTyping` while another reply is
  still outstanding (`OverlappingSends`).
- The welcome effect runs again whenever the signed-in user changes while the widget is
  open, and that resets the log (`ChatBot.Open`).
- With an initial message, the widget's two open effects behave like `Open` followed by
  `BeginSend(Some(initialMessage), now)`.

## Model

| member | source | states |
|---|---|---|
| Text.TrimStart | src/components/chat/ChatBot.tsx:82 | the result is the longest suffix not starting with JavaScript whitespace; everything removed is whitespace |
| Text.TrimEnd | src/components/chat/ChatBot.tsx:82 | the result is the longest prefix not ending with whitespace; everything removed is whitespace |
| Text.TrimIsInfix | src/components/chat/ChatBot.tsx:82 | `trim` returns the part of the input between a whitespace-only prefix and suffix, and it neither starts nor ends with whitespace |
| Text.TrimEmptyIff | src/components/chat/ChatBot.tsx:388 | `s.trim()` is empty exactly when every character of `s` is whitespace |
| Text.TrimIdempotent | src/components/chat/ChatBot.tsx:82 | trimming twice equals trimming once |
| Text.Split | src/components/chat/ChatBot.tsx:55 | `split` yields at least one piece, and no piece contains the separator |
| Text.JoinSplit | src/components/chat/ChatBot.tsx:55 | joining the pieces of a split with the separator gives back the original text |
| Text.SplitJoin | src/components/chat/ChatBot.tsx:55 | splitting a join of separator-free pieces gives back the pieces |
| Text.SplitFirst | src/components/chat/ChatBot.tsx:55 | `split(' ')[0]` is the longest prefix without a space: it ends at the end of the text or just before the first space |
| Text.Decimal | src/components/chat/ChatBot.tsx:86 | the clock's digits are a non-empty string of decimal digits |
| Text.DecimalRoundTrip | src/components/chat/ChatBot.tsx:86 | reading the digits back gives the clock value |
| Messages.GreetingNameIsFirstWord | src/components/chat/ChatBot.tsx:55 | the greeting name is never empty and has no space; it is the first word of `full_name` when that word is non-empty, and `friend` when there is no user, no name, or the name starts with a space |
| Messages.WelcomeNamesUser | src/components/chat/ChatBot.tsx:52-59 | the welcome has id `welcome`, is a bot message with persona `student` and intent `greeting`, and has no confidence or fact; its text is the fixed greeting around the greeting name |
| Messages.WelcomeExamples | src/components/chat/ChatBot.tsx:55 | "Priya Shah" is greeted as "Priya"; no user, no name, or a leading space gives "friend" |
| Messages.ClockIdsDiffer | src/components/chat/ChatBot.tsx:86 | user, bot and error ids from different clock readings differ |
| Messages.QuickQuestionsNonEmpty | src/components/chat/ChatBot.tsx:184-193 | there are eight quick questions and none is empty |
| Format.CloseBold | src/components/chat/ChatBot.tsx:262 | the lazy bold text closes at the first `**` with no line terminator before it; if there is none, every `**` comes after a line terminator |
| Format.Bold | src/components/chat/ChatBot.tsx:262 | the bold replacement never shortens the text |
| Format.BoldPair | src/components/chat/ChatBot.tsx:262 | `**x**` becomes `<strong>x</strong>` when `x` is on one line, has no `**` and does not end in `*`; the rest is processed on its own |
| Format.BoldUnchangedIff | src/components/chat/ChatBot.tsx:262 | the bold replacement changes nothing exactly when no position starts a match |
| Format.NoStarNoBold | src/components/chat/ChatBot.tsx:262 | text without `*` has no bold match |
| Format.BoldCopiesStarFree | src/components/chat/ChatBot.tsx:262 | a prefix without `*` passes through the bold replacement unchanged |
| Format.NewlineBlocksBold | src/components/chat/ChatBot.tsx:262 | a newline between two `**` keeps them from pairing |
| Format.CloseBoldBlocked | src/components/chat/ChatBot.tsx:262 | bold text cannot close past a newline when no `**` comes before it |
| Format.NoBoldStarFreePrefix | src/components/chat/ChatBot.tsx:262 | a prefix without `*` adds no bold match |
| Format.BoldPlain | src/components/chat/ChatBot.tsx:262 | plain text between `**` becomes a strong element |
| Format.RunWithout | src/components/chat/ChatBot.tsx:263 | a greedy negated class consumes the longest run without the stop character |
| Format.LinkAt | src/components/chat/ChatBot.tsx:263 | a link match spans the caption, the url and four punctuation characters, within the text |
| Format.LinkAtShape | src/components/chat/ChatBot.tsx:263 | a link match is exactly `[caption](url)` with a non-empty caption free of `]` and a non-empty url free of `)` |
| Format.LinkPair | src/components/chat/ChatBot.tsx:263 | `[caption](url)` becomes the anchor with that href and caption, `target="_blank"` and `rel="noopener noreferrer"`; the rest is processed on its own |
| Format.Links | src/components/chat/ChatBot.tsx:263 | the link replacement never shortens the text |
| Format.LinksUnchangedIff | src/components/chat/ChatBot.tsx:263 | the link replacement changes nothing exactly when no position starts a match |
| Format.NoBracketNoLink | src/components/chat/ChatBot.tsx:263 | text without `[` has no link match |
| Format.LinksCopiesBracketFree | src/components/chat/ChatBot.tsx:263 | a prefix without `[` passes through the link replacement unchanged |
| Format.LinksPlain | src/components/chat/ChatBot.tsx:263 | text without `[` passes the link replacement unchanged |
| Format.AnchorNewlines | src/components/chat/ChatBot.tsx:263 | an anchor contains a newline only if its caption or url does |
| Format.Breaks | src/components/chat/ChatBot.tsx:264 | the output of the newline replacement contains no newline |
| Format.BreaksUnchangedIff | src/components/chat/ChatBot.tsx:264 | the newline replacement changes nothing exactly when the text has no newline |
| Format.BreaksAppend | src/components/chat/ChatBot.tsx:264 | the newline replacement works piece by piece over concatenation |
| Format.BreaksLine | src/components/chat/ChatBot.tsx:264 | one newline between newline-free lines becomes `<br>` |
| Format.Render | src/components/chat/ChatBot.tsx:259-268 | user content is shown verbatim as plain text; bot content becomes markup with no newline |
| Format.FormatPlain | src/components/chat/ChatBot.tsx:261-264 | content without `*`, `[` or newline comes out unchanged |
| Format.FormatBoldLinkLine | src/components/chat/ChatBot.tsx:261-264 | bold text, a link and a line break are each replaced, and nothing else changes |
| Format.FormatExample | src/components/chat/ChatBot.tsx:261-264 | `**hi** [go](http://x)`, newline, `line2` formats to a strong `hi`, the anchor to `http://x` labelled `go`, `<br>` and `line2` |
| Format.FormatKeepsSplitPair | src/components/chat/ChatBot.tsx:261-264 | a `**` pair split by a newline is kept, and only the newline becomes `<br>` |
| Format.FormatJoinsBrokenLine | src/components/chat/ChatBot.tsx:261-264 | the same pair with `<br>` in place of the newline becomes bold |
| Format.FormatNotIdempotent | src/components/chat/ChatBot.tsx:261-264 | formatting the formatted text can change it again |
| Visibility.Round | src/components/chat/ChatBot.tsx:286 | `Math.round` gives the nearest integer, with halves rounding up |
| Visibility.PercentInRange | src/components/chat/ChatBot.tsx:286 | a confidence in [0, 1] shows as a percentage in [0, 100] |
| Visibility.PercentExamples | src/components/chat/ChatBot.tsx:286 | 0.873 shows as 87, 1 as 100, 0.125 as 13, 0.004 as 0 |
| Visibility.SendEnabledIff | src/components/chat/ChatBot.tsx:388 | send is enabled exactly when nothing is being composed and the input has a non-whitespace character |
| Visibility.ReplyConfidence | src/components/chat/ChatBot.tsx:272-288 | for a reply with a persona or an intent, a confidence in (0, 1] shows as its rounded percentage, within 0..100, and a confidence of 0 shows nothing where the code as written prints "0"; a reply with neither shows no confidence |
| Visibility.UserTurnShowsNoMetadata | src/components/chat/ChatBot.tsx:272-301 | a user turn shows no badges, no confidence and no "Did You Know?" panel |
| Visibility.ReplyVisibility | src/components/chat/ChatBot.tsx:272-301 | a reply shows the metadata row exactly when it has a persona or an intent, and the panel exactly when it has a fact; the apology shows neither |
| Visibility.WelcomeVisibility | src/components/chat/ChatBot.tsx:272-301 | the welcome shows both badges and no confidence or panel; the cleared welcome shows nothing |
| Visibility.ZeroConfidenceShowsStrayZero | src/components/chat/ChatBot.tsx:284-288 | as written, a reply with a persona and confidence 0 renders "0" in its metadata row |
| Visibility.ConfidenceShownMatchesAsWritten | src/components/chat/ChatBot.tsx:284-288 | the intended confidence display equals the written one except in the stray-zero case |
| Conversation.SendText | src/components/chat/ChatBot.tsx:82-83 | a non-empty explicit message is sent as given; otherwise the trimmed input is sent, and nothing is sent exactly when the input is all whitespace; what is sent is never empty |
| Conversation.SendEnabledIffSends | src/components/chat/ChatBot.tsx:388 | the send button is enabled exactly when pressing it sends, and then it sends the trimmed input |
| Conversation.QuickQuestionSends | src/components/chat/ChatBot.tsx:343-346 | clicking a quick question sends it as written |
| Conversation.TypingMeansPending | src/components/chat/ChatBot.tsx:94-125 | in a chat that keeps the invariant, a raised `isTyping` means some send is in flight, so `CompleteSend` may run |
| Conversation.UserTurnsRenderPlain | src/components/chat/ChatBot.tsx:259-268 | in a log that keeps the invariant, every user turn is non-empty, is shown as plain text, and shows no badges and no "Did You Know?" panel, although the panel's guard (line 293) does not look at the sender |
| Conversation.ChatBot.constructor | src/components/chat/ChatBot.tsx:41-44 | the log and the input start empty; both flags start false |
| Conversation.ChatBot.Open | src/components/chat/ChatBot.tsx:49-65 | opening makes the log exactly the welcome message, and the quick questions show |
| Conversation.ChatBot.SetInput | src/components/chat/ChatBot.tsx:365 | typing replaces the input text |
| Conversation.ChatBot.BeginSend | src/components/chat/ChatBot.tsx:81-94 | with nothing to send the state is unchanged; otherwise exactly one user turn with the sent text is appended, earlier turns are kept, the input is cleared and `isTyping` is raised |
| Conversation.ChatBot.CompleteSend | src/components/chat/ChatBot.tsx:96-126 | exactly one bot turn is appended and earlier turns are kept; it carries the response's text, persona, intent, confidence and fact, or else the fixed apology and no metadata; `isTyping` is false on both paths |
| Conversation.ChatBot.Clear | src/components/chat/ChatBot.tsx:173-182 | the log becomes one bot message with id `welcome-new` and no persona or intent; sends in flight are untouched |
| Conversation.ChatBot.VoiceStarted | src/components/chat/ChatBot.tsx:145-147 | the listening flag is raised |
| Conversation.ChatBot.VoiceResult | src/components/chat/ChatBot.tsx:149-153 | the transcript replaces the input and listening stops; nothing is sent |
| Conversation.ChatBot.VoiceStopped | src/components/chat/ChatBot.tsx:155-161 | listening stops |
| Conversation.OverlappingSends | src/components/chat/ChatBot.tsx:81-127 | with a quick question sent, the chat cleared and a second quick question sent before either reply, the replies are appended after the cleared welcome and the second user turn in the order they arrive; `isTyping` is already false while one reply is outstanding |
| Conversation.ReplyAfterClear | src/components/chat/ChatBot.tsx:173-182 | a reply that arrives after clearing is appended after the cleared welcome |
| Conversation.FailedSend | src/components/chat/ChatBot.tsx:115-126 | when the service fails, one user turn is followed by the apology with no metadata, and `isTyping` is cleared |
| Conversation.BlankInputIsIgnored | src/components/chat/ChatBot.tsx:82-83 | whitespace-only input sends nothing and leaves the log at the welcome, with the quick questions shown |

## Left out

- Speech recognition itself (`handleVoiceInput`, lines 136-171) is left out because it uses a browser capability, event callbacks and `alert`. Its four callbacks have three effects on state, and only those are modelled: `VoiceStarted` (`onstart`), `VoiceResult` (`onresult`) and `VoiceStopped` (both `onerror` and `onend`).
- The handlers carry none of the widget's enabling conditions: the input box is disabled while `isTyping` (line 369), the send button needs non-blank input and `!isTyping` (line 388), and the quick questions show only while the log holds at most one message (line 335). The class therefore accepts event orders the widget cannot produce; the scenario methods follow orders it can.
- The `console.error` call in the failure path (line 116) is left out; it writes to the browser console and changes no state.
- The random typing delay (line 101) is left out; it does not change what is appended.
- Timestamps (`new Date()`, and `formatDateTime` on line 307) are left out. Ids built from `Date.now()` take the clock reading as the parameter `now`.
- The internals of `ChatService.processMessage` and of `useAuth` are not part of this model; both are inputs.
- React rendering, focus, scrolling and the JSX layout (lines 63, 73-79, 195-405) are left out, apart from the visibility rules above.
- Visibility.Round: uses exact `real` arithmetic, not IEEE doubles, so the rounding of values whose binary representation lies just below a half is not reproduced; NaN confidence (which renders "NaN") is not modelled.
- The percent sign and the word "confident" after the percentage are layout text and are not modelled.
- The `isOpen` guard (line 195) and the close callback are left out; the model starts at `Open`.
- src/pages/HomePage.tsx, src/components/layout/Header.tsx, src/App.tsx, src/components/ui/Card.tsx and fix-paths.js are not part of this model. They are static content, layout, routing, class-name helpers and a file-rewriting script.

## Findings

| source | as written | input that shows it | evidently intended | confidence | as-written member | corrected member |
|---|---|---|---|---|---|---|
| src/components/chat/ChatBot.tsx:284 | the confidence text is guarded by the confidence value itself; for a confidence of 0 the guard yields the number 0, which React renders as the text "0" | a reply with persona `student` and confidence `0` | no confidence text when the confidence is 0 | high; not executed | Visibility.ZeroConfidenceShowsStrayZero | Visibility.ReplyConfidence |
