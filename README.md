# Conversation engine of the English-practice app, in Dafny

This project models the conversation engine of a mobile app for Japanese
speakers learning English (`hooks/useConversation.ts`). One user utterance
goes through these steps:

1. **Scenario prompt selector** (`getSystemPrompt`). A fixed base persona
   prompt is extended with a role-play persona. The persona is chosen by the
   first trigger phrase found in the lower-cased utterance: "job interview"
   together with "it", "traditional japanese restaurant", "japanese culture",
   "train station" or "business networking".
2. **Request.** The request holds the system message (the selected prompt plus
   the instructions that ask for a reply and a follow-up question separated by
   a blank line). Then comes the earlier conversation as role/content pairs,
   then the new utterance.
3. **Response splitter.** The completion is split on `"\n\n"`. The first piece
   is the reply; when that piece is empty, the whole completion is the reply.
   With two or more pieces, the last one is the follow-up question. Otherwise
   the follow-up generator supplies one.
4. **Feedback synthesizer** (`generateFeedback`). Five rules are checked in a
   fixed order: grammar, vocabulary, pronunciation, fluency, cultural. Each
   rule appends at most one item. When no rule fires, one of three
   encouraging items is appended.
5. **Follow-up generator** (`generateFollowUpQuestion`). It picks one of five
   topic buckets with the first keyword rule that matches, then one of the four
   questions in that bucket.
6. **Session state.** This is a message log plus a loading flag and a
   recording flag. `sendMessage` appends the user's message, appends the
   assistant's message only when the completion arrived, and always clears the
   loading flag. `resetConversation` empties the log.

The module layout follows these steps:

- `text.dfy` (`Text`): ASCII lower-casing, `includes`, and `split`/`join`,
  with the positions where the left-to-right scan of `split` cuts.
- `rules.dfy` (`Rules`): a generic "first matching keyword rule wins" table.
  The `if` chains are proved equal to it.
- `prompt.dfy` (`Prompt`): the prompt selector.
- `followup.dfy` (`FollowUp`): the follow-up generator.
- `completion.dfy` (`Completion`): the response splitter.
- `feedback.dfy` (`Feedback`): the feedback synthesizer.
- `session.dfy` (`Session`): the session class.
- `wrappers.dfy` (`Wrappers`): `Option`.

The question pools are given question by question (`FollowUp.Question`), and `FollowUp.Questions` lists a topic's pool in the source's order.

Two things become parameters:

- **Randomness.** The two `Math.floor(Math.random() * n)` choices of the core,
  at lines 196 and 249, are `nat` arguments with the bound `< n`. The
  argument is called `pick` in `FeedbackFor`, `GenerateFeedback`,
  `FollowUpQuestion` and `ParseCompletion`, and `feedbackPick` and
  `followPick` in `SendMessage`. The third such call, in `stopRecording`
  (line 274), is outside the model.
- **The network call.** Its outcome is a `CompletionResult`: `Success(completion)`,
  or `Failure` for anything that ends in the `catch` block.

`generateFeedback` builds its list by successive `push` calls. It is modelled
as the method `GenerateFeedback`, which does the same appends on a local
sequence. The method is proved equal to the reference function `FeedbackFor`,
and `FeedbackFor` is defined by filtering the ordered rule table. The session
is the class `ConversationSession`, with fields `messages`, `isLoading` and
`isRecording`.

Notes on the code's behaviour:

- Feedback always comes from the five local rules, whatever the completion
  says.
- The feedback list holds the item of every firing rule, or one encouraging
  item when none fires, so it has 1 to 5 items.
- The grammar rule fires on the substrings "i am go" and "i go to" of the
  lower-cased utterance. So "I am good" gets the correction meant for
  "I am go" (`Feedback.GoodGetsGrammarCorrection`).
- The vocabulary rule fires on "good" when "great" is absent.
- The pronunciation rule fires on any `l` or `r` anywhere in the utterance.
- The fluency rule fires on any utterance shorter than 10 characters.
- The cultural rule fires on "please" or "thank".
- An utterance with "restaurant" in it does not always get the restaurant
  question pool. An earlier bucket wins when one of its keywords occurs. For
  example, "traditional japanese restaurant" contains "japanese", so it never
  lands in the restaurant bucket (`FollowUp.JapaneseRestaurantNotRestaurant`).
- When the completion opens with a blank line, the first piece is empty. The
  reply is then the whole completion, follow-up text included
  (`Completion.LeadingDelimiterKeepsWhole`).
- `split` resumes after each blank line it cuts at, so in a run of three
  newlines before the last piece the third newline stays in the follow-up
  (`Completion.ThreeNewlinesKeepOne`).

## Model

| member | source | states |
|---|---|---|
| `Text.Lower` | hooks/useConversation.ts:117 | one character of `toLowerCase`: only `A`–`Z` change, each to the letter 32 code points higher |
| `Text.LowerStr` | hooks/useConversation.ts:117 | `toLowerCase` on the ASCII letters: same length, each character lower-cased |
| `Text.IndexOf` | hooks/useConversation.ts:93 | the search `split` does: the result is an occurrence at or after the start, and no earlier position holds one; no result means no occurrence from the start on |
| `Text.Contains` | hooks/useConversation.ts:117 | no contract; `includes` is a found `IndexOf` from the start, characterised by `Text.ContainsIff` |
| `Text.ContainsIff` | hooks/useConversation.ts:117 | `includes` holds if and only if the substring occurs at some index |
| `Text.SplitFrom` | hooks/useConversation.ts:93 | the pieces of `split` from a start position, at least one; every cut is pinned by `Text.SplitScans` |
| `Text.SplitOn` | hooks/useConversation.ts:93 | `split` with a non-empty separator gives at least one piece |
| `Text.SplitJoin` | hooks/useConversation.ts:93 | joining the pieces of `split` with the separator gives back the original completion |
| `Text.SplitPiecesFree` | hooks/useConversation.ts:93 | no piece produced by `split` contains the separator |
| `Text.SplitSingle` | hooks/useConversation.ts:93-95 | `split` gives one piece exactly when the separator does not occur, and that piece is the whole string |
| `Text.SplitLast` | hooks/useConversation.ts:95 | with two or more pieces, the string is the earlier pieces joined, a separator, then the last piece |
| `Text.SplitScans` | hooks/useConversation.ts:93 | `split` cuts where a left-to-right scan does: each piece is the text at its start and ends at the first separator at or after that start; the last piece runs to the end with no separator left. This pins every piece, even in runs of separator characters |
| `Text.ScanEndStops` | hooks/useConversation.ts:93 | the scan resumes after each first occurrence and stops only where no separator is left |
| `Text.SplitFromLastPiece` | hooks/useConversation.ts:93-95 | the last piece is the text from where the scan stops to the end |
| `Text.SplitLastAfterScan` | hooks/useConversation.ts:93-95 | when the separator occurs, the scan stops just after an occurrence: the string ends with a separator followed by the last piece |
| `Rules.FirstMatchFrom` | hooks/useConversation.ts:28-46 | the row found is the first row whose trigger fires; no row found means no trigger fires |
| `Rules.Classify` | hooks/useConversation.ts:237-246 | the label is the default when no row fires, and otherwise the label of a firing row that no earlier row precedes |
| `Prompt.Persona` | hooks/useConversation.ts:29-45 | no contract; the body holds the five role-play texts of lines 29-45 |
| `Prompt.WithPersona` | hooks/useConversation.ts:29-45 | a persona prompt strictly extends the base prompt |
| `Prompt.SystemPrompt` | hooks/useConversation.ts:24-49 | every selected prompt begins with the base prompt |
| `Prompt.SystemPromptByTable` | hooks/useConversation.ts:27-48 | the `if` chain returns the base prompt plus the persona of the first firing trigger, in the order IT interview, Japanese restaurant, Japanese culture, train station, business networking; with no firing trigger it returns the base prompt |
| `Prompt.SystemPromptIsBaseIff` | hooks/useConversation.ts:48 | the prompt is exactly the base prompt if and only if none of the five triggers fires on the lower-cased utterance |
| `Prompt.JobInterviewGetsItPersona` | hooks/useConversation.ts:28-30 | "job interview" together with "it" anywhere (as in "with") always selects the IT-interviewer persona |
| `FollowUp.Question` | hooks/useConversation.ts:203-234 | no contract; the body holds the twenty questions of lines 204-233 by topic and position |
| `FollowUp.Questions` | hooks/useConversation.ts:203-234 | each topic's pool has four questions, in the source's order |
| `FollowUp.TopicOf` | hooks/useConversation.ts:237-246 | no contract; the body is the `if` chain of lines 237-246, equated to first-match selection by `FollowUp.TopicByTable` |
| `FollowUp.TopicByTable` | hooks/useConversation.ts:236-246 | the topic is the first matching bucket of business, travel, cultural, restaurant by their keywords, else casual |
| `FollowUp.FollowUpQuestion` | hooks/useConversation.ts:248-249 | the question is always one of the four in the pool of the utterance's topic |
| `FollowUp.FollowUpIgnoresReply` | hooks/useConversation.ts:202 | the assistant reply passed in has no effect on the question |
| `FollowUp.JapaneseRestaurantNotRestaurant` | hooks/useConversation.ts:242-245 | an utterance with "traditional japanese restaurant" never gets the restaurant bucket |
| `Completion.ParseCompletion` | hooks/useConversation.ts:93-95 | no contract; the body is lines 93-95, and its properties are `Completion.ParseWithoutDelimiter`, `ParseWithDelimiter` and `ParseMain` |
| `Completion.ParseWithoutDelimiter` | hooks/useConversation.ts:92-95 | with no blank line, the reply is the whole completion and the follow-up comes from the generator, from the topic's pool |
| `Completion.ParseWithDelimiter` | hooks/useConversation.ts:93-95 | with a blank line, the follow-up is exactly the text from where the left-to-right scan stops (after the first blank line at or after each piece's start) to the end; so the completion ends with a blank line followed by the follow-up, and the follow-up holds no blank line |
| `Completion.ThreeNewlinesKeepOne` | hooks/useConversation.ts:93-95 | for `"a\n\n\nb"` the follow-up is `"\nb"`: the first two newlines are the cut and the third stays in the follow-up |
| `Completion.ParseMain` | hooks/useConversation.ts:94 | the reply is the text before the first blank line when that text is non-empty, and otherwise the whole completion; it is a prefix of the completion and empty only when the completion is |
| `Completion.LeadingDelimiterKeepsWhole` | hooks/useConversation.ts:94 | a completion opening with a blank line is kept whole as the reply |
| `Feedback.Fires` | hooks/useConversation.ts:117-161 | no contract; the body is the five rule conditions of lines 117, 128, 139, 150 and 161 |
| `Feedback.RuleItem` | hooks/useConversation.ts:117-169 | the item a rule appends has that rule's kind |
| `Feedback.FiredBy` | hooks/useConversation.ts:116-169 | each item of the first n rules' output is the item of a rule among the first n that fires; at most n items |
| `Feedback.FiredSorted` | hooks/useConversation.ts:116-169 | items appear in strictly increasing rule order, so each rule contributes at most once |
| `Feedback.FiredComplete` | hooks/useConversation.ts:116-169 | every rule among the first n that fires contributes its item |
| `Feedback.FeedbackFor` | hooks/useConversation.ts:171-199 | the feedback list has between 1 and 5 items |
| `Feedback.GenerateFeedback` | hooks/useConversation.ts:113-200 | the list built by the five guarded appends and the fallback equals the rule-table reference `FeedbackFor` |
| `Feedback.FiredMembership` | hooks/useConversation.ts:116-169 | for any choice of firing rules, a rule's item is among the fired items if and only if that rule fires |
| `Feedback.FeedbackMembership` | hooks/useConversation.ts:117-169 | a rule's item is in the list if and only if that rule fires on the utterance |
| `Feedback.FeedbackFallback` | hooks/useConversation.ts:171-197 | the list is exactly the chosen encouraging item if and only if no rule fires |
| `Feedback.FeedbackOrdered` | hooks/useConversation.ts:116-199 | the list is in rule order; when some rule fires, every item is the item of a firing rule |
| `Feedback.GoodGetsGrammarCorrection` | hooks/useConversation.ts:117-125 | an utterance containing "i am good" after lower-casing always gets the grammar correction |
| `Feedback.ShortUtteranceExample` | hooks/useConversation.ts:150-158 | "Hi" always gets the fluency item |
| `Session.EnhancedPrompt` | hooks/useConversation.ts:61-70 | the system message strictly extends the selected prompt, and so the base prompt |
| `Session.History` | hooks/useConversation.ts:58 | the history has one role/content entry per earlier message, in order |
| `Session.Request` | hooks/useConversation.ts:77-86 | the request is the system message with the selected prompt, then every earlier message in order, then the new user message |
| `Session.AssistantReply` | hooks/useConversation.ts:92-102 | the assistant message carries a prefix of the completion, 1 to 5 feedback items and a follow-up question |
| `Session.AfterTurn` | hooks/useConversation.ts:51-111 | the old log is kept as a prefix and the user's message follows it; an assistant message with non-empty feedback is appended exactly when the completion arrived |
| `Session.AfterTurnWellFormed` | hooks/useConversation.ts:51-111 | a turn keeps the log well formed: user messages carry nothing extra, and each assistant message follows a user message and has ordered, non-empty feedback and a follow-up |
| `Session.ConversationSession.constructor` | hooks/useConversation.ts:20-22 | a session starts with an empty log and both flags false |
| `Session.ConversationSession.SendMessage` | hooks/useConversation.ts:51-111 | the history the request is built from is the log as it stood before the call, without the new user message; the new log is `AfterTurn` of the old one and stays well formed; loading is false on exit and recording is unchanged |
| `Session.ConversationSession.ResetConversation` | hooks/useConversation.ts:291-293 | the log becomes empty and neither flag changes |

## Left out

- `Text.LowerStr`: only `A`–`Z` are lower-cased. JavaScript's `toLowerCase` also maps other letters, some of them to ASCII (the Kelvin sign to `k`; `İ` to `i` plus a combining dot). An utterance that reaches a trigger only through such a mapping is not matched by the model.
- `Feedback.Fires`: the fluency rule counts Unicode scalar values. JavaScript's `length` counts UTF-16 code units, so a character outside the Basic Multilingual Plane counts once here and twice in the source.
- The `fetch` request, `response.json()`, `console.error` and `Alert.alert` are network and UI input/output. The outcome of the request is the parameter `CompletionResult`. `SendMessage` returns the history the body is built from, and the body itself is `Request(history, content)`.
- `Math.random` is floating point. Each random choice is a bounded index parameter.
- React's asynchronous `useState` updates. The history sent is the log as it stood before the call, which is what the stale closure reads at line 58.
- `Session.ConversationSession.SendMessage` and `Session.WellFormed` describe turns that run to their end before any other operation starts. While a request is pending, the conversation screen disables only the send button (`app/(tabs)/conversation.tsx:184`). The reset button (lines 69-71) and the scenario cards (lines 80-88) stay active. So a reset during a pending request makes line 104 add the reply to the emptied log, which then begins with an assistant message. A scenario card tapped after that reset starts a second `sendMessage` that overlaps the first. Neither interleaving is modelled, and `SendMessage` requires a well-formed log.
- `startRecording`, `stopRecording` and `playAudio` are mocked speech capture, the Web Speech API and platform checks. `isRecording` is kept as a field, and no modelled operation changes it.
- `hooks/usePronunciation.ts`, `hooks/useProgress.ts`, `hooks/useProfile.ts` and the screens under `app/` are not part of this model. They are mock scoring, key-value persistence wrappers and rendering.
