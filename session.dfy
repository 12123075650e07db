/** The conversation session of `useConversation`: the message log and the
    loading and recording flags, and the two operations that change them,
    `sendMessage` and `resetConversation`. The network call is replaced by its
    outcome, given as a parameter, and each random choice by an index. */
module Session {
  import opened Wrappers
  import opened Prompt
  import opened Completion
  import opened Feedback

  datatype Role = User | Assistant

  /** A chat message; only assistant messages carry feedback and a follow-up. */
  datatype Message = Message(
    role: Role,
    content: string,
    feedback: Option<seq<FeedbackItem>>,
    followUpQuestion: Option<string>)

  /** One `{role, content}` entry of the request sent to the completion service. */
  datatype ChatRole = SystemRole | UserRole | AssistantRole
  datatype ChatEntry = ChatEntry(role: ChatRole, content: string)

  /** What the awaited request yields: the `completion` text, or any failure
      (network, response decoding, missing `completion`) that lands in `catch`. */
  datatype CompletionResult = Success(completion: string) | Failure

  /** The instructions appended to the system prompt, asking for a reply and a
      follow-up question separated by a blank line. */
  const FollowUpInstructions: string := "\n\nIMPORTANT: After providing your response, generate a thoughtful follow-up question that:\n1. Encourages the user to elaborate on their thoughts\n2. Pushes their communicative abilities\n3. Maintains conversational context\n4. Goes beyond simple acknowledgments\n5. Is relevant to the current conversation topic\n\nFormat your response as: [YOUR_RESPONSE]\n\n[FOLLOW_UP_QUESTION]"

  /** The system message of a request: the selected prompt and the instructions. */
  function EnhancedPrompt(content: string): (p: string)
    ensures SystemPrompt(content) < p
    ensures BasePrompt < p
  {
    SystemPrompt(content) + FollowUpInstructions
  }

  function ChatRoleOf(r: Role): ChatRole
  {
    match r
    case User => UserRole
    case Assistant => AssistantRole
  }

  /** `messages.map(m => ({ role: m.role, content: m.content }))`. */
  function History(log: seq<Message>): (h: seq<ChatEntry>)
    ensures |h| == |log|
    ensures forall i :: 0 <= i < |log| ==> h[i] == ChatEntry(ChatRoleOf(log[i].role), log[i].content)
  {
    if log == [] then [] else History(log[..|log| - 1]) + [ChatEntry(ChatRoleOf(log[|log| - 1].role), log[|log| - 1].content)]
  }

  /** The request body's message list for a new utterance after `history`. */
  function Request(history: seq<Message>, content: string): (req: seq<ChatEntry>)
    ensures |req| == |history| + 2
    ensures req[0].role == SystemRole && SystemPrompt(content) < req[0].content
    ensures forall i :: 0 <= i < |history| ==>
      req[i + 1] == ChatEntry(ChatRoleOf(history[i].role), history[i].content)
    ensures req[|req| - 1] == ChatEntry(UserRole, content)
  {
    var system := ChatEntry(SystemRole, EnhancedPrompt(content));
    var past := History(history);
    var req := [system] + past + [ChatEntry(UserRole, content)];
    assert req[0] == system;
    assert forall i :: 0 <= i < |history| ==> req[i + 1] == past[i];
    req
  }

  function UserMessage(content: string): Message
  {
    Message(User, content, None, None)
  }

  /** The assistant message built from a successful completion. */
  function AssistantReply(content: string, completion: string, followPick: nat, feedbackPick: nat): (m: Message)
    requires followPick < 4 && feedbackPick < |PositiveItems|
    ensures m.role == Assistant && m.content <= completion
    ensures m.feedback.Some? && 1 <= |m.feedback.value| <= |RuleOrder|
    ensures m.followUpQuestion.Some?
  {
    ParseMain(completion, content, followPick);
    var parsed := ParseCompletion(completion, content, followPick);
    Message(Assistant, parsed.main, Some(FeedbackFor(content, feedbackPick)), Some(parsed.followUp))
  }

  /** The log after one `sendMessage`: the user's message always, then the
      assistant's reply only when the completion arrived. */
  function AfterTurn(log: seq<Message>, content: string, result: CompletionResult,
                     followPick: nat, feedbackPick: nat): (log': seq<Message>)
    requires followPick < 4 && feedbackPick < |PositiveItems|
    ensures |log'| == |log| + (if result.Success? then 2 else 1)
    ensures log'[..|log|] == log && log'[|log|] == UserMessage(content)
    ensures result.Success? ==> log'[|log| + 1].role == Assistant
    ensures result.Success? ==> log'[|log| + 1].feedback.Some? && log'[|log| + 1].feedback.value != []
  {
    match result
    case Failure => log + [UserMessage(content)]
    case Success(completion) =>
      log + [UserMessage(content), AssistantReply(content, completion, followPick, feedbackPick)]
  }

  /** The message at position `i` has the shape its role calls for: a user
      message carries no feedback or follow-up; an assistant message directly
      answers a user message and carries a non-empty feedback list in rule
      order and a follow-up. */
  predicate WellPlaced(log: seq<Message>, i: nat)
    requires i < |log|
  {
    match log[i].role
    case User => log[i].feedback.None? && log[i].followUpQuestion.None?
    case Assistant =>
      && 0 < i && log[i - 1].role == User
      && log[i].feedback.Some? && 1 <= |log[i].feedback.value| <= |RuleOrder|
      && InRuleOrder(log[i].feedback.value)
      && log[i].followUpQuestion.Some?
  }

  /** The shape a log keeps while each turn runs to its end before the next
      operation: a reset or a second send during a pending request can leave
      an assistant message at the head of the log. */
  predicate WellFormed(log: seq<Message>)
  {
    forall i: nat :: i < |log| ==> WellPlaced(log, i)
  }

  /** A turn keeps the log well formed. */
  lemma AfterTurnWellFormed(log: seq<Message>, content: string, result: CompletionResult,
                            followPick: nat, feedbackPick: nat)
    requires followPick < 4 && feedbackPick < |PositiveItems|
    requires WellFormed(log)
    ensures WellFormed(AfterTurn(log, content, result, followPick, feedbackPick))
  {
    FeedbackOrdered(content, feedbackPick);
    var log' := AfterTurn(log, content, result, followPick, feedbackPick);
    forall i: nat | i < |log'| ensures WellPlaced(log', i) {
      if i < |log| {
        assert log'[i] == log[i] by { assert log'[..|log|][i] == log[i]; }
        assert WellPlaced(log, i);
        if 0 < i {
          assert log'[i - 1] == log[i - 1] by { assert log'[..|log|][i - 1] == log[i - 1]; }
        }
      }
    }
  }

  class ConversationSession {
    var messages: seq<Message>
    var isLoading: bool
    var isRecording: bool

    ghost predicate Valid()
      reads this
    {
      WellFormed(messages)
    }

    /** The three `useState` initial values. */
    constructor ()
      ensures Valid()
      ensures messages == [] && !isLoading && !isRecording
    {
      messages := [];
      isLoading := false;
      isRecording := false;
    }

    /** `sendMessage(content)`. Returns the log the request is built from,
        which is the log as it was before the user's message was appended:
        the body sent is `Request(history, content)`. `result` is what the
        request yields. */
    method SendMessage(content: string, result: CompletionResult, followPick: nat, feedbackPick: nat)
      returns (history: seq<Message>)
      requires Valid()
      requires followPick < 4 && feedbackPick < |PositiveItems|
      modifies this
      ensures Valid()
      ensures history == old(messages)
      ensures messages == AfterTurn(old(messages), content, result, followPick, feedbackPick)
      ensures !isLoading
      ensures isRecording == old(isRecording)
    {
      history := messages;
      messages := history + [UserMessage(content)];
      isLoading := true;

      match result {
        case Success(completion) =>
          var parsed := ParseCompletion(completion, content, followPick);
          var feedback := GenerateFeedback(content, feedbackPick);
          var reply := Message(Assistant, parsed.main, Some(feedback), Some(parsed.followUp));
          assert reply == AssistantReply(content, completion, followPick, feedbackPick);
          messages := messages + [reply];
          assert messages == history + [UserMessage(content), reply];
        case Failure =>
      }
      isLoading := false;
      AfterTurnWellFormed(history, content, result, followPick, feedbackPick);
    }

    /** `resetConversation()`: empties the log and leaves both flags alone. */
    method ResetConversation()
      requires Valid()
      modifies this`messages
      ensures Valid()
      ensures messages == []
      ensures isLoading == old(isLoading) && isRecording == old(isRecording)
    {
      messages := [];
    }
  }
}
