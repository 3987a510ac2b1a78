/**
 * One elicitation turn (`generateLlmResponse`): the system prompt built from
 * the data requirements, the message list sent to the model, and the
 * degrade-to-text policy for a failed call. The model itself is the
 * parameter `call`, which maps the message list sent to what came back.
 */
module Elicitation {
  import opened Chat
  import opened PyStr

  /**
   * The sentence whose appearance in a reply is the only completion signal.
   * It is one sentence; the literal is split in two only so that the prover
   * can evaluate its individual characters.
   */
  const Sentinel: string := "I have all the information I need." + " We can finalize now."

  /** The text every failed elicitation call is reported with, before the exception's text. */
  const ErrorPrefix: string := "Error calling OpenAI: "

  const PromptHead: string :=
    "\nYou are a compassionate clinical-trial AI assistant. \nThe trial requires collecting the following data: "

  const PromptMiddle: string :=
    "\n\nAsk clarifying questions if the user's answer is vague. \nOnce you believe you have all necessary data, say the exact phrase:\n\""

  const PromptTail: string :=
    "\"\n\nAfter that, do not ask further questions\U{2014}just wait for finalization.\nBe empathetic, but thorough.\n"

  /** The system prompt, with the data requirements and the quoted sentinel spliced in. */
  function SystemPrompt(dataRequirements: string): (prompt: string)
    ensures |prompt| == |PromptHead| + |dataRequirements| + |PromptMiddle| + |Sentinel| + |PromptTail|
    ensures OccursAt(prompt, dataRequirements, |PromptHead|)
    ensures OccursAt(prompt, Sentinel, |PromptHead| + |dataRequirements| + |PromptMiddle|)
  {
    PromptHead + dataRequirements + PromptMiddle + Sentinel + PromptTail
  }

  /** The prompt carries the data requirements verbatim and the sentinel sentence verbatim. */
  lemma PromptMentionsRequirementsAndSentinel(dataRequirements: string)
    ensures Occurs(dataRequirements, SystemPrompt(dataRequirements))
    ensures Occurs(Sentinel, SystemPrompt(dataRequirements))
  {
  }

  /** The message list for a turn: the system prompt, the history unchanged, then the user's new message. */
  function TurnMessages(dataRequirements: string, history: seq<Message>, nextQuestion: string): (messages: seq<Message>)
    ensures |messages| == |history| + 2
    ensures messages[0] == Message(System, SystemPrompt(dataRequirements))
    ensures messages[1..|history| + 1] == history
    ensures messages[|history| + 1] == Message(User, nextQuestion)
  {
    [Message(System, SystemPrompt(dataRequirements))] + history + [Message(User, nextQuestion)]
  }

  /** The reply text of a turn: the model's answer, or the error described as if it were the answer. */
  function Respond(dataRequirements: string, history: seq<Message>, nextQuestion: string,
                   call: seq<Message> -> CallResult): (reply: string)
    ensures call(TurnMessages(dataRequirements, history, nextQuestion)).Answer? ==>
              reply == call(TurnMessages(dataRequirements, history, nextQuestion)).content
    ensures call(TurnMessages(dataRequirements, history, nextQuestion)).Failure? ==>
              reply == ErrorPrefix + call(TurnMessages(dataRequirements, history, nextQuestion)).error
  {
    match call(TurnMessages(dataRequirements, history, nextQuestion))
    case Answer(content) => content
    case Failure(error) => ErrorPrefix + error
  }

  /** Builds the message list step by step, calls the model once and never raises. */
  method GenerateLlmResponse(dataRequirements: string, history: seq<Message>, nextQuestion: string,
                             call: seq<Message> -> CallResult) returns (reply: string)
    ensures reply == Respond(dataRequirements, history, nextQuestion, call)
  {
    var messages := [Message(System, SystemPrompt(dataRequirements))];
    messages := messages + history;
    messages := messages + [Message(User, nextQuestion)];
    assert messages == TurnMessages(dataRequirements, history, nextQuestion);
    var result := call(messages);
    match result {
      case Answer(content) => reply := content;
      case Failure(error) => reply := ErrorPrefix + error;
    }
  }

  /** The completion test: the exact, case-sensitive sentinel occurs somewhere in the reply. */
  predicate IsComplete(reply: string): (complete: bool)
    ensures complete <==> exists i :: OccursAt(reply, Sentinel, i)
  {
    Occurs(Sentinel, reply)
  }

  /**
   * A reply shorter than the sentinel, or of its length but different, does
   * not complete: the whole reply would have to be the match.
   */
  lemma NearMissDoesNotComplete(reply: string)
    requires |reply| < |Sentinel| || (|reply| == |Sentinel| && reply != Sentinel)
    ensures !IsComplete(reply)
  {
  }

  /**
   * The sentinel without its final period, or with its first letter
   * lower-cased, does not complete. (Literals split as in `Sentinel`.)
   */
  lemma NearMissesDoNotComplete()
    ensures !IsComplete("I have all the information I need." + " We can finalize now")
    ensures !IsComplete("i have all the information I need." + " We can finalize now.")
  {
    NearMissDoesNotComplete("I have all the information I need." + " We can finalize now");
    var lower := "i have all the information I need." + " We can finalize now.";
    assert lower[0] != Sentinel[0];
    NearMissDoesNotComplete(lower);
  }

  /**
   * A failed call completes the session exactly when the exception's own text
   * contains the sentinel: the fixed prefix never contributes to a match.
   */
  lemma {:induction false} FailureCompletesIffErrorTextDoes(error: string)
    ensures IsComplete(ErrorPrefix + error) <==> IsComplete(error)
  {
    var t := ErrorPrefix + error;
    assert Sentinel[0] == 'I' && Sentinel[1] == ' ';
    forall i | 0 <= i < |ErrorPrefix| ensures !OccursAt(t, Sentinel, i) {
      assert t[i] == ErrorPrefix[i];
      if i + 1 < |ErrorPrefix| {
        assert t[i + 1] == ErrorPrefix[i + 1];
      }
    }
    OccursAfterPrefix(ErrorPrefix, error, Sentinel);
  }
}
