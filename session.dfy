/**
 * The collection session (the `__main__` loop): each user input is answered,
 * the user entry and the assistant entry are appended, and the first reply
 * that contains the sentinel triggers one extraction and ends the loop. The
 * terminal's `input()` is the finite sequence `userInputs`; when it runs out
 * the session ends without extraction.
 */
module Session {
  import opened Wrappers
  import opened Chat
  import opened JsonValues
  import opened Elicitation
  import opened Extraction

  /** The assistant reply of turn `j` (turns are numbered from 0). */
  function ReplyAt(conversation: seq<Message>, j: nat): string
    requires 2 * j + 1 < |conversation|
  {
    conversation[2 * j + 1].content
  }

  /**
   * Turn `j` of the transcript is the user's `j`-th input followed by the
   * reply to it, computed from exactly the entries before it.
   */
  predicate TurnMatches(dataRequirements: string, userInputs: seq<string>, call: seq<Message> -> CallResult,
                        conversation: seq<Message>, j: nat)
    requires 2 * j + 1 < |conversation| && j < |userInputs|
  {
    && conversation[2 * j] == Message(User, userInputs[j])
    && conversation[2 * j + 1] == Message(Assistant, Respond(dataRequirements, conversation[..2 * j], userInputs[j], call))
  }

  /** Appending entries after a turn does not change that turn. */
  lemma TurnMatchesExtend(dataRequirements: string, userInputs: seq<string>, call: seq<Message> -> CallResult,
                          conversation: seq<Message>, more: seq<Message>, j: nat)
    requires 2 * j + 1 < |conversation| && j < |userInputs|
    requires TurnMatches(dataRequirements, userInputs, call, conversation, j)
    ensures TurnMatches(dataRequirements, userInputs, call, conversation + more, j)
  {
    assert (conversation + more)[..2 * j] == conversation[..2 * j];
  }

  /** One turn appended to a well-formed transcript keeps every earlier turn and adds a matching one. */
  lemma AppendTurn(dataRequirements: string, userInputs: seq<string>, call: seq<Message> -> CallResult,
                   before: seq<Message>, turn: nat, reply: string)
    requires |before| == 2 * turn && turn < |userInputs|
    requires forall j: nat :: j < turn ==> TurnMatches(dataRequirements, userInputs, call, before, j)
    requires forall j: nat :: j < turn ==> !IsComplete(ReplyAt(before, j))
    requires reply == Respond(dataRequirements, before, userInputs[turn], call)
    ensures var after := before + [Message(User, userInputs[turn]), Message(Assistant, reply)];
            && (forall j: nat :: j <= turn ==> TurnMatches(dataRequirements, userInputs, call, after, j))
            && (forall j: nat :: j < turn ==> !IsComplete(ReplyAt(after, j)))
  {
    var after := before + [Message(User, userInputs[turn]), Message(Assistant, reply)];
    forall j: nat | j < turn
      ensures TurnMatches(dataRequirements, userInputs, call, after, j)
      ensures !IsComplete(ReplyAt(after, j))
    {
      TurnMatchesExtend(dataRequirements, userInputs, call, before,
                        [Message(User, userInputs[turn]), Message(Assistant, reply)], j);
      assert ReplyAt(after, j) == ReplyAt(before, j);
    }
    assert after[..2 * turn] == before;
    assert TurnMatches(dataRequirements, userInputs, call, after, turn);
  }

  /** Runs turns until a reply completes the session or the inputs run out. */
  method RunSession(dataRequirements: string, userInputs: seq<string>, call: seq<Message> -> CallResult,
                    schemaInstructions: string, fieldnames: Option<seq<string>>,
                    parseCall: seq<Message> -> CallResult, decode: string -> Option<Json>, today: string)
    returns (conversation: seq<Message>, extraction: Option<Outcome>)
    ensures |conversation| % 2 == 0 && |conversation| / 2 <= |userInputs|
    ensures forall j: nat :: j < |conversation| / 2 ==>
              TurnMatches(dataRequirements, userInputs, call, conversation, j)
    ensures forall j: nat :: j + 1 < |conversation| / 2 ==> !IsComplete(ReplyAt(conversation, j))
    ensures extraction.Some? <==>
              |conversation| > 0 && IsComplete(ReplyAt(conversation, |conversation| / 2 - 1))
    ensures extraction.None? ==> |conversation| == 2 * |userInputs|
    ensures extraction.Some? ==>
              extraction.value == Extract(conversation, schemaInstructions, fieldnames, parseCall, decode, today)
  {
    conversation := [];
    extraction := None;
    var turn := 0;
    while turn < |userInputs|
      invariant turn <= |userInputs|
      invariant |conversation| == 2 * turn
      invariant forall j: nat :: j < turn ==> TurnMatches(dataRequirements, userInputs, call, conversation, j)
      invariant forall j: nat :: j < turn ==> !IsComplete(ReplyAt(conversation, j))
    {
      var reply := GenerateLlmResponse(dataRequirements, conversation, userInputs[turn], call);
      ghost var before := conversation;
      conversation := conversation + [Message(User, userInputs[turn])];
      conversation := conversation + [Message(Assistant, reply)];
      AppendTurn(dataRequirements, userInputs, call, before, turn, reply);
      assert conversation == before + [Message(User, userInputs[turn]), Message(Assistant, reply)];
      assert |conversation| / 2 == turn + 1 && ReplyAt(conversation, turn) == reply;
      if IsComplete(reply) {
        var outcome := ParseFinalConversation(conversation, schemaInstructions, fieldnames, parseCall, decode, today);
        extraction := Some(outcome);
        break;
      }
      turn := turn + 1;
    }
    assert extraction.None? ==> |conversation| / 2 == |userInputs|;
  }
}
