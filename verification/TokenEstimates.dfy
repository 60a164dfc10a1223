// What the token estimate counts: four bytes a token, rounded up for each message, over its content and
// the names and arguments of its calls.
module TokenEstimates {
  import opened Context

  lemma {:induction false} CallCharsConcat(a: seq<ToolCall>, b: seq<ToolCall>)
    ensures CallChars(a + b) == CallChars(a) + CallChars(b)
  {
    if a == [] {
      assert a + b == b;
    } else {
      assert (a + b)[1..] == a[1..] + b;
      CallCharsConcat(a[1..], b);
    }
  }

  /** A call adds its name and its arguments, wherever it stands among the calls. */
  lemma CallCharsOf(a: seq<ToolCall>, call: ToolCall, b: seq<ToolCall>)
    ensures CallChars(a + [call] + b) == CallChars(a) + |call.name| + |call.args| + CallChars(b)
    ensures CallChars([]) == 0
  {
    CallCharsConcat(a, [call]);
    CallCharsConcat(a + [call], b);
    assert [call][1..] == [];
  }

  /** The estimate is the least number of tokens that four bytes each make up the message. */
  lemma CountIsLeast(m: Message)
    ensures var bytes := |m.content| + CallChars(m.toolCalls);
      4 * CountMessage(m) >= bytes && forall n: nat :: 4 * n >= bytes ==> CountMessage(m) <= n
  {
  }

  /** A message costs at least a quarter of the arguments of any of its calls. */
  lemma ArgumentsCost(m: Message, k: nat)
    requires k < |m.toolCalls|
    ensures 4 * CountMessage(m) >= |m.content| + |m.toolCalls[k].name| + |m.toolCalls[k].args|
  {
    var calls := m.toolCalls;
    assert calls == calls[..k] + [calls[k]] + calls[k + 1..];
    CallCharsOf(calls[..k], calls[k], calls[k + 1..]);
    CountIsLeast(m);
  }

  /** The estimate of a history is the sum over its messages. */
  lemma CountAround(a: History, m: Message, b: History)
    ensures Count(a + [m] + b) == Count(a) + CountMessage(m) + Count(b)
    ensures Count([]) == 0
  {
    CountSnoc(a, m);
    CountConcat(a + [m], b);
  }

  /** A call with arguments of more than four times the limit puts every history over it. */
  lemma LongCallIsOverLimit(h: History, i: nat, k: nat, limit: nat)
    requires i < |h| && k < |h[i].toolCalls| && |h[i].toolCalls[k].args| > 4 * limit
    ensures Count(h) > limit
  {
    assert h == h[..i] + [h[i]] + h[i + 1..];
    CountAround(h[..i], h[i], h[i + 1..]);
    ArgumentsCost(h[i], k);
  }

  /** Within the budget a history is sent as it is. */
  lemma WithinBudgetIsKept(budget: nat, h: History)
    requires Count(h) <= budget
    ensures Compacted(budget, h) == h
  {
  }

  /** A long call makes the user's question give way to the marker. */
  lemma LongCallDropsTheQuestion(system: string, question: string, call: ToolCall, result: string)
    requires |call.args| > 400_000
    ensures var turn := [AssistantMessage("", [call]), ToolMessage(call.id, result)];
      Compacted(100_000, [SystemMessage(system), UserMessage(question)] + turn)
        == [SystemMessage(system)] + ([MARKER] + turn)
  {
    LatestTurnOnly(SystemMessage(system), UserMessage(question), AssistantMessage("", [call]), ToolMessage(call.id, result),
      100_000);
  }

  /** A turn whose call is over budget is all that is kept of the conversation. */
  lemma LatestTurnOnly(system: Message, question: Message, m: Message, result: Message, budget: nat)
    requires system.role.System? && question.role.User? && m.role.Assistant? && result.role.Tool?
    requires |m.toolCalls| == 1 && |m.toolCalls[0].args| > 4 * budget
    ensures Compacted(budget, [system, question] + [m, result]) == [system] + ([MARKER] + [m, result])
  {
    var h := [system, question] + [m, result];
    LongCallIsOverLimit(h, 2, 0, budget);
    LongCallIsOverLimit([m, result], 0, 0, budget);
    TurnBehindQuestion(system, question, m, result);
    LatestBlockOnly([m, result], [question], BudgetLeft(budget, h));
  }

  /** The parts of such a history. */
  lemma TurnBehindQuestion(system: Message, question: Message, m: Message, result: Message)
    requires system.role.System? && question.role.User? && m.role.Assistant? && result.role.Tool?
    ensures var h := [system, question] + [m, result];
      SystemPart(h) == [system] && Rest(h) == [question, m, result] && Blocks(Rest(h)) == [[question], [m, result]]
  {
    var rest := [question, m, result];
    assert [system, question] + [m, result] == [system] + rest;
    OfSystemConcat([system], rest, true);
    OfSystemConcat([system], rest, false);
    OfSystemUniform([system], true);
    OfSystemUniform(rest, false);
    QuestionAndTurn(question, m, result);
  }

  lemma QuestionAndTurn(question: Message, m: Message, result: Message)
    requires question.role.User? && m.role.Assistant? && result.role.Tool?
    ensures Blocks([question, m, result]) == [[question], [m, result]]
  {
    FlatConcat([[question]], [[m, result]]);
    FlatSingle([question]);
    FlatSingle([m, result]);
    assert [[question]] + [[m, result]] == [[question], [m, result]];
    assert [question] + [m, result] == [question, m, result];
    CutsAreBlocks([question, m, result], [[question], [m, result]]);
  }

  lemma LatestBlockOnly(turn: History, question: History, left: nat)
    requires turn != [] && Count(turn) > left
    ensures Flat(KeptTail([question, turn], left)) == turn
  {
    var blocks := [question, turn];
    assert blocks[..1] == [question] && blocks[1..] == [turn];
    FlatSingle(turn);
  }
}
