// `ContextManager`: token estimates, and compaction of a chat history to a token budget in blocks
// of one message and the tool results that follow it.
module Context {
  import opened Text

  datatype Role = System | User | Assistant | Tool

  /** `args` is the rendered JSON of the arguments. Strings stand for their UTF-8 bytes. */
  datatype ToolCall = ToolCall(id: string, name: string, args: string)

  datatype Message = Message(role: Role, content: string, toolCalls: seq<ToolCall>, toolCallId: Option<string>)

  function SystemMessage(content: string): Message { Message(System, content, [], None) }
  function UserMessage(content: string): Message { Message(User, content, [], None) }
  function AssistantMessage(content: string, calls: seq<ToolCall>): Message { Message(Assistant, content, calls, None) }
  function ToolMessage(id: string, content: string): Message { Message(Tool, content, [], Some(id)) }

  type History = seq<Message>

  // ---------------------------------------------------------------- token estimates

  const APPROX_CHARS_PER_TOKEN := 4

  function CallChars(calls: seq<ToolCall>): nat {
    if calls == [] then 0 else |calls[0].name| + |calls[0].args| + CallChars(calls[1..])
  }

  function CountMessage(m: Message): nat {
    (|m.content| + CallChars(m.toolCalls) + APPROX_CHARS_PER_TOKEN - 1) / APPROX_CHARS_PER_TOKEN
  }

  function Count(h: History): nat {
    if h == [] then 0 else Count(h[..|h| - 1]) + CountMessage(h[|h| - 1])
  }

  lemma {:induction false} CountConcat(a: History, b: History)
    ensures Count(a + b) == Count(a) + Count(b)
  {
    if b == [] {
      assert a + b == a;
    } else {
      assert (a + b)[..|a + b| - 1] == a + b[..|b| - 1];
      CountConcat(a, b[..|b| - 1]);
    }
  }

  const MARKER := UserMessage("[Earlier context truncated]")

  lemma MarkerCost()
    ensures CountMessage(MARKER) == 7
  {
    assert |MARKER.content| == 27;
  }

  // ---------------------------------------------------------------- system and other messages

  function OfSystem(h: History, system: bool): History {
    if h == [] then []
    else OfSystem(h[..|h| - 1], system) + if h[|h| - 1].role.System? == system then [h[|h| - 1]] else []
  }

  function SystemPart(h: History): History { OfSystem(h, true) }
  function Rest(h: History): History { OfSystem(h, false) }

  lemma {:induction false} OfSystemConcat(a: History, b: History, system: bool)
    ensures OfSystem(a + b, system) == OfSystem(a, system) + OfSystem(b, system)
  {
    if b == [] {
      assert a + b == a;
    } else {
      assert (a + b)[..|a + b| - 1] == a + b[..|b| - 1];
      OfSystemConcat(a, b[..|b| - 1], system);
    }
  }

  lemma {:induction false} OfSystemUniform(h: History, system: bool)
    requires forall i :: 0 <= i < |h| ==> h[i].role.System? == system
    ensures OfSystem(h, system) == h && OfSystem(h, !system) == []
  {
    if h != [] {
      OfSystemUniform(h[..|h| - 1], system);
    }
  }

  lemma {:induction false} OfSystemRoles(h: History, system: bool)
    ensures forall i :: 0 <= i < |OfSystem(h, system)| ==> OfSystem(h, system)[i].role.System? == system
  {
    if h != [] {
      OfSystemRoles(h[..|h| - 1], system);
    }
  }

  lemma {:induction false} PartsCount(h: History)
    ensures Count(SystemPart(h)) + Count(Rest(h)) == Count(h)
  {
    if h != [] {
      var front, m := h[..|h| - 1], h[|h| - 1];
      PartsCount(front);
      if m.role.System? {
        assert Rest(h) == Rest(front);
        CountSnoc(SystemPart(front), m);
      } else {
        assert SystemPart(h) == SystemPart(front);
        CountSnoc(Rest(front), m);
      }
    }
  }

  lemma CountSnoc(h: History, m: Message)
    ensures Count(h + [m]) == Count(h) + CountMessage(m)
  {
    assert (h + [m])[..|h|] == h;
  }

  // ---------------------------------------------------------------- blocks

  /** A message and the tool results after it; tool results before any other message form a block. */
  function Blocks(rest: History): seq<History> {
    if rest == [] then []
    else
      var before := Blocks(rest[..|rest| - 1]);
      var m := rest[|rest| - 1];
      if m.role.Tool? && before != [] then before[..|before| - 1] + [before[|before| - 1] + [m]]
      else before + [[m]]
  }

  function Flat(blocks: seq<History>): History {
    if blocks == [] then [] else Flat(blocks[..|blocks| - 1]) + blocks[|blocks| - 1]
  }

  predicate TurnBlock(b: History) {
    b != [] && forall p :: 1 <= p < |b| ==> b[p].role.Tool?
  }

  predicate StartsTurn(b: History) {
    b != [] && !b[0].role.Tool?
  }

  predicate TurnBlocks(blocks: seq<History>) {
    && (forall k :: 0 <= k < |blocks| ==> TurnBlock(blocks[k]))
    && (forall k :: 1 <= k < |blocks| ==> StartsTurn(blocks[k]))
  }

  /** The blocks cut `rest` exactly before each message that is not a tool result. */
  predicate CutsAtTurns(rest: History, blocks: seq<History>) {
    Flat(blocks) == rest && TurnBlocks(blocks)
  }

  lemma {:induction false} FlatConcat(a: seq<History>, b: seq<History>)
    ensures Flat(a + b) == Flat(a) + Flat(b)
  {
    if b == [] {
      assert a + b == a;
    } else {
      assert (a + b)[..|a + b| - 1] == a + b[..|b| - 1];
      FlatConcat(a, b[..|b| - 1]);
    }
  }

  lemma FlatSingle(b: History)
    ensures Flat([b]) == b
  {
    assert [b][..0] == [];
  }

  lemma BlocksSnoc(rest: History, m: Message)
    ensures var before := Blocks(rest);
      Blocks(rest + [m]) ==
        if m.role.Tool? && before != [] then before[..|before| - 1] + [before[|before| - 1] + [m]]
        else before + [[m]]
  {
    assert (rest + [m])[..|rest|] == rest;
  }

  lemma ExtendLastBlock(blocks: seq<History>, m: Message)
    requires TurnBlocks(blocks) && blocks != [] && m.role.Tool?
    ensures var more := blocks[..|blocks| - 1] + [blocks[|blocks| - 1] + [m]];
      TurnBlocks(more) && Flat(more) == Flat(blocks) + [m]
  {
    var front, last := blocks[..|blocks| - 1], blocks[|blocks| - 1];
    FlatConcat(front, [last + [m]]);
    FlatSingle(last + [m]);
  }

  lemma AddBlock(blocks: seq<History>, m: Message)
    requires TurnBlocks(blocks) && (blocks == [] || !m.role.Tool?)
    ensures TurnBlocks(blocks + [[m]]) && Flat(blocks + [[m]]) == Flat(blocks) + [m]
  {
    FlatConcat(blocks, [[m]]);
    FlatSingle([m]);
  }

  lemma {:induction false} BlocksCut(rest: History)
    ensures CutsAtTurns(rest, Blocks(rest))
  {
    if rest != [] {
      var front, m := rest[..|rest| - 1], rest[|rest| - 1];
      BlocksCut(front);
      assert rest == front + [m];
      BlocksSnoc(front, m);
      if m.role.Tool? && Blocks(front) != [] {
        ExtendLastBlock(Blocks(front), m);
      } else {
        AddBlock(Blocks(front), m);
      }
    }
  }

  lemma FlatShortened(front: seq<History>, last: History, m: Message)
    ensures Flat(front + [last + [m]]) == Flat(front + if last == [] then [] else [last]) + [m]
  {
    FlatConcat(front, [last + [m]]);
    FlatSingle(last + [m]);
    if last == [] {
      assert front + [] == front;
    } else {
      FlatConcat(front, [last]);
      FlatSingle(last);
    }
  }

  /** The cut with the last message taken away. */
  lemma CutShortened(rest: History, blocks: seq<History>)
    returns (shorter: History, front: seq<History>, last: History, m: Message)
    requires CutsAtTurns(rest, blocks) && blocks != []
    ensures blocks == front + [last + [m]] && rest == shorter + [m]
    ensures last == [] ==> CutsAtTurns(shorter, front) && (m.role.Tool? ==> front == [])
    ensures last != [] ==> CutsAtTurns(shorter, front + [last]) && m.role.Tool?
  {
    var whole := blocks[|blocks| - 1];
    front, last, m := blocks[..|blocks| - 1], whole[..|whole| - 1], whole[|whole| - 1];
    assert whole == last + [m] && blocks == front + [last + [m]];
    shorter := Flat(front + if last == [] then [] else [last]);
    assert front + [] == front;
    FlatShortened(front, last, m);
    TurnBlocksShortened(front, last, m);
  }

  lemma TurnBlocksShortened(front: seq<History>, last: History, m: Message)
    requires TurnBlocks(front + [last + [m]])
    ensures TurnBlocks(front)
    ensures last == [] ==> m.role.Tool? ==> front == []
    ensures last != [] ==> TurnBlocks(front + [last]) && m.role.Tool?
  {
    var blocks, n := front + [last + [m]], |front|;
    assert TurnBlock(blocks[n]) && (n >= 1 ==> StartsTurn(blocks[n]));
    assert forall k :: 0 <= k < n ==> blocks[k] == front[k];
    assert blocks[n] == last + [m];
    if last != [] {
      assert m == blocks[n][|last|];
      assert forall p :: 0 <= p < |last| ==> last[p] == blocks[n][p];
      assert TurnBlock(last) && (n >= 1 ==> StartsTurn(last));
    }
  }

  /** Cutting is unambiguous: whatever cuts at the turns is what `Blocks` computes. */
  lemma {:induction false} CutsAreBlocks(rest: History, blocks: seq<History>)
    requires CutsAtTurns(rest, blocks)
    ensures blocks == Blocks(rest)
    decreases |rest|
  {
    if blocks != [] {
      var shorter, front, last, m := CutShortened(rest, blocks);
      BlocksSnoc(shorter, m);
      if last == [] {
        CutsAreBlocks(shorter, front);
      } else {
        CutsAreBlocks(shorter, front + [last]);
        assert (front + [last])[..|front|] == front;
      }
    }
  }

  // ---------------------------------------------------------------- what compaction keeps

  function Cost(blocks: seq<History>): nat { Count(Flat(blocks)) }

  /** The blocks from the end that fit, stopping at the first that does not. */
  function FittingTail(blocks: seq<History>, left: nat): seq<History> {
    if blocks == [] then []
    else
      var last := blocks[|blocks| - 1];
      if Count(last) <= left then FittingTail(blocks[..|blocks| - 1], left - Count(last)) + [last]
      else []
  }

  /** The fitting tail, but never without the last block. */
  function KeptTail(blocks: seq<History>, left: nat): seq<History> {
    if blocks != [] && Count(blocks[|blocks| - 1]) > left then [blocks[|blocks| - 1]]
    else FittingTail(blocks, left)
  }

  function Marked(kept: History): History {
    if kept != [] && !kept[0].role.User? then [MARKER] + kept else kept
  }

  function BudgetLeft(budget: nat, h: History): nat {
    if Count(SystemPart(h)) <= budget then budget - Count(SystemPart(h)) else 0
  }

  function Compacted(budget: nat, h: History): History {
    if Count(h) <= budget then h
    else SystemPart(h) + Marked(Flat(KeptTail(Blocks(Rest(h)), BudgetLeft(budget, h))))
  }

  // ---------------------------------------------------------------- the algorithm

  method Partition(messages: History) returns (system: History, rest: History)
    ensures system == SystemPart(messages) && rest == Rest(messages)
  {
    system, rest := [], [];
    for k := 0 to |messages|
      invariant system == SystemPart(messages[..k]) && rest == Rest(messages[..k])
    {
      assert messages[..k + 1][..k] == messages[..k];
      if messages[k].role.System? {
        system := system + [messages[k]];
      } else {
        rest := rest + [messages[k]];
      }
    }
    assert messages[..|messages|] == messages;
  }

  /** The closed blocks and the one still open. */
  function WithOpen(blocks: seq<History>, currentBlock: History): seq<History> {
    if currentBlock == [] then blocks else blocks + [currentBlock]
  }

  lemma GroupStep(seen: History, m: Message, blocks: seq<History>, currentBlock: History)
    requires Blocks(seen) == WithOpen(blocks, currentBlock) && (currentBlock == [] ==> blocks == [])
    ensures m.role.Tool? ==> Blocks(seen + [m]) == WithOpen(blocks, currentBlock + [m])
    ensures !m.role.Tool? ==> Blocks(seen + [m]) == WithOpen(WithOpen(blocks, currentBlock), [m])
  {
    BlocksSnoc(seen, m);
    if currentBlock != [] {
      assert (blocks + [currentBlock])[..|blocks|] == blocks;
    } else {
      assert currentBlock + [m] == [m];
    }
  }

  method GroupBlocks(rest: History) returns (blocks: seq<History>)
    ensures blocks == Blocks(rest)
  {
    blocks := [];
    var currentBlock: History := [];
    ghost var seen: History := [];
    for k := 0 to |rest|
      invariant seen == rest[..k]
      invariant Blocks(seen) == WithOpen(blocks, currentBlock)
      invariant currentBlock == [] ==> blocks == []
    {
      var m := rest[k];
      GroupStep(seen, m, blocks, currentBlock);
      seen := seen + [m];
      if m.role.Tool? {
        currentBlock := currentBlock + [m];
      } else {
        if currentBlock != [] {
          blocks := blocks + [currentBlock];
        }
        currentBlock := [m];
      }
    }
    if currentBlock != [] {
      blocks := blocks + [currentBlock];
    }
    assert seen == rest;
  }

  /** Collects blocks from the tail. */
  method KeepFromTail(blocks: seq<History>, budget: nat) returns (kept: seq<History>)
    ensures kept == KeptTail(blocks, budget)
  {
    kept := [];
    var budgetLeft: nat := budget;
    var k := |blocks|;
    assert blocks[..k] == blocks;
    while k > 0
      invariant 0 <= k <= |blocks|
      invariant KeptTail(blocks, budget) ==
        if kept == [] then KeptTail(blocks[..k], budgetLeft) else FittingTail(blocks[..k], budgetLeft) + kept
      invariant kept == [] ==> k == |blocks|
    {
      var block := blocks[k - 1];
      assert blocks[..k][..k - 1] == blocks[..k - 1];
      if budgetLeft >= Count(block) {
        budgetLeft := budgetLeft - Count(block);
        kept := [block] + kept;
      } else if kept == [] {
        kept := [block];
        return;
      } else {
        return;
      }
      k := k - 1;
    }
  }

  /** The result is the history itself or a marker and the history, the shorter of those a user leads. */
  lemma MarkedIsLeast(kept: History, flattened: History)
    requires flattened != [] ==> flattened[0].role.User?
    requires flattened == kept || flattened == [MARKER] + kept
    requires kept == [] || kept[0].role.User? ==> flattened == kept
    ensures flattened == Marked(kept)
  {
  }

  /** Tells the model that older messages are gone, unless what is kept starts with the user's words. */
  method AddMarker(kept: History) returns (flattened: History)
    ensures flattened != [] ==> flattened[0].role.User?
    ensures flattened == kept || flattened == [MARKER] + kept
    ensures kept == [] || kept[0].role.User? ==> flattened == kept
  {
    flattened := kept;
    if flattened != [] && !flattened[0].role.User? {
      flattened := [MARKER] + flattened;
    }
  }

  method Compact(budget: nat, messages: History) returns (compacted: History)
    ensures compacted == Compacted(budget, messages)
  {
    var total := Count(messages);
    if total <= budget {
      return messages;
    }
    compacted := CompactOverBudget(budget, messages);
  }

  /** What `compact` does to a history over budget. */
  method CompactOverBudget(budget: nat, messages: History) returns (compacted: History)
    ensures compacted
      == SystemPart(messages) + Marked(Flat(KeptTail(Blocks(Rest(messages)), BudgetLeft(budget, messages))))
  {
    var system, rest := Partition(messages);
    var budgetLeft := if Count(system) <= budget then budget - Count(system) else 0;
    assert budgetLeft == BudgetLeft(budget, messages);
    var blocks := GroupBlocks(rest);
    var kept := KeepFromTail(blocks, budgetLeft);
    var flattened := AddMarker(Flat(kept));
    MarkedIsLeast(Flat(kept), flattened);
    compacted := system + flattened;
  }
}
