// What compaction guarantees: which messages survive, how much the result costs, and when compacting
// twice is the same as compacting once.
module CompactionTheorems {
  import opened Context

  // ---------------------------------------------------------------- the longest suffix that fits

  lemma CostSnoc(blocks: seq<History>, last: History)
    ensures Cost(blocks + [last]) == Cost(blocks) + Count(last)
  {
    FlatConcat(blocks, [last]);
    FlatSingle(last);
    CountConcat(Flat(blocks), last);
  }

  lemma CostOfTail(blocks: seq<History>, j: nat)
    requires j < |blocks|
    ensures Cost(blocks[j..]) == Cost(blocks[..|blocks| - 1][j..]) + Count(blocks[|blocks| - 1])
  {
    var front, last := blocks[..|blocks| - 1], blocks[|blocks| - 1];
    assert blocks[j..] == front[j..] + [last];
    CostSnoc(front[j..], last);
  }

  /** The blocks from `k` on fit, and no longer tail does. */
  ghost predicate LongestFit(blocks: seq<History>, left: nat, k: nat) {
    && k <= |blocks|
    && Cost(blocks[k..]) <= left
    && forall j :: 0 <= j < k ==> Cost(blocks[j..]) > left
  }

  lemma {:induction false} FittingTailIsLongest(blocks: seq<History>, left: nat) returns (k: nat)
    ensures LongestFit(blocks, left, k) && FittingTail(blocks, left) == blocks[k..]
  {
    if blocks == [] {
      k := 0;
    } else {
      var front, last := blocks[..|blocks| - 1], blocks[|blocks| - 1];
      if Count(last) <= left {
        k := FittingTailIsLongest(front, left - Count(last));
        assert blocks[k..] == front[k..] + [last];
        CostOfTail(blocks, k);
      } else {
        k := |blocks|;
      }
      forall j | 0 <= j < k
        ensures Cost(blocks[j..]) > left
      {
        CostOfTail(blocks, j);
      }
    }
  }

  /** The kept blocks are a tail: the longest that fits, or the last block if not even that fits. */
  lemma KeptTailIsLongest(blocks: seq<History>, left: nat) returns (k: nat)
    ensures k <= |blocks| && KeptTail(blocks, left) == blocks[k..]
    ensures blocks != [] ==> k < |blocks|
    ensures if blocks != [] && Count(blocks[|blocks| - 1]) > left then k == |blocks| - 1
            else Cost(blocks[k..]) <= left
    ensures forall j :: 0 <= j < k ==> Cost(blocks[j..]) > left
  {
    if blocks != [] && Count(blocks[|blocks| - 1]) > left {
      k := |blocks| - 1;
      forall j | 0 <= j < k
        ensures Cost(blocks[j..]) > left
      {
        assert blocks[j..] == blocks[j..k] + [blocks[k]];
        CostSnoc(blocks[j..k], blocks[k]);
      }
    } else {
      k := FittingTailIsLongest(blocks, left);
    }
  }

  lemma FlatSplit(blocks: seq<History>, j: nat, k: nat)
    requires j <= k <= |blocks|
    ensures Flat(blocks[j..]) == Flat(blocks[j..k]) + Flat(blocks[k..])
    ensures k + 1 == |blocks| ==> Flat(blocks[k..]) == blocks[k]
  {
    assert blocks[j..] == blocks[j..k] + blocks[k..];
    FlatConcat(blocks[j..k], blocks[k..]);
    if k + 1 == |blocks| {
      assert blocks[k..] == [blocks[k]];
      FlatSingle(blocks[k]);
    }
  }

  lemma BlocksFlat(rest: History)
    ensures Flat(Blocks(rest)) == rest
    ensures Blocks(rest) != [] ==> LastBlock(rest) != []
    ensures Blocks(rest) == [] <==> rest == []
  {
    BlocksCut(rest);
  }

  lemma SplitBlocks(rest: History, k: nat)
    requires k <= |Blocks(rest)|
    ensures rest == Flat(Blocks(rest)[..k]) + Flat(Blocks(rest)[k..])
    ensures k < |Blocks(rest)| ==>
      && Flat(Blocks(rest)[k..]) == Flat(Blocks(rest)[k..|Blocks(rest)| - 1]) + LastBlock(rest)
      && Flat(Blocks(rest)[k..]) != []
  {
    var blocks := Blocks(rest);
    BlocksFlat(rest);
    FlatSplit(blocks, 0, k);
    assert blocks[0..] == blocks && blocks[0..k] == blocks[..k];
    if k < |blocks| {
      FlatSplit(blocks, k, |blocks| - 1);
    }
  }

  /** The latest message that is not a tool result, with its tool results. */
  ghost function LastBlock(rest: History): History {
    var blocks := Blocks(rest);
    if blocks == [] then [] else blocks[|blocks| - 1]
  }

  /**
   * Over budget, compaction returns the system messages in order, a marker if what follows does not
   * start with a user message, and a block-aligned suffix of the other messages: the longest that
   * fits the budget the system messages leave, or the last block if not even that fits.
   */
  lemma CompactedShape(budget: nat, h: History) returns (k: nat, kept: History)
    requires Count(h) > budget
    ensures k <= |Blocks(Rest(h))| && kept == Flat(Blocks(Rest(h))[k..])
    ensures Rest(h) == Flat(Blocks(Rest(h))[..k]) + kept
    ensures Compacted(budget, h) == SystemPart(h) + Marked(kept)
    ensures Rest(h) != [] ==> k < |Blocks(Rest(h))| && kept != []
    ensures if Count(LastBlock(Rest(h))) > BudgetLeft(budget, h)
            then kept == LastBlock(Rest(h))
            else Count(kept) <= BudgetLeft(budget, h)
    ensures forall j :: 0 <= j < k ==> Cost(Blocks(Rest(h))[j..]) > BudgetLeft(budget, h)
  {
    var blocks, left := Blocks(Rest(h)), BudgetLeft(budget, h);
    k := KeptTailIsLongest(blocks, left);
    kept := Flat(blocks[k..]);
    SplitBlocks(Rest(h), k);
    assert kept == Flat(KeptTail(blocks, left));
  }

  // ---------------------------------------------------------------- cost

  lemma MarkedCost(kept: History)
    ensures Count(kept) <= Count(Marked(kept)) <= Count(kept) + 7
    ensures Marked(kept) != kept ==> Marked(kept) == [MARKER] + kept && Count(Marked(kept)) == Count(kept) + 7
  {
    MarkerCost();
    assert [] + [MARKER] == [MARKER];
    CountSnoc([], MARKER);
    CountConcat([MARKER], kept);
  }

  /** Compaction meets the budget up to the marker, unless the mandatory messages alone exceed it. */
  lemma CompactedCost(budget: nat, h: History)
    ensures Count(Compacted(budget, h)) <= Count(h) + 7
    ensures Count(Compacted(budget, h)) <= budget + 7
         || Count(Compacted(budget, h)) <= Count(SystemPart(h)) + Count(LastBlock(Rest(h))) + 7
  {
    if Count(h) > budget {
      var k, kept := CompactedShape(budget, h);
      MarkedCost(kept);
      CountConcat(SystemPart(h), Marked(kept));
      CountConcat(Flat(Blocks(Rest(h))[..k]), kept);
      PartsCount(h);
    }
  }

  // ---------------------------------------------------------------- compacting twice

  lemma FittingTailSnoc(front: seq<History>, last: History, left: nat)
    ensures FittingTail(front + [last], left) ==
      if Count(last) <= left then FittingTail(front, left - Count(last)) + [last] else []
  {
    assert (front + [last])[..|front|] == front;
  }

  lemma {:induction false} FittingTailOfFitting(blocks: seq<History>, left: nat)
    requires Cost(blocks) <= left
    ensures FittingTail(blocks, left) == blocks
  {
    if blocks != [] {
      var front, last := blocks[..|blocks| - 1], blocks[|blocks| - 1];
      assert blocks == front + [last];
      CostSnoc(front, last);
      FittingTailSnoc(front, last, left);
      FittingTailOfFitting(front, left - Count(last));
    }
  }

  /** A block in front of blocks that fit is dropped if it does not fit as well. */
  lemma {:induction false} FittingTailDropsFirst(b: History, blocks: seq<History>, left: nat)
    requires Cost(blocks) <= left < Count(b) + Cost(blocks)
    ensures FittingTail([b] + blocks, left) == blocks
  {
    if blocks == [] {
      FittingTailSnoc([], b, left);
      assert [] + [b] == [b] + [];
    } else {
      var front, last := blocks[..|blocks| - 1], blocks[|blocks| - 1];
      assert blocks == front + [last];
      assert [b] + blocks == ([b] + front) + [last];
      CostSnoc(front, last);
      FittingTailSnoc([b] + front, last, left);
      FittingTailDropsFirst(b, front, left - Count(last));
    }
  }

  lemma TailIsCut(blocks: seq<History>, k: nat)
    requires TurnBlocks(blocks) && k <= |blocks|
    ensures TurnBlocks(blocks[k..])
  {
  }

  lemma MarkerBefore(blocks: seq<History>)
    requires TurnBlocks(blocks) && (blocks != [] ==> StartsTurn(blocks[0]))
    ensures TurnBlocks([[MARKER]] + blocks)
    ensures Flat([[MARKER]] + blocks) == [MARKER] + Flat(blocks)
  {
    FlatConcat([[MARKER]], blocks);
    FlatSingle([MARKER]);
  }

  lemma FlatHead(first: History, tail: seq<History>)
    ensures Flat([first] + tail) == first + Flat(tail)
  {
    FlatConcat([first], tail);
    FlatSingle(first);
  }

  lemma ConcatAssociates(a: History, b: History, c: History)
    ensures (a + b) + c == a + (b + c)
  {
  }

  lemma TurnBlockAfterMarker(first: History)
    requires TurnBlock(first) && first[0].role.Tool?
    ensures TurnBlock([MARKER] + first)
  {
    var b := [MARKER] + first;
    assert forall p :: 1 <= p < |b| ==> b[p] == first[p - 1];
  }

  lemma MarkerInto(blocks: seq<History>)
    requires TurnBlocks(blocks) && blocks != [] && blocks[0][0].role.Tool?
    ensures TurnBlocks([[MARKER] + blocks[0]] + blocks[1..])
    ensures Flat([[MARKER] + blocks[0]] + blocks[1..]) == [MARKER] + Flat(blocks)
  {
    var first, tail := blocks[0], blocks[1..];
    assert blocks == [first] + tail;
    TurnBlockAfterMarker(first);
    FlatHead(first, tail);
    FlatHead([MARKER] + first, tail);
    ConcatAssociates([MARKER], first, Flat(tail));
  }

  /** A block-aligned suffix that does not start with a tool result is cut as before. */
  lemma BlocksOfTail(rest: History, k: nat)
    requires k < |Blocks(rest)| && !Flat(Blocks(rest)[k..])[0].role.Tool?
    ensures Blocks(Flat(Blocks(rest)[k..])) == Blocks(rest)[k..]
    ensures Blocks([MARKER] + Flat(Blocks(rest)[k..])) == [[MARKER]] + Blocks(rest)[k..]
  {
    var blocks := Blocks(rest)[k..];
    BlocksCut(rest);
    TailIsCut(Blocks(rest), k);
    FlatFirst(blocks);
    CutsAreBlocks(Flat(blocks), blocks);
    MarkerBefore(blocks);
    CutsAreBlocks([MARKER] + Flat(blocks), [[MARKER]] + blocks);
  }

  lemma TailStartsAtBlock(rest: History, k: nat)
    requires k < |Blocks(rest)|
    ensures Blocks(rest)[k] != [] && Flat(Blocks(rest)[k..]) != []
    ensures Flat(Blocks(rest)[k..])[0] == Blocks(rest)[k][0]
  {
    BlocksCut(rest);
    FlatFirst(Blocks(rest)[k..]);
  }

  lemma {:induction false} FlatFirst(blocks: seq<History>)
    requires blocks != [] && blocks[0] != []
    ensures Flat(blocks) != [] && Flat(blocks)[0] == blocks[0][0]
  {
    if |blocks| == 1 {
      FlatSingle(blocks[0]);
      assert blocks == [blocks[0]];
    } else {
      FlatFirst(blocks[..|blocks| - 1]);
    }
  }

  /** The two parts of a compacted history. */
  lemma PartsOfCompacted(system: History, kept: History)
    requires forall i :: 0 <= i < |system| ==> system[i].role.System?
    requires forall i :: 0 <= i < |kept| ==> !kept[i].role.System?
    ensures SystemPart(system + Marked(kept)) == system && Rest(system + Marked(kept)) == Marked(kept)
  {
    OfSystemConcat(system, Marked(kept), true);
    OfSystemConcat(system, Marked(kept), false);
    OfSystemUniform(system, true);
    OfSystemUniform(Marked(kept), false);
  }

  lemma SuffixRoles(h: History, k: nat)
    requires k <= |Blocks(Rest(h))|
    ensures var kept := Flat(Blocks(Rest(h))[k..]); forall i :: 0 <= i < |kept| ==> !kept[i].role.System?
    ensures forall i :: 0 <= i < |SystemPart(h)| ==> SystemPart(h)[i].role.System?
  {
    OfSystemRoles(h, true);
    OfSystemRoles(h, false);
    SplitBlocks(Rest(h), k);
    var dropped, kept := Flat(Blocks(Rest(h))[..k]), Flat(Blocks(Rest(h))[k..]);
    forall i | 0 <= i < |kept|
      ensures !kept[i].role.System?
    {
      assert Rest(h)[|dropped| + i] == kept[i];
    }
  }

  lemma MarkerBlockCost()
    ensures Count([MARKER]) == 7
  {
    MarkerCost();
    CountSnoc([], MARKER);
    assert [] + [MARKER] == [MARKER];
  }

  lemma KeptTailOfOversized(blocks: seq<History>, last: History, left: nat)
    requires Count(last) > left
    ensures KeptTail(blocks + [last], left) == [last]
  {
  }

  lemma KeptTailOfFitting(blocks: seq<History>, left: nat)
    requires Cost(blocks) <= left
    ensures KeptTail(blocks, left) == blocks
  {
    FittingTailOfFitting(blocks, left);
    if blocks != [] {
      CostSnoc(blocks[..|blocks| - 1], blocks[|blocks| - 1]);
      assert blocks == blocks[..|blocks| - 1] + [blocks[|blocks| - 1]];
    }
  }

  lemma KeptTailDropsFirst(b: History, blocks: seq<History>, left: nat)
    requires blocks != [] && Cost(blocks) <= left < Count(b) + Cost(blocks)
    ensures KeptTail([b] + blocks, left) == blocks
  {
    FittingTailDropsFirst(b, blocks, left);
    CostSnoc(blocks[..|blocks| - 1], blocks[|blocks| - 1]);
    assert blocks == blocks[..|blocks| - 1] + [blocks[|blocks| - 1]];
  }

  /** What the second compaction keeps when the first kept the blocks from `k` on. */
  lemma KeptAgain(rest: History, k: nat, left: nat)
    requires k < |Blocks(rest)|
    requires var kept := Flat(Blocks(rest)[k..]);
      && !kept[0].role.Tool?
      && (if Count(LastBlock(rest)) > left then kept == LastBlock(rest) && k == |Blocks(rest)| - 1
          else Count(kept) <= left)
      && (Marked(kept) != kept ==> Count(Marked(kept)) > left)
    ensures var kept := Flat(Blocks(rest)[k..]);
      KeptTail(Blocks(Marked(kept)), left) == Blocks(rest)[k..]
  {
    var blocks := Blocks(rest)[k..];
    var kept := Flat(blocks);
    BlocksOfTail(rest, k);
    MarkedCost(kept);
    MarkerBlockCost();
    if Count(LastBlock(rest)) > left {
      assert blocks == [] + [LastBlock(rest)];
      KeptTailOfOversized([], LastBlock(rest), left);
      KeptTailOfOversized([[MARKER]], LastBlock(rest), left);
      assert [[MARKER]] + blocks == [[MARKER]] + [LastBlock(rest)];
    } else if Marked(kept) == kept {
      KeptTailOfFitting(blocks, left);
    } else {
      KeptTailDropsFirst([MARKER], blocks, left);
    }
  }

  /** Every kept block costs nothing, the system messages alone are over budget, tool results lead. */
  predicate MarkerMergesIntoToolResults(budget: nat, h: History) {
    && Count(SystemPart(h)) > budget
    && Count(Rest(h)) == 0
    && |Blocks(Rest(h))| >= 2
    && Rest(h)[0].role.Tool?
  }

  lemma IdempotentWhenTurnLeads(budget: nat, h: History, k: nat, kept: History)
    requires Count(h) > budget
    requires k < |Blocks(Rest(h))| && kept == Flat(Blocks(Rest(h))[k..]) && !kept[0].role.Tool?
    requires Compacted(budget, h) == SystemPart(h) + Marked(kept)
    requires if Count(LastBlock(Rest(h))) > BudgetLeft(budget, h)
             then kept == LastBlock(Rest(h)) && k == |Blocks(Rest(h))| - 1
             else Count(kept) <= BudgetLeft(budget, h)
    ensures Compacted(budget, Compacted(budget, h)) == Compacted(budget, h)
  {
    var r := Compacted(budget, h);
    if Count(r) > budget {
      CompactedTwice(budget, h, k);
      CountConcat(SystemPart(h), Marked(kept));
      MarkedCost(kept);
      KeptAgain(Rest(h), k, BudgetLeft(budget, h));
    }
  }

  /** One more compaction of a result still over budget. */
  lemma CompactedTwice(budget: nat, h: History, k: nat)
    requires k <= |Blocks(Rest(h))|
    requires Count(SystemPart(h) + Marked(Flat(Blocks(Rest(h))[k..]))) > budget
    ensures var r := SystemPart(h) + Marked(Flat(Blocks(Rest(h))[k..]));
      && BudgetLeft(budget, r) == BudgetLeft(budget, h)
      && Compacted(budget, r) == SystemPart(h)
           + Marked(Flat(KeptTail(Blocks(Marked(Flat(Blocks(Rest(h))[k..]))), BudgetLeft(budget, h))))
  {
    SuffixRoles(h, k);
    PartsOfCompacted(SystemPart(h), Flat(Blocks(Rest(h))[k..]));
  }

  /** The marker becomes the head of a leading block of tool results. */
  lemma MarkedBlocks(rest: History)
    requires rest != [] && rest[0].role.Tool?
    ensures Blocks(rest) != []
    ensures Blocks([MARKER] + rest) == [[MARKER] + Blocks(rest)[0]] + Blocks(rest)[1..]
  {
    var blocks := Blocks(rest);
    BlocksCut(rest);
    BlocksFlat(rest);
    FlatFirst(blocks);
    MarkerInto(blocks);
    CutsAreBlocks([MARKER] + rest, [[MARKER] + blocks[0]] + blocks[1..]);
  }

  /** A single leading block of tool results keeps its one marker. */
  lemma OneLeadingBlock(rest: History, left: nat)
    requires rest != [] && rest[0].role.Tool? && |Blocks(rest)| == 1
    ensures Marked(Flat(KeptTail(Blocks([MARKER] + rest), left))) == [MARKER] + rest
  {
    var whole := [MARKER] + rest;
    MarkedBlocks(rest);
    BlocksFlat(whole);
    var b := Blocks(whole)[0];
    assert Blocks(whole) == [] + [b] == [b];
    FlatSingle(b);
    if Count(b) > left {
      KeptTailOfOversized([], b, left);
    } else {
      KeptTailOfFitting([b], left);
    }
  }

  lemma CostOfParts(first: History, tail: seq<History>)
    requires tail != []
    ensures Cost([first] + tail) == Count(first) + Cost(tail)
    ensures Flat([first] + tail) == first + Flat(tail)
    ensures Count(tail[|tail| - 1]) <= Cost(tail)
  {
    FlatConcat([first], tail);
    FlatSingle(first);
    CountConcat(first, Flat(tail));
    CostSnoc(tail[..|tail| - 1], tail[|tail| - 1]);
    assert tail == tail[..|tail| - 1] + [tail[|tail| - 1]];
  }

  /** Of several leading blocks that cost nothing, the one with the marker no longer fits. */
  lemma SeveralLeadingBlocks(rest: History)
    requires rest != [] && rest[0].role.Tool? && |Blocks(rest)| >= 2 && Count(rest) == 0
    ensures |Marked(Flat(KeptTail(Blocks([MARKER] + rest), 0)))| < |rest| + 1
  {
    var first, tail := Blocks(rest)[0], Blocks(rest)[1..];
    MarkedBlocks(rest);
    assert Blocks([MARKER] + rest) == [[MARKER] + first] + tail;
    FirstAndTail(rest);
    MarkerBlockCost();
    CountConcat([MARKER], first);
    KeptTailDropsFirst([MARKER] + first, tail, 0);
    assert |Marked(Flat(tail))| <= |Flat(tail)| + 1;
  }

  lemma FirstAndTail(rest: History)
    requires |Blocks(rest)| >= 2
    ensures var first, tail := Blocks(rest)[0], Blocks(rest)[1..];
      first != [] && rest == first + Flat(tail) && Count(rest) == Count(first) + Cost(tail)
  {
    var first, tail := Blocks(rest)[0], Blocks(rest)[1..];
    assert Blocks(rest) == [first] + tail;
    BlocksFlat(rest);
    CostOfParts(first, tail);
    TailStartsAtBlock(rest, 0);
  }

  /**
   * Compacting twice is compacting once, except on histories where the first marker was put before
   * leading tool results: there it joins their block and the second compaction drops that block.
   */
  lemma CompactIsIdempotentIff(budget: nat, h: History)
    ensures Compacted(budget, Compacted(budget, h)) == Compacted(budget, h)
      <==> !(Count(h) > budget && MarkerMergesIntoToolResults(budget, h))
  {
    if Count(h) > budget {
      var k, kept := CompactedShape(budget, h);
      PartsCount(h);
      if Rest(h) == [] {
        NoRest(budget, h);
      } else if !kept[0].role.Tool? {
        if Count(LastBlock(Rest(h))) > BudgetLeft(budget, h) {
          LastBlockIndex(Rest(h), k);
        }
        IdempotentWhenTurnLeads(budget, h, k, kept);
        TurnLeadsIsNotMerging(budget, h, k);
      } else {
        LeadingResultsAllKept(Rest(h), k);
        CompactedWithLeadingResults(budget, h);
      }
    }
  }

  /** Compacting twice is compacting once unless the first message that is no system message is a tool result. */
  lemma CompactIsIdempotentWithoutOrphans(budget: nat, h: History)
    requires Rest(h) == [] || !Rest(h)[0].role.Tool?
    ensures Compacted(budget, Compacted(budget, h)) == Compacted(budget, h)
  {
    CompactIsIdempotentIff(budget, h);
    if Rest(h) == [] {
      assert Blocks(Rest(h)) == [];
    }
  }

  lemma PartsOfThree(system: Message, result: Message, answer: Message)
    requires system.role.System? && !result.role.System? && !answer.role.System?
    ensures SystemPart([system, result, answer]) == [system] && Rest([system, result, answer]) == [result, answer]
  {
    OfSystemConcat([system], [result, answer], true);
    OfSystemConcat([system], [result, answer], false);
    OfSystemUniform([system], true);
    OfSystemUniform([result, answer], false);
    assert [system] + [result, answer] == [system, result, answer];
  }

  lemma OrphanAndAnswer(result: Message, answer: Message)
    requires result.role.Tool? && answer.role.Assistant?
    ensures Blocks([result, answer]) == [[result], [answer]]
    ensures Count([result, answer]) == CountMessage(result) + CountMessage(answer)
  {
    FlatConcat([[result]], [[answer]]);
    FlatSingle([result]);
    FlatSingle([answer]);
    assert [[result]] + [[answer]] == [[result], [answer]] && [result] + [answer] == [result, answer];
    CutsAreBlocks([result, answer], [[result], [answer]]);
    TwoMessages(result, answer);
  }

  lemma TwoMessages(m: Message, n: Message)
    ensures Count([m, n]) == CountMessage(m) + CountMessage(n)
  {
    CountSnoc([], m);
    CountSnoc([m], n);
    assert [] + [m] == [m] && [m] + [n] == [m, n];
  }

  /** A system message over budget before an orphaned result and an answer that cost nothing. */
  lemma OrphanIsDroppedLater(system: Message, result: Message, answer: Message)
    requires system.role.System? && result.role.Tool? && answer.role.Assistant?
    requires CountMessage(system) > 0 && CountMessage(result) == 0 && CountMessage(answer) == 0
    ensures var h := [system, result, answer]; Compacted(0, Compacted(0, h)) != Compacted(0, h)
  {
    var h := [system, result, answer];
    PartsOfThree(system, result, answer);
    OrphanAndAnswer(result, answer);
    CountSnoc([], system);
    assert [] + [system] == [system];
    PartsCount(h);
    CompactIsIdempotentIff(0, h);
  }

  /** The exception exists: here the second compaction drops a result the first one kept. */
  lemma CompactingTwiceCanDropMore()
    ensures var h := [SystemMessage("s"), ToolMessage("", ""), AssistantMessage("", [])];
      Compacted(0, Compacted(0, h)) != Compacted(0, h)
  {
    OrphanIsDroppedLater(SystemMessage("s"), ToolMessage("", ""), AssistantMessage("", []));
  }

  lemma NoRest(budget: nat, h: History)
    requires Count(h) > budget && Rest(h) == []
    ensures Compacted(budget, Compacted(budget, h)) == Compacted(budget, h)
  {
    SuffixRoles(h, 0);
    PartsOfCompacted(SystemPart(h), []);
    assert Blocks([])[0..] == [] && SystemPart(h) + [] == SystemPart(h);
  }

  /** If the kept part starts with a turn, the exceptional case is excluded. */
  lemma TurnLeadsIsNotMerging(budget: nat, h: History, k: nat)
    requires Count(h) > budget && k < |Blocks(Rest(h))| && !Flat(Blocks(Rest(h))[k..])[0].role.Tool?
    requires forall j :: 0 <= j < k ==> Cost(Blocks(Rest(h))[j..]) > BudgetLeft(budget, h)
    ensures !MarkerMergesIntoToolResults(budget, h)
  {
    BlocksFlat(Rest(h));
    assert Blocks(Rest(h))[0..] == Blocks(Rest(h));
  }

  lemma LastBlockIndex(rest: History, k: nat)
    requires k < |Blocks(rest)| && Flat(Blocks(rest)[k..]) == LastBlock(rest)
    ensures k == |Blocks(rest)| - 1
  {
    var blocks := Blocks(rest);
    SplitBlocks(rest, k);
    if k < |blocks| - 1 {
      TailStartsAtBlock(rest, k);
      FlatFirst(blocks[k..|blocks| - 1]);
    }
  }

  /** Only the first block can start with a tool result. */
  lemma LeadingResultsAllKept(rest: History, k: nat)
    requires k < |Blocks(rest)| && Flat(Blocks(rest)[k..])[0].role.Tool?
    ensures k == 0 && Flat(Blocks(rest)[k..]) == rest && rest[0].role.Tool?
  {
    TailStartsAtBlock(rest, k);
    BlocksCut(rest);
    assert k > 0 ==> StartsTurn(Blocks(rest)[k]);
    assert Blocks(rest)[0..] == Blocks(rest);
  }

  lemma CompactedWithLeadingResults(budget: nat, h: History)
    requires Count(h) > budget && Rest(h) != [] && Rest(h)[0].role.Tool?
    requires Compacted(budget, h) == SystemPart(h) + Marked(Rest(h))
    requires if Count(LastBlock(Rest(h))) > BudgetLeft(budget, h) then Rest(h) == LastBlock(Rest(h))
             else Count(Rest(h)) <= BudgetLeft(budget, h)
    ensures Compacted(budget, Compacted(budget, h)) == Compacted(budget, h)
      <==> !MarkerMergesIntoToolResults(budget, h)
  {
    var rest := Rest(h);
    var r := SystemPart(h) + Marked(rest);
    PartsCount(h);
    MarkedCost(rest);
    CountConcat(SystemPart(h), Marked(rest));
    BlocksFlat(rest);
    assert Blocks(rest)[0..] == Blocks(rest);
    CompactedTwice(budget, h, 0);
    if |Blocks(rest)| == 1 {
      OneLeadingBlock(rest, BudgetLeft(budget, h));
    } else {
      if Count(LastBlock(rest)) > BudgetLeft(budget, h) {
        LastBlockIndex(rest, 0);
      }
      SeveralLeadingBlocks(rest);
    }
  }

  /** The system prompt stays first. */
  lemma CompactionKeepsSystemFirst(budget: nat, h: History)
    requires h != [] && h[0].role.System?
    ensures Compacted(budget, h) != [] && Compacted(budget, h)[0] == h[0]
  {
    assert h == [h[0]] + h[1..];
    OfSystemConcat([h[0]], h[1..], true);
    OfSystemUniform([h[0]], true);
  }

  ghost predicate EndsWith(h: History, end: History) {
    |end| <= |h| && h[|h| - |end|..] == end
  }

  lemma TailEndsWithLastBlock(rest: History, k: nat)
    requires k <= |Blocks(rest)| && (rest != [] ==> k < |Blocks(rest)|)
    ensures EndsWith(Flat(Blocks(rest)[k..]), LastBlock(rest))
  {
    SplitBlocks(rest, k);
    BlocksFlat(rest);
  }

  lemma MarkedEndsWith(kept: History, end: History)
    requires EndsWith(kept, end)
    ensures EndsWith(Marked(kept), end)
  {
    if Marked(kept) != kept {
      assert ([MARKER] + kept)[|kept| + 1 - |end|..] == kept[|kept| - |end|..];
    }
  }

  lemma EndsWithLonger(front: History, h: History, end: History)
    requires EndsWith(h, end)
    ensures EndsWith(front + h, end)
  {
    assert (front + h)[|front + h| - |end|..] == h[|h| - |end|..];
  }

  /** Over budget, the compacted history itself ends with the latest block. */
  lemma CompactionEndsWithLatestBlock(budget: nat, h: History)
    requires Count(h) > budget
    ensures EndsWith(Compacted(budget, h), LastBlock(Rest(h)))
  {
    var k, kept := CompactedShape(budget, h);
    TailEndsWithLastBlock(Rest(h), k);
    MarkedEndsWith(kept, LastBlock(Rest(h)));
    EndsWithLonger(SystemPart(h), Marked(kept), LastBlock(Rest(h)));
  }

  /** All system messages and, whole and at the end, the latest block survive. */
  lemma CompactionKeepsLatestBlock(budget: nat, h: History)
    ensures SystemPart(Compacted(budget, h)) == SystemPart(h)
    ensures EndsWith(Rest(Compacted(budget, h)), LastBlock(Rest(h)))
  {
    if Count(h) > budget {
      var k, kept := CompactedShape(budget, h);
      SuffixRoles(h, k);
      PartsOfCompacted(SystemPart(h), kept);
      TailEndsWithLastBlock(Rest(h), k);
      MarkedEndsWith(kept, LastBlock(Rest(h)));
    } else {
      BlocksFlat(Rest(h));
      TailEndsWithLastBlock(Rest(h), 0);
      assert Blocks(Rest(h))[0..] == Blocks(Rest(h));
    }
  }
}
