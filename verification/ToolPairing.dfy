// Providers reject a history in which a tool call lacks its result or a result lacks its call.
// A history in which they are paired stays so under compaction.
module ToolPairing {
  import opened Text
  import opened Context
  import opened CompactionTheorems

  function CallsOf(m: Message): seq<ToolCall> {
    if m.role.Assistant? then m.toolCalls else []
  }

  /** One result per call, in the order of the calls. */
  predicate AreResults(results: History, calls: seq<ToolCall>) {
    && |results| == |calls|
    && forall c :: 0 <= c < |calls| ==> results[c].role.Tool? && results[c].toolCallId == Some(calls[c].id)
  }

  /** The number of messages from an assistant message up to its last result. */
  function GroupSize(h: History): nat
    requires h != []
  {
    1 + |CallsOf(h[0])|
  }

  /**
   * Every assistant message's calls are followed at once by exactly their results, in order, and
   * there is no other tool result.
   */
  predicate Paired(h: History) {
    h == [] ||
    (&& !h[0].role.Tool?
     && GroupSize(h) <= |h|
     && AreResults(h[1..GroupSize(h)], CallsOf(h[0]))
     && Paired(h[GroupSize(h)..]))
  }

  lemma GroupHoldsResults(h: History, i: nat)
    requires Paired(h) && h != [] && 1 <= i < GroupSize(h)
    ensures h[i].role.Tool?
  {
    assert h[1..GroupSize(h)][i - 1] == h[i];
  }

  // ---------------------------------------------------------------- the same, position by position

  /** The calls of the message at `a` are answered right after it. */
  ghost predicate Answered(h: History, a: nat)
    requires a < |h|
  {
    var n := |CallsOf(h[a])|;
    a + 1 + n <= |h| && AreResults(h[a + 1..a + 1 + n], CallsOf(h[a]))
  }

  /** If the message at `i` is a tool result, a call shortly before it asked for one. */
  ghost predicate Owned(h: History, i: nat)
    requires i < |h|
  {
    h[i].role.Tool? ==> exists a :: 0 <= a < i && i <= a + |CallsOf(h[a])|
  }

  ghost predicate AllAnsweredAndOwned(h: History) {
    forall i :: 0 <= i < |h| ==> Answered(h, i) && Owned(h, i)
  }

  lemma AnsweredHoldsResults(h: History, a: nat, i: nat)
    requires a < i < |h| && Answered(h, a) && i <= a + |CallsOf(h[a])|
    ensures h[i].role.Tool?
  {
    assert h[a + 1..a + 1 + |CallsOf(h[a])|][i - a - 1] == h[i];
  }

  lemma AnsweredShift(h: History, n: nat, i: nat)
    requires n + i < |h|
    ensures Answered(h[n..], i) <==> Answered(h, n + i)
  {
    var m := |CallsOf(h[n + i])|;
    if n + i + 1 + m <= |h| {
      assert h[n..][i + 1..i + 1 + m] == h[n + i + 1..n + i + 1 + m];
    }
  }

  lemma {:induction false} PairedIsAnsweredAndOwned(h: History)
    requires Paired(h)
    ensures AllAnsweredAndOwned(h)
    decreases |h|
  {
    if h != [] {
      var n := GroupSize(h);
      PairedIsAnsweredAndOwned(h[n..]);
      forall i | 0 <= i < |h|
        ensures Answered(h, i) && Owned(h, i)
      {
        if i >= n {
          PositionAfterGroup(h, n, i - n);
        } else if i > 0 {
          GroupHoldsResults(h, i);
        }
      }
    }
  }

  lemma PositionAfterGroup(h: History, n: nat, i: nat)
    requires n + i < |h| && Answered(h[n..], i) && Owned(h[n..], i)
    ensures Answered(h, n + i) && Owned(h, n + i)
  {
    AnsweredShift(h, n, i);
    if h[n + i].role.Tool? {
      var a :| 0 <= a < i && i <= a + |CallsOf(h[n..][a])|;
      assert h[n..][a] == h[n + a];
    }
  }

  lemma {:induction false} AnsweredAndOwnedIsPaired(h: History)
    requires AllAnsweredAndOwned(h)
    ensures Paired(h)
    decreases |h|
  {
    if h != [] {
      var n := GroupSize(h);
      assert Answered(h, 0) && Owned(h, 0);
      forall i | 0 <= i < |h[n..]|
        ensures Answered(h[n..], i) && Owned(h[n..], i)
      {
        PositionInTail(h, n, i);
      }
      AnsweredAndOwnedIsPaired(h[n..]);
    }
  }

  lemma PositionInTail(h: History, n: nat, i: nat)
    requires h != [] && n == GroupSize(h) && n + i < |h| && AllAnsweredAndOwned(h)
    ensures Answered(h[n..], i) && Owned(h[n..], i)
  {
    assert Answered(h, n + i) && Owned(h, n + i) && Answered(h, 0);
    AnsweredShift(h, n, i);
    if h[n + i].role.Tool? {
      var a: nat :| a < n + i && n + i <= a + |CallsOf(h[a])|;
      if 0 < a < n {
        AnsweredHoldsResults(h, 0, a);
      }
      assert h[n..][a - n] == h[a];
    }
  }

  /** Paired means: all calls are answered at once and in order, and all results belong to a call. */
  lemma PairedMeans(h: History)
    ensures Paired(h) <==> AllAnsweredAndOwned(h)
  {
    if Paired(h) {
      PairedIsAnsweredAndOwned(h);
    }
    if AllAnsweredAndOwned(h) {
      AnsweredAndOwnedIsPaired(h);
    }
  }

  // ---------------------------------------------------------------- closure properties

  lemma PairedCons(m: Message, results: History, tail: History)
    requires !m.role.Tool? && AreResults(results, CallsOf(m)) && Paired(tail)
    ensures Paired([m] + results + tail)
  {
    var h := [m] + results + tail;
    assert h[1..GroupSize(h)] == results && h[GroupSize(h)..] == tail;
  }

  lemma PairedGroup(m: Message, results: History)
    requires !m.role.Tool? && AreResults(results, CallsOf(m))
    ensures Paired([m] + results)
  {
    PairedCons(m, results, []);
    assert [m] + results + [] == [m] + results;
  }

  lemma ConcatIsAssociative(x: History, y: History, z: History)
    ensures (x + y) + z == x + (y + z)
  {
  }

  /** A non-empty paired history is a message, its results, and a paired history. */
  lemma PairedParts(h: History) returns (results: History, tail: History)
    requires Paired(h) && h != []
    ensures !h[0].role.Tool? && AreResults(results, CallsOf(h[0])) && Paired(tail)
    ensures |tail| < |h| && h == [h[0]] + results + tail
  {
    results, tail := h[1..GroupSize(h)], h[GroupSize(h)..];
  }

  lemma {:induction false} PairedConcat(a: History, b: History)
    requires Paired(a) && Paired(b)
    ensures Paired(a + b)
    decreases |a|
  {
    if a == [] {
      assert a + b == b;
    } else {
      var results, tail := PairedParts(a);
      PairedConcat(tail, b);
      PairedCons(a[0], results, tail + b);
      ConcatIsAssociative([a[0]] + results, tail, b);
    }
  }

  /** A suffix that does not start inside the results of a call is paired. */
  lemma {:induction false} PairedSuffix(h: History, k: nat)
    requires Paired(h) && k <= |h| && (k == |h| || !h[k].role.Tool?)
    ensures Paired(h[k..])
    decreases |h|
  {
    if k == 0 {
      assert h[0..] == h;
    } else {
      var n := GroupSize(h);
      if k < n {
        GroupHoldsResults(h, k);
      }
      PairedSuffix(h[n..], k - n);
      assert h[n..][k - n..] == h[k..];
    }
  }

  lemma {:induction false} SystemMessagesArePaired(h: History)
    requires forall i :: 0 <= i < |h| ==> h[i].role.System?
    ensures Paired(h)
  {
    if h != [] {
      SystemMessagesArePaired(h[1..]);
      PairedCons(h[0], [], h[1..]);
      assert [h[0]] + [] + h[1..] == h;
    }
  }

  lemma {:induction false} RestIsPaired(h: History)
    requires Paired(h)
    ensures Paired(Rest(h))
    decreases |h|
  {
    if h != [] {
      var n := GroupSize(h);
      assert h == h[..n] + h[n..];
      OfSystemConcat(h[..n], h[n..], false);
      RestIsPaired(h[n..]);
      GroupRest(h);
      PairedConcat(Rest(h[..n]), Rest(h[n..]));
    }
  }

  lemma GroupRest(h: History)
    requires Paired(h) && h != []
    ensures Paired(Rest(h[..GroupSize(h)]))
  {
    var n := GroupSize(h);
    if h[0].role.System? {
      OfSystemUniform(h[..n], true);
    } else {
      forall i | 0 <= i < n
        ensures !h[..n][i].role.System?
      {
        if i > 0 {
          GroupHoldsResults(h, i);
        }
      }
      OfSystemUniform(h[..n], false);
      PairedGroup(h[0], h[1..n]);
      assert [h[0]] + h[1..n] == h[..n];
    }
  }

  lemma KeptIsPaired(rest: History, k: nat)
    requires Paired(rest) && k <= |Blocks(rest)|
    ensures Paired(Flat(Blocks(rest)[k..]))
  {
    var dropped, kept := Flat(Blocks(rest)[..k]), Flat(Blocks(rest)[k..]);
    SplitBlocks(rest, k);
    assert kept == rest[|dropped|..];
    if kept != [] {
      KeptStartsTurn(rest, k);
    }
    PairedSuffix(rest, |dropped|);
  }

  lemma KeptStartsTurn(rest: History, k: nat)
    requires Paired(rest) && k < |Blocks(rest)|
    ensures Flat(Blocks(rest)[k..]) != [] && !Flat(Blocks(rest)[k..])[0].role.Tool?
  {
    TailStartsAtBlock(rest, k);
    if Flat(Blocks(rest)[k..])[0].role.Tool? {
      LeadingResultsAllKept(rest, k);
    }
  }

  lemma MarkedIsPaired(kept: History)
    requires Paired(kept)
    ensures Paired(Marked(kept))
  {
    PairedCons(MARKER, [], kept);
    assert [MARKER] + [] + kept == [MARKER] + kept;
  }

  /** A paired history is compacted once and for all. */
  lemma PairedHistoriesCompactOnce(budget: nat, h: History)
    requires Paired(h)
    ensures Compacted(budget, Compacted(budget, h)) == Compacted(budget, h)
  {
    RestIsPaired(h);
    if Rest(h) != [] {
      var results, tail := PairedParts(Rest(h));
    }
    CompactIsIdempotentWithoutOrphans(budget, h);
  }

  /** Compaction keeps every call with its results. */
  lemma CompactionKeepsPairs(budget: nat, h: History)
    requires Paired(h)
    ensures Paired(Compacted(budget, h))
  {
    if Count(h) > budget {
      var k, kept := CompactedShape(budget, h);
      RestIsPaired(h);
      KeptIsPaired(Rest(h), k);
      MarkedIsPaired(kept);
      OfSystemRoles(h, true);
      SystemMessagesArePaired(SystemPart(h));
      PairedConcat(SystemPart(h), Marked(kept));
    }
  }
}
