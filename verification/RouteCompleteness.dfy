// What the greedy scan of the dispatcher matches, position by position, and for which patterns it
// finds every substitution of the placeholders.
module RouteCompleteness {
  import opened Routes

  predicate SegmentFits(pat: string, segment: string) {
    BlockFits(pat, [segment])
  }

  /** Segment by segment. */
  predicate SegmentsFit(patterns: seq<string>, segments: seq<string>) {
    |patterns| == |segments| && forall j :: 0 <= j < |patterns| ==> SegmentFits(patterns[j], segments[j])
  }

  /** What is before the first wildcard is matched from the front, what is behind it from the back. */
  predicate MatchesByPosition(pattern: seq<string>, incoming: seq<string>) {
    var w, m, n := FirstWildcard(pattern), |pattern|, |incoming|;
    if w == m then SegmentsFit(pattern, incoming)
    else
      && n >= m
      && SegmentsFit(pattern[..w], incoming[..w])
      && SegmentsFit(pattern[w + 1..], incoming[n - (m - w - 1)..])
  }

  // ---------------------------------------------------------------- blocks of one segment

  function Singles(s: seq<string>): (blocks: seq<seq<string>>)
    ensures |blocks| == |s|
  {
    seq(|s|, k requires 0 <= k < |s| => [s[k]])
  }

  lemma ConcatConcat(a: seq<seq<string>>, b: seq<seq<string>>)
    ensures Concat(a + b) == Concat(a) + Concat(b)
  {
    ConcatSplit(a + b, |a|);
    assert (a + b)[..|a|] == a && (a + b)[|a|..] == b;
  }

  lemma {:induction false} ConcatSingles(s: seq<string>)
    ensures Concat(Singles(s)) == s
  {
    if s != [] {
      ConcatSingles(s[1..]);
      assert Singles(s)[1..] == Singles(s[1..]);
    }
  }

  /** One block with single segments on both sides. */
  function Around(before: seq<string>, block: seq<string>, after: seq<string>): (blocks: seq<seq<string>>)
    ensures |blocks| == |before| + 1 + |after|
    ensures forall k :: 0 <= k < |before| ==> blocks[k] == [before[k]]
    ensures blocks[|before|] == block
    ensures forall k :: |before| < k < |blocks| ==> blocks[k] == [after[k - |before| - 1]]
  {
    Singles(before) + [block] + Singles(after)
  }

  lemma ConcatAround(before: seq<string>, block: seq<string>, after: seq<string>)
    ensures Concat(Around(before, block, after)) == before + block + after
  {
    ConcatSingles(before);
    ConcatSingles(after);
    ConcatSnoc(Singles(before), block);
    ConcatConcat(Singles(before) + [block], Singles(after));
  }

  /** Leading blocks of one segment hold the leading segments. */
  lemma {:induction false} LeadingSingles(blocks: seq<seq<string>>, w: nat)
    requires w <= |blocks| && forall k :: 0 <= k < w ==> |blocks[k]| == 1
    ensures w <= |Concat(blocks)|
    ensures forall k :: 0 <= k < w ==> blocks[k] == [Concat(blocks)[k]]
  {
    if w > 0 {
      LeadingSingles(blocks[1..], w - 1);
      assert Concat(blocks) == blocks[0] + Concat(blocks[1..]);
      forall k | 0 <= k < w
        ensures blocks[k] == [Concat(blocks)[k]]
      {
        if k > 0 {
          assert blocks[1..][k - 1] == blocks[k];
        }
      }
    }
  }

  /** Trailing blocks of one segment hold the trailing segments. */
  lemma {:induction false} TrailingSingles(blocks: seq<seq<string>>, l: nat)
    requires l <= |blocks| && forall k :: l <= k < |blocks| ==> |blocks[k]| == 1
    ensures |Concat(blocks)| >= |blocks| - l
    ensures var shift := |Concat(blocks)| - |blocks|;
      forall k :: l <= k < |blocks| ==> blocks[k] == [Concat(blocks)[shift + k]]
  {
    if l < |blocks| {
      var n := |blocks| - 1;
      var front, last := blocks[..n], blocks[n];
      TrailingSingles(front, l);
      ConcatSnoc(front, last);
      assert blocks == front + [last];
    }
  }

  // ---------------------------------------------------------------- the scan by position

  lemma BlockSizes(pattern: seq<string>, incoming: seq<string>, blocks: seq<seq<string>>)
    requires Fits(pattern, incoming, blocks)
    ensures |incoming| >= |pattern|
    ensures forall k :: 0 <= k < |pattern| && !IsWildcard(pattern[k]) ==> |blocks[k]| == 1
    ensures (forall k :: 0 <= k < |pattern| ==> |blocks[k]| == 1) ==> |incoming| == |pattern|
  {
    forall k | 0 <= k < |blocks|
      ensures blocks[k] != [] && (!IsWildcard(pattern[k]) ==> |blocks[k]| == 1)
    {
      assert BlockFits(pattern[k], blocks[k]);
    }
    ConcatLength(blocks);
  }

  lemma FrontFits(pattern: seq<string>, incoming: seq<string>, blocks: seq<seq<string>>, w: nat)
    requires Fits(pattern, incoming, blocks) && w <= |pattern|
    requires forall j :: 0 <= j < w ==> !IsWildcard(pattern[j])
    ensures w <= |incoming| && SegmentsFit(pattern[..w], incoming[..w])
  {
    BlockSizes(pattern, incoming, blocks);
    LeadingSingles(blocks, w);
    forall j | 0 <= j < w
      ensures SegmentFits(pattern[j], incoming[j])
    {
      assert BlockFits(pattern[j], blocks[j]);
    }
  }

  lemma BackFits(pattern: seq<string>, incoming: seq<string>, blocks: seq<seq<string>>, l: nat)
    requires Fits(pattern, incoming, blocks) && l <= |pattern| <= |incoming|
    requires forall j :: l <= j < |pattern| ==> |blocks[j]| == 1
    ensures SegmentsFit(pattern[l..], incoming[|incoming| - (|pattern| - l)..])
  {
    TrailingSingles(blocks, l);
    var shift, after := |incoming| - |pattern|, incoming[|incoming| - (|pattern| - l)..];
    forall j | 0 <= j < |after|
      ensures SegmentFits(pattern[l..][j], after[j])
    {
      assert BlockFits(pattern[l + j], blocks[l + j]);
      assert blocks[l + j] == [incoming[shift + (l + j)]];
    }
  }

  lemma GreedyIsByPosition(pattern: seq<string>, incoming: seq<string>, blocks: seq<seq<string>>)
    requires GreedyFits(pattern, incoming, blocks)
    ensures MatchesByPosition(pattern, incoming)
  {
    var w := FirstWildcard(pattern);
    BlockSizes(pattern, incoming, blocks);
    FrontFits(pattern, incoming, blocks, w);
    if w < |pattern| {
      BackFits(pattern, incoming, blocks, w + 1);
    } else {
      assert pattern[..w] == pattern && incoming[..w] == incoming;
    }
  }

  lemma BlocksAround(pattern: seq<string>, w: nat, before: seq<string>, block: seq<string>, after: seq<string>)
    requires w < |pattern| && BlockFits(pattern[w], block)
    requires SegmentsFit(pattern[..w], before) && SegmentsFit(pattern[w + 1..], after)
    ensures Fits(pattern, before + block + after, Around(before, block, after))
  {
    var blocks := Around(before, block, after);
    ConcatAround(before, block, after);
    forall j | 0 <= j < |pattern|
      ensures BlockFits(pattern[j], blocks[j])
    {
      if j < w {
        assert SegmentFits(pattern[..w][j], before[j]);
      } else if j > w {
        assert SegmentFits(pattern[w + 1..][j - w - 1], after[j - w - 1]);
      }
    }
  }

  lemma SinglesFit(pattern: seq<string>, incoming: seq<string>)
    requires SegmentsFit(pattern, incoming)
    ensures Fits(pattern, incoming, Singles(incoming))
  {
    ConcatSingles(incoming);
    forall j | 0 <= j < |pattern|
      ensures BlockFits(pattern[j], Singles(incoming)[j])
    {
      assert SegmentFits(pattern[j], incoming[j]);
    }
  }

  lemma WildcardTakesTheRest(pattern: seq<string>, incoming: seq<string>, w: nat) returns (blocks: seq<seq<string>>)
    requires w < |pattern| <= |incoming| && IsWildcard(pattern[w])
    requires SegmentsFit(pattern[..w], incoming[..w])
    requires SegmentsFit(pattern[w + 1..], incoming[|incoming| - (|pattern| - w - 1)..])
    ensures Fits(pattern, incoming, blocks)
    ensures forall j :: w < j < |blocks| ==> |blocks[j]| == 1
  {
    var end := |incoming| - (|pattern| - w - 1);
    var before, block, after := incoming[..w], incoming[w..end], incoming[end..];
    blocks := Around(before, block, after);
    BlocksAround(pattern, w, before, block, after);
    assert before + block + after == incoming;
  }

  lemma PositionIsGreedy(pattern: seq<string>, incoming: seq<string>)
    requires MatchesByPosition(pattern, incoming)
    ensures Matchable(pattern, incoming)
  {
    var w := FirstWildcard(pattern);
    var blocks;
    if w == |pattern| {
      blocks := Singles(incoming);
      SinglesFit(pattern, incoming);
    } else {
      blocks := WildcardTakesTheRest(pattern, incoming, w);
    }
    assert GreedyFits(pattern, incoming, blocks);
  }

  /** The scan matches exactly the requests that fit the pattern position by position. */
  lemma MatchableByPosition(pattern: seq<string>, incoming: seq<string>)
    ensures Matchable(pattern, incoming) <==> MatchesByPosition(pattern, incoming)
  {
    if Matchable(pattern, incoming) {
      var b :| GreedyFits(pattern, incoming, b);
      GreedyIsByPosition(pattern, incoming, b);
    }
    if MatchesByPosition(pattern, incoming) {
      PositionIsGreedy(pattern, incoming);
    }
  }

  // ---------------------------------------------------------------- patterns the scan is complete for

  /** What `Segments` yields, for requests as for registered paths. */
  predicate NoEmptySegment(segments: seq<string>) {
    forall k :: 0 <= k < |segments| ==> segments[k] != ""
  }

  ghost predicate Substitutable(pattern: seq<string>, incoming: seq<string>) {
    exists b :: Fits(pattern, incoming, b)
  }

  predicate NoLiteralBetweenWildcards(pattern: seq<string>) {
    forall i, k, l :: 0 <= i < k < l < |pattern| && IsWildcard(pattern[i]) && IsWildcard(pattern[l]) ==>
      !IsLiteral(pattern[k])
  }

  /** The scan matches whenever placeholders can be substituted at all. */
  ghost predicate ScanIsComplete(pattern: seq<string>) {
    forall incoming :: NoEmptySegment(incoming) && Substitutable(pattern, incoming) ==> Matchable(pattern, incoming)
  }

  lemma {:induction false} LastWildcard(pattern: seq<string>, w: nat, n: nat) returns (l: nat)
    requires w < n <= |pattern| && IsWildcard(pattern[w])
    ensures w <= l < n && IsWildcard(pattern[l])
    ensures forall j :: l < j < n ==> !IsWildcard(pattern[j])
  {
    l := n - 1;
    if !IsWildcard(pattern[l]) {
      l := LastWildcard(pattern, w, n - 1);
    }
  }

  /** Behind the last wildcard every substitution is forced; before it anything fits but a literal. */
  lemma BehindWildcardFits(pattern: seq<string>, incoming: seq<string>, blocks: seq<seq<string>>, w: nat)
    requires NoLiteralBetweenWildcards(pattern) && NoEmptySegment(incoming) && Fits(pattern, incoming, blocks)
    requires w < |pattern| && IsWildcard(pattern[w])
    ensures |pattern| <= |incoming|
    ensures SegmentsFit(pattern[w + 1..], incoming[|incoming| - (|pattern| - w - 1)..])
  {
    var l := LastWildcard(pattern, w, |pattern|);
    BlockSizes(pattern, incoming, blocks);
    NoLiteralUpTo(pattern, w, l);
    BackFits(pattern, incoming, blocks, l + 1);
    BetweenFits(pattern, incoming, w, l);
  }

  lemma SubstitutionIsByPosition(pattern: seq<string>, incoming: seq<string>, blocks: seq<seq<string>>)
    requires NoLiteralBetweenWildcards(pattern) && NoEmptySegment(incoming) && Fits(pattern, incoming, blocks)
    ensures MatchesByPosition(pattern, incoming)
  {
    var w := FirstWildcard(pattern);
    BlockSizes(pattern, incoming, blocks);
    FrontFits(pattern, incoming, blocks, w);
    if w < |pattern| {
      BehindWildcardFits(pattern, incoming, blocks, w);
    } else {
      assert pattern[..w] == pattern && incoming[..w] == incoming;
    }
  }

  lemma NoLiteralUpTo(pattern: seq<string>, w: nat, l: nat)
    requires NoLiteralBetweenWildcards(pattern) && w <= l < |pattern|
    requires IsWildcard(pattern[w]) && IsWildcard(pattern[l])
    ensures forall j :: w < j <= l ==> !IsLiteral(pattern[j])
  {
  }

  lemma BetweenFits(pattern: seq<string>, incoming: seq<string>, w: nat, l: nat)
    requires NoEmptySegment(incoming) && w <= l < |pattern| <= |incoming|
    requires forall j :: w < j <= l ==> !IsLiteral(pattern[j])
    requires SegmentsFit(pattern[l + 1..], incoming[|incoming| - (|pattern| - l - 1)..])
    ensures SegmentsFit(pattern[w + 1..], incoming[|incoming| - (|pattern| - w - 1)..])
  {
    var late, all := incoming[|incoming| - (|pattern| - l - 1)..], incoming[|incoming| - (|pattern| - w - 1)..];
    forall j | 0 <= j < |all|
      ensures SegmentFits(pattern[w + 1..][j], all[j])
    {
      if w + 1 + j <= l {
        assert !IsLiteral(pattern[w + 1 + j]) && all[j] in incoming;
      } else {
        assert SegmentFits(pattern[l + 1..][j - (l - w)], late[j - (l - w)]);
      }
    }
  }

  /** A segment that fits the pattern segment: itself if it is a literal, else the given one. */
  function Sample(pat: string, x: string): string {
    if IsLiteral(pat) then pat else x
  }

  function SampleOf(pattern: seq<string>, x: string): (s: seq<string>)
    ensures |s| == |pattern|
    ensures forall j :: 0 <= j < |pattern| ==> s[j] == Sample(pattern[j], x)
  {
    seq(|pattern|, j requires 0 <= j < |pattern| => Sample(pattern[j], x))
  }

  /** One segment for each pattern segment, and one more for the wildcard at `l`. */
  function SampleRequest(pattern: seq<string>, l: nat, x: string): (s: seq<string>)
    requires l < |pattern|
    ensures |s| == |pattern| + 1
  {
    SampleOf(pattern[..l], x) + [x, x] + SampleOf(pattern[l + 1..], x)
  }

  lemma SampleFits(pattern: seq<string>, x: string)
    requires x != ""
    ensures SegmentsFit(pattern, SampleOf(pattern, x))
    ensures NoEmptySegment(pattern) ==> NoEmptySegment(SampleOf(pattern, x))
  {
  }

  lemma SampleIsSubstitutable(pattern: seq<string>, l: nat, x: string)
    requires l < |pattern| && IsWildcard(pattern[l]) && x != ""
    ensures Substitutable(pattern, SampleRequest(pattern, l, x))
    ensures NoEmptySegment(pattern) ==> NoEmptySegment(SampleRequest(pattern, l, x))
  {
    var before, after := SampleOf(pattern[..l], x), SampleOf(pattern[l + 1..], x);
    SampleFits(pattern[..l], x);
    SampleFits(pattern[l + 1..], x);
    BlocksAround(pattern, l, before, [x, x], after);
    assert Fits(pattern, SampleRequest(pattern, l, x), Around(before, [x, x], after));
  }

  lemma SampleAfter(pattern: seq<string>, k: nat, l: nat, x: string)
    requires k < l < |pattern| && !IsLiteral(pattern[k + 1])
    ensures SampleRequest(pattern, l, x)[k + 1] == x
  {
    if k + 1 < l {
      assert SampleOf(pattern[..l], x)[k + 1] == Sample(pattern[..l][k + 1], x);
    }
  }

  /** A literal behind the first wildcard is compared with the segment as far from the end. */
  lemma LiteralIsCompared(pattern: seq<string>, incoming: seq<string>, i: nat, k: nat)
    requires i < k < |pattern| && IsWildcard(pattern[i]) && IsLiteral(pattern[k])
    requires |incoming| == |pattern| + 1 && incoming[k + 1] != pattern[k]
    ensures !MatchesByPosition(pattern, incoming)
  {
    var w := FirstWildcard(pattern);
    assert w <= i;
    var patterns, segments := pattern[w + 1..], incoming[w + 2..];
    assert patterns[k - w - 1] == pattern[k] && segments[k - w - 1] == incoming[k + 1];
    assert [incoming[k + 1]][0] != [pattern[k]][0];
    assert !SegmentFits(patterns[k - w - 1], segments[k - w - 1]);
  }

  /** A literal between two wildcards is missed in some request. */
  lemma {:induction false} LiteralIsMissed(pattern: seq<string>, i: nat, k: nat, l: nat)
    requires NoEmptySegment(pattern) && i < k < l < |pattern|
    requires IsWildcard(pattern[i]) && IsWildcard(pattern[l]) && IsLiteral(pattern[k])
    ensures !ScanIsComplete(pattern)
    decreases l - k
  {
    if IsLiteral(pattern[k + 1]) {
      LiteralIsMissed(pattern, i, k + 1, l);
    } else {
      var x := OtherThan(pattern[k]);
      SampleIsSubstitutable(pattern, l, x);
      SampleAfter(pattern, k, l, x);
      LiteralIsCompared(pattern, SampleRequest(pattern, l, x), i, k);
      MatchableByPosition(pattern, SampleRequest(pattern, l, x));
    }
  }

  function OtherThan(s: string): (x: string)
    ensures x != s && x != ""
  {
    if s == "x" then "y" else "x"
  }

  /**
   * The scan finds a substitution whenever there is one iff the pattern has no literal between two
   * wildcards; patterns with at most one wildcard have none.
   */
  lemma ScanIsCompleteIff(pattern: seq<string>)
    requires NoEmptySegment(pattern)
    ensures ScanIsComplete(pattern) <==> NoLiteralBetweenWildcards(pattern)
    ensures AtMostOneWildcard(pattern) ==> NoLiteralBetweenWildcards(pattern)
  {
    if NoLiteralBetweenWildcards(pattern) {
      forall incoming | NoEmptySegment(incoming) && Substitutable(pattern, incoming)
        ensures Matchable(pattern, incoming)
      {
        var b :| Fits(pattern, incoming, b);
        SubstitutionIsByPosition(pattern, incoming, b);
        PositionIsGreedy(pattern, incoming);
      }
    } else {
      var i, k, l :| 0 <= i < k < l < |pattern| && IsWildcard(pattern[i]) && IsWildcard(pattern[l])
                     && IsLiteral(pattern[k]);
      LiteralIsMissed(pattern, i, k, l);
    }
  }
}
