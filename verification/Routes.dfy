// Route matching of the dispatcher: a pattern of literal segments, `{name}` placeholders for one
// segment and `{name+}` wildcards for one or more, scanned against the segments of a request path.
module Routes {
  import opened Text

  type Binding = (string, string)

  /** `path.split('/')` without the empty pieces. */
  function NonEmpty(parts: seq<string>): (segments: seq<string>)
    ensures forall k :: 0 <= k < |segments| ==> segments[k] != "" && segments[k] in parts
  {
    if parts == [] then []
    else if parts[0] == "" then NonEmpty(parts[1..])
    else [parts[0]] + NonEmpty(parts[1..])
  }

  function Segments(path: string): seq<string> {
    NonEmpty(Split(path, '/'))
  }

  /** `{name+}`. */
  predicate IsWildcard(pat: string) {
    |pat| >= 3 && pat[0] == '{' && pat[|pat| - 2] == '+' && pat[|pat| - 1] == '}'
  }

  /** `{name}`, wildcards excepted. */
  predicate IsPlaceholder(pat: string) {
    !IsWildcard(pat) && |pat| >= 2 && pat[0] == '{' && pat[|pat| - 1] == '}'
  }

  predicate IsLiteral(pat: string) {
    !IsWildcard(pat) && !IsPlaceholder(pat)
  }

  function NameOf(pat: string): string
    requires !IsLiteral(pat)
  {
    if IsWildcard(pat) then pat[1..|pat| - 2] else pat[1..|pat| - 1]
  }

  // ---------------------------------------------------------------- what a match is

  function Concat(blocks: seq<seq<string>>): seq<string> {
    if blocks == [] then [] else blocks[0] + Concat(blocks[1..])
  }

  /** The run of request segments one pattern segment stands for. */
  predicate BlockFits(pat: string, block: seq<string>) {
    if IsWildcard(pat) then block != []
    else if IsPlaceholder(pat) then |block| == 1 && block[0] != ""
    else block == [pat]
  }

  /** The request is the pattern with every segment replaced by a run of segments that fits it. */
  predicate Fits(pattern: seq<string>, incoming: seq<string>, blocks: seq<seq<string>>) {
    && |blocks| == |pattern|
    && Concat(blocks) == incoming
    && forall k :: 0 <= k < |pattern| ==> BlockFits(pattern[k], blocks[k])
  }

  /** The position of the first wildcard, or the length if there is none. */
  function FirstWildcard(pattern: seq<string>): (w: nat)
    ensures w <= |pattern|
    ensures w < |pattern| ==> IsWildcard(pattern[w])
    ensures forall k :: 0 <= k < w ==> !IsWildcard(pattern[k])
  {
    if pattern == [] || IsWildcard(pattern[0]) then 0 else 1 + FirstWildcard(pattern[1..])
  }

  /** Behind the first wildcard every pattern segment stands for one request segment. */
  predicate FirstWildcardTakesAll(pattern: seq<string>, blocks: seq<seq<string>>) {
    forall k :: FirstWildcard(pattern) < k < |blocks| ==> |blocks[k]| == 1
  }

  predicate GreedyFits(pattern: seq<string>, incoming: seq<string>, blocks: seq<seq<string>>) {
    Fits(pattern, incoming, blocks) && FirstWildcardTakesAll(pattern, blocks)
  }

  function Bound(pat: string, block: seq<string>): seq<Binding> {
    if IsLiteral(pat) then [] else [(NameOf(pat), Join(block, '/'))]
  }

  /** The names and values a match hands to the handler, in pattern order. */
  function BindingsOf(pattern: seq<string>, blocks: seq<seq<string>>): seq<Binding>
    requires |blocks| == |pattern|
  {
    if pattern == [] then []
    else
      var n := |pattern| - 1;
      BindingsOf(pattern[..n], blocks[..n]) + Bound(pattern[n], blocks[n])
  }

  // ---------------------------------------------------------------- lengths

  lemma {:induction false} ConcatSplit(blocks: seq<seq<string>>, k: nat)
    requires k <= |blocks|
    ensures Concat(blocks) == Concat(blocks[..k]) + Concat(blocks[k..])
  {
    if k == 0 {
      assert blocks[0..] == blocks;
    } else {
      ConcatSplit(blocks[1..], k - 1);
      assert blocks[..k][1..] == blocks[1..][..k - 1] && blocks[1..][k - 1..] == blocks[k..];
    }
  }

  lemma {:induction false} ConcatLength(blocks: seq<seq<string>>)
    requires forall k :: 0 <= k < |blocks| ==> blocks[k] != []
    ensures |Concat(blocks)| >= |blocks|
    ensures (forall k :: 0 <= k < |blocks| ==> |blocks[k]| == 1) ==> |Concat(blocks)| == |blocks|
  {
    if blocks != [] {
      ConcatLength(blocks[1..]);
    }
  }

  lemma ConcatSnoc(blocks: seq<seq<string>>, block: seq<string>)
    ensures Concat(blocks + [block]) == Concat(blocks) + block
  {
    var more := blocks + [block];
    ConcatSplit(more, |blocks|);
    assert more[..|blocks|] == blocks && more[|blocks|..] == [block];
    assert [block][1..] == [] && Concat([block]) == block;
  }

  // ---------------------------------------------------------------- the scan

  /** The segments matched so far and those left, for any greedy match of the whole. */
  ghost predicate Forced(pattern: seq<string>, incoming: seq<string>, done: seq<seq<string>>) {
    forall blocks :: GreedyFits(pattern, incoming, blocks) ==> |done| <= |blocks| && blocks[..|done|] == done
  }

  lemma RestLength(pattern: seq<string>, incoming: seq<string>, blocks: seq<seq<string>>, k: nat)
    requires GreedyFits(pattern, incoming, blocks) && k < |pattern|
    ensures |Concat(blocks[k + 1..])| >= |pattern| - k - 1
    ensures FirstWildcard(pattern) <= k ==> |Concat(blocks[k + 1..])| == |pattern| - k - 1
  {
    var rest := blocks[k + 1..];
    forall j | 0 <= j < |rest|
      ensures rest[j] != []
      ensures FirstWildcard(pattern) <= k ==> |rest[j]| == 1
    {
      assert BlockFits(pattern[k + 1 + j], blocks[k + 1 + j]);
    }
    ConcatLength(rest);
  }

  /** What is left of a greedy match whose first blocks are known. */
  lemma RestOfMatch(pattern: seq<string>, incoming: seq<string>, done: seq<seq<string>>, blocks: seq<seq<string>>)
    requires GreedyFits(pattern, incoming, blocks) && |done| < |pattern| && blocks[..|done|] == done
    ensures var n, k := |Concat(done)|, |done|;
      && n <= |incoming|
      && incoming[n..] == blocks[k] + Concat(blocks[k + 1..])
      && BlockFits(pattern[k], blocks[k])
      && |incoming| - n - |blocks[k]| >= |pattern| - k - 1
      && (FirstWildcard(pattern) <= k ==> |incoming| - n - |blocks[k]| == |pattern| - k - 1)
  {
    var k := |done|;
    ConcatSplit(blocks, k);
    assert blocks[k..][1..] == blocks[k + 1..];
    assert Concat(blocks[k..]) == blocks[k] + Concat(blocks[k + 1..]);
    RestLength(pattern, incoming, blocks, k);
  }

  /** How many segments the next pattern segment takes; 0 if it cannot match. */
  function StepLength(pattern: seq<string>, incoming: seq<string>, incIdx: nat, pcIdx: nat): (n: nat)
    requires incIdx <= |incoming| && pcIdx < |pattern|
    ensures n <= |incoming| - incIdx
  {
    var pat := pattern[pcIdx];
    if IsWildcard(pat) then
      var remainingPattern := |pattern| - pcIdx - 1;
      var remainingIncoming := |incoming| - incIdx;
      if remainingIncoming <= remainingPattern then 0 else remainingIncoming - remainingPattern
    else if incIdx >= |incoming| then 0
    else if IsPlaceholder(pat) then (if incoming[incIdx] == "" then 0 else 1)
    else if pat == incoming[incIdx] then 1 else 0
  }

  /** The scan has matched `done`, a greedy match of what it consumed. */
  predicate ScannedSoFar(pattern: seq<string>, incoming: seq<string>, incIdx: nat, done: seq<seq<string>>) {
    && |done| <= |pattern| && incIdx <= |incoming|
    && Concat(done) == incoming[..incIdx]
    && (forall k :: 0 <= k < |done| ==> BlockFits(pattern[k], done[k]))
    && FirstWildcardTakesAll(pattern, done)
    && (FirstWildcard(pattern) < |done| ==> |incoming| - incIdx == |pattern| - |done|)
  }

  /** ... and nothing else was possible. */
  ghost predicate Scanned(pattern: seq<string>, incoming: seq<string>, incIdx: nat, done: seq<seq<string>>) {
    ScannedSoFar(pattern, incoming, incIdx, done) && Forced(pattern, incoming, done)
  }

  lemma ScanStuck(pattern: seq<string>, incoming: seq<string>, incIdx: nat, done: seq<seq<string>>)
    requires Scanned(pattern, incoming, incIdx, done) && |done| < |pattern|
    requires StepLength(pattern, incoming, incIdx, |done|) == 0
    ensures !Matchable(pattern, incoming)
  {
    if blocks :| GreedyFits(pattern, incoming, blocks) {
      RestOfMatch(pattern, incoming, done, blocks);
    }
  }

  lemma PrefixOfRest(incoming: seq<string>, n: nat, block: seq<string>, rest: seq<string>)
    requires n <= |incoming| && incoming[n..] == block + rest
    ensures n + |block| <= |incoming| && block == incoming[n..n + |block|]
  {
    assert incoming[n..][..|block|] == block;
  }

  /** The known blocks end at `incIdx` and, behind the first wildcard, as many segments are left on both sides. */
  predicate InStep(pattern: seq<string>, incoming: seq<string>, incIdx: nat, done: seq<seq<string>>) {
    && |done| < |pattern| && incIdx <= |incoming| && Concat(done) == incoming[..incIdx]
    && (FirstWildcard(pattern) < |done| ==> |incoming| - incIdx == |pattern| - |done|)
  }

  lemma NextLengthIsForced(
    pattern: seq<string>, incoming: seq<string>, incIdx: nat, done: seq<seq<string>>, blocks: seq<seq<string>>)
    requires InStep(pattern, incoming, incIdx, done)
    requires GreedyFits(pattern, incoming, blocks) && blocks[..|done|] == done
    requires StepLength(pattern, incoming, incIdx, |done|) > 0
    ensures |blocks[|done|]| == StepLength(pattern, incoming, incIdx, |done|)
  {
    RestOfMatch(pattern, incoming, done, blocks);
  }

  lemma NextBlockIsForced(
    pattern: seq<string>, incoming: seq<string>, incIdx: nat, done: seq<seq<string>>, blocks: seq<seq<string>>)
    requires InStep(pattern, incoming, incIdx, done)
    requires GreedyFits(pattern, incoming, blocks) && blocks[..|done|] == done
    requires StepLength(pattern, incoming, incIdx, |done|) > 0
    ensures var n := StepLength(pattern, incoming, incIdx, |done|);
      blocks[..|done| + 1] == done + [incoming[incIdx..incIdx + n]]
  {
    var k := |done|;
    NextLengthIsForced(pattern, incoming, incIdx, done, blocks);
    RestOfMatch(pattern, incoming, done, blocks);
    PrefixOfRest(incoming, incIdx, blocks[k], Concat(blocks[k + 1..]));
    assert blocks[..k + 1] == blocks[..k] + [blocks[k]];
  }

  lemma StepIsForced(pattern: seq<string>, incoming: seq<string>, incIdx: nat, done: seq<seq<string>>)
    requires InStep(pattern, incoming, incIdx, done)
    requires StepLength(pattern, incoming, incIdx, |done|) > 0 && Forced(pattern, incoming, done)
    ensures var n := StepLength(pattern, incoming, incIdx, |done|);
      Forced(pattern, incoming, done + [incoming[incIdx..incIdx + n]])
  {
    forall blocks | GreedyFits(pattern, incoming, blocks)
      ensures |done| + 1 <= |blocks|
      ensures blocks[..|done| + 1]
        == done + [incoming[incIdx..incIdx + StepLength(pattern, incoming, incIdx, |done|)]]
    {
      NextBlockIsForced(pattern, incoming, incIdx, done, blocks);
    }
  }

  lemma StepKeepsScan(pattern: seq<string>, incoming: seq<string>, incIdx: nat, done: seq<seq<string>>)
    requires ScannedSoFar(pattern, incoming, incIdx, done) && |done| < |pattern|
    requires StepLength(pattern, incoming, incIdx, |done|) > 0
    ensures var n := StepLength(pattern, incoming, incIdx, |done|);
      ScannedSoFar(pattern, incoming, incIdx + n, done + [incoming[incIdx..incIdx + n]])
  {
    var n, k := StepLength(pattern, incoming, incIdx, |done|), |done|;
    var block := incoming[incIdx..incIdx + n];
    ConcatSnoc(done, block);
    assert incoming[..incIdx + n] == incoming[..incIdx] + block;
    assert n == 1 ==> block == [incoming[incIdx]];
    assert BlockFits(pattern[k], block);
  }

  lemma ScanStep(pattern: seq<string>, incoming: seq<string>, incIdx: nat, done: seq<seq<string>>)
    requires Scanned(pattern, incoming, incIdx, done) && |done| < |pattern|
    requires StepLength(pattern, incoming, incIdx, |done|) > 0
    ensures var n := StepLength(pattern, incoming, incIdx, |done|);
      Scanned(pattern, incoming, incIdx + n, done + [incoming[incIdx..incIdx + n]])
  {
    StepKeepsScan(pattern, incoming, incIdx, done);
    StepIsForced(pattern, incoming, incIdx, done);
  }

  /** Matches one pattern segment: how many request segments it takes, 0 for none, and what it binds. */
  method MatchNext(pattern: seq<string>, incoming: seq<string>, incIdx: nat, pcIdx: nat)
    returns (consumed: nat, bound: seq<Binding>)
    requires incIdx <= |incoming| && pcIdx < |pattern|
    ensures consumed == StepLength(pattern, incoming, incIdx, pcIdx)
    ensures consumed > 0 ==>
      bound == Bound(pattern[pcIdx], incoming[incIdx..incIdx + consumed])
  {
    consumed, bound := 0, [];
    var pat := pattern[pcIdx];
    if IsWildcard(pat) {
      var remainingPattern := |pattern| - pcIdx - 1;
      var remainingIncoming := |incoming| - incIdx;
      if remainingIncoming <= remainingPattern {
        return;
      }
      consumed := remainingIncoming - remainingPattern;
      bound := [(NameOf(pat), Join(incoming[incIdx..incIdx + consumed], '/'))];
      return;
    }
    if incIdx >= |incoming| {
      return;
    }
    assert incoming[incIdx..incIdx + 1] == [incoming[incIdx]];
    if IsPlaceholder(pat) {
      if incoming[incIdx] != "" {
        consumed, bound := 1, [(NameOf(pat), incoming[incIdx])];
      }
    } else if pat == incoming[incIdx] {
      consumed := 1;
    }
  }

  ghost predicate Matchable(pattern: seq<string>, incoming: seq<string>) {
    exists b :: GreedyFits(pattern, incoming, b)
  }

  /** The values collected so far are the bindings of the blocks matched so far. */
  predicate Collected(pattern: seq<string>, values: seq<Binding>, done: seq<seq<string>>) {
    |done| <= |pattern| && values == BindingsOf(pattern[..|done|], done)
  }

  lemma CollectedSnoc(pattern: seq<string>, values: seq<Binding>, done: seq<seq<string>>, block: seq<string>)
    requires Collected(pattern, values, done) && |done| < |pattern|
    ensures Collected(pattern, values + Bound(pattern[|done|], block), done + [block])
  {
    var k := |done|;
    assert pattern[..k + 1][..k] == pattern[..k] && (done + [block])[..k] == done;
  }

  /** The loop invariant of the scan. */
  ghost predicate ScanState(
    pattern: seq<string>, incoming: seq<string>, incIdx: nat, values: seq<Binding>, done: seq<seq<string>>)
  {
    Scanned(pattern, incoming, incIdx, done) && Collected(pattern, values, done)
  }

  lemma ScanStateStep(
    pattern: seq<string>, incoming: seq<string>, incIdx: nat, values: seq<Binding>, done: seq<seq<string>>,
    consumed: nat, block: seq<string>)
    requires ScanState(pattern, incoming, incIdx, values, done) && |done| < |pattern|
    requires consumed == StepLength(pattern, incoming, incIdx, |done|) > 0
    requires block == incoming[incIdx..incIdx + consumed]
    ensures ScanState(pattern, incoming, incIdx + consumed, values + Bound(pattern[|done|], block), done + [block])
  {
    ScanStep(pattern, incoming, incIdx, done);
    CollectedSnoc(pattern, values, done, block);
  }

  lemma ScanStarts(pattern: seq<string>, incoming: seq<string>)
    ensures ScanState(pattern, incoming, 0, [], [])
  {
    assert incoming[..0] == [] && pattern[..0] == [];
  }

  /** The two-pointer scan of `dispatch`, up to the end of the pattern. */
  method ScanPattern(pattern: seq<string>, incoming: seq<string>)
    returns (matched: bool, incIdx: nat, placeholderValues: seq<Binding>, ghost blocks: seq<seq<string>>)
    ensures !matched ==> !Matchable(pattern, incoming)
    ensures matched ==> ScanState(pattern, incoming, incIdx, placeholderValues, blocks) && |blocks| == |pattern|
  {
    matched, incIdx, placeholderValues, blocks := true, 0, [], [];
    var pcIdx := 0;
    ScanStarts(pattern, incoming);
    while pcIdx < |pattern|
      invariant pcIdx == |blocks| <= |pattern| && incIdx <= |incoming|
      invariant ScanState(pattern, incoming, incIdx, placeholderValues, blocks)
    {
      var consumed, bound := MatchNext(pattern, incoming, incIdx, pcIdx);
      if consumed == 0 {
        ScanStuck(pattern, incoming, incIdx, blocks);
        matched := false;
        return;
      }
      ghost var block := incoming[incIdx..incIdx + consumed];
      ScanStateStep(pattern, incoming, incIdx, placeholderValues, blocks, consumed, block);
      blocks := blocks + [block];
      placeholderValues := placeholderValues + bound;
      incIdx := incIdx + consumed;
      pcIdx := pcIdx + 1;
    }
  }

  /** A pattern matches if the scan uses up the request. */
  method MatchSegments(pattern: seq<string>, incoming: seq<string>)
    returns (matched: bool, placeholderValues: seq<Binding>, ghost blocks: seq<seq<string>>)
    ensures matched <==> Matchable(pattern, incoming)
    ensures matched ==> GreedyFits(pattern, incoming, blocks) && placeholderValues == BindingsOf(pattern, blocks)
  {
    var incIdx;
    matched, incIdx, placeholderValues, blocks := ScanPattern(pattern, incoming);
    if matched {
      ScanEnds(pattern, incoming, incIdx, blocks);
      assert pattern[..|pattern|] == pattern;
      matched := incIdx == |incoming|;
    }
  }

  /** The whole pattern is matched: the request has to be used up as well. */
  lemma ScanEnds(pattern: seq<string>, incoming: seq<string>, incIdx: nat, done: seq<seq<string>>)
    requires Scanned(pattern, incoming, incIdx, done) && |done| == |pattern|
    ensures incIdx == |incoming| ==> GreedyFits(pattern, incoming, done)
    ensures incIdx != |incoming| ==> !Matchable(pattern, incoming)
  {
    assert incoming[..|incoming|] == incoming;
    forall b | GreedyFits(pattern, incoming, b)
      ensures incIdx == |incoming|
    {
      assert b[..|done|] == b;
    }
  }

  // ---------------------------------------------------------------- what a match guarantees

  predicate AtMostOneWildcard(pattern: seq<string>) {
    forall k :: FirstWildcard(pattern) < k < |pattern| ==> !IsWildcard(pattern[k])
  }

  /** With at most one wildcard every substitution is greedy, so the scan finds it if there is one. */
  lemma OneWildcardIsGreedy(pattern: seq<string>, incoming: seq<string>, blocks: seq<seq<string>>)
    requires AtMostOneWildcard(pattern) && Fits(pattern, incoming, blocks)
    ensures GreedyFits(pattern, incoming, blocks)
  {
    forall k | FirstWildcard(pattern) < k < |blocks|
      ensures |blocks[k]| == 1
    {
      assert BlockFits(pattern[k], blocks[k]);
    }
  }

  /** A greedy match is unique. */
  lemma {:induction false} GreedyMatchIsUnique(
    pattern: seq<string>, incoming: seq<string>, a: seq<seq<string>>, b: seq<seq<string>>, k: nat)
    requires GreedyFits(pattern, incoming, a) && GreedyFits(pattern, incoming, b) && k <= |pattern|
    ensures a[..k] == b[..k]
    ensures k == |pattern| ==> a == b
  {
    if k > 0 {
      var done := a[..k - 1];
      GreedyMatchIsUnique(pattern, incoming, a, b, k - 1);
      RestOfMatch(pattern, incoming, done, a);
      RestOfMatch(pattern, incoming, done, b);
      SameLength(pattern, incoming, a, b, k - 1);
      var n := |Concat(done)|;
      assert incoming[n..][..|a[k - 1]|] == a[k - 1] && incoming[n..][..|a[k - 1]|] == b[k - 1];
      assert a[..k] == done + [a[k - 1]] && b[..k] == done + [b[k - 1]];
    }
    assert a[..|a|] == a && b[..|b|] == b;
  }

  lemma SameLength(pattern: seq<string>, incoming: seq<string>, a: seq<seq<string>>, b: seq<seq<string>>, k: nat)
    requires GreedyFits(pattern, incoming, a) && GreedyFits(pattern, incoming, b)
    requires k < |pattern| && a[..k] == b[..k]
    ensures |a[k]| == |b[k]|
  {
    RestOfMatch(pattern, incoming, a[..k], a);
    RestOfMatch(pattern, incoming, a[..k], b);
  }

  /**
   * Patterns with at most one `{name+}`: the scan matches iff the request is the pattern with
   * placeholders substituted, and the substitution is the only one.
   */
  lemma MatchIsSubstitution(pattern: seq<string>, incoming: seq<string>)
    requires AtMostOneWildcard(pattern)
    ensures Matchable(pattern, incoming) <==> exists b :: Fits(pattern, incoming, b)
    ensures forall a, b :: Fits(pattern, incoming, a) && Fits(pattern, incoming, b) ==> a == b
  {
    forall b | Fits(pattern, incoming, b)
      ensures GreedyFits(pattern, incoming, b)
    {
      OneWildcardIsGreedy(pattern, incoming, b);
    }
    forall a, b | Fits(pattern, incoming, a) && Fits(pattern, incoming, b)
      ensures a == b
    {
      GreedyMatchIsUnique(pattern, incoming, a, b, |pattern|);
    }
  }

  /** In a three-segment pattern that starts with a wildcard the middle takes the last segment but one. */
  lemma MiddleSegment(pattern: seq<string>, incoming: seq<string>, blocks: seq<seq<string>>)
    requires |pattern| == 3 && IsWildcard(pattern[0]) && GreedyFits(pattern, incoming, blocks)
    ensures |incoming| >= 2 && BlockFits(pattern[1], [incoming[|incoming| - 2]])
  {
    RestOfMatch(pattern, incoming, [], blocks);
    assert blocks[1..][1..] == blocks[2..] && blocks[2..][1..] == [];
    assert Concat(blocks[2..]) == blocks[2] + [] == blocks[2];
    assert Concat(blocks[1..]) == blocks[1] + blocks[2];
    assert incoming == blocks[0] + (blocks[1] + blocks[2]);
    assert blocks[1] == [incoming[|incoming| - 2]];
    assert BlockFits(pattern[1], blocks[1]);
  }

  /** With two wildcards the scan misses substitutions: `{a+}/x/{b+}` does not match `p/x/q/r`. */
  lemma TwoWildcardsMissMatches()
    ensures var pattern, incoming := ["{a+}", "x", "{b+}"], ["p", "x", "q", "r"];
      && (exists b :: Fits(pattern, incoming, b))
      && !Matchable(pattern, incoming)
  {
    var pattern, incoming := ["{a+}", "x", "{b+}"], ["p", "x", "q", "r"];
    var blocks := [["p"], ["x"], ["q", "r"]];
    assert Concat([["q", "r"]]) == ["q", "r"] && Concat([["x"], ["q", "r"]]) == ["x", "q", "r"] by {
      assert [["q", "r"]][1..] == [] && [["x"], ["q", "r"]][1..] == [["q", "r"]];
    }
    assert blocks[1..] == [["x"], ["q", "r"]] && Concat(blocks) == incoming;
    assert Fits(pattern, incoming, blocks);
    forall b | GreedyFits(pattern, incoming, b)
      ensures false
    {
      MiddleSegment(pattern, incoming, b);
    }
  }

  // ---------------------------------------------------------------- substituting back

  /** The pattern with the bound values put back in order, as a path. */
  function Substituted(pattern: seq<string>, values: seq<Binding>): seq<string> {
    if pattern == [] then []
    else
      var n, front := |pattern| - 1, pattern[..|pattern| - 1];
      if IsLiteral(pattern[n]) then Substituted(front, values) + [pattern[n]]
      else if values == [] then Substituted(front, values) + [pattern[n]]
      else Substituted(front, values[..|values| - 1]) + [values[|values| - 1].1]
  }

  function Texts(blocks: seq<seq<string>>): seq<string> {
    seq(|blocks|, k requires 0 <= k < |blocks| => Join(blocks[k], '/'))
  }

  lemma TextsSnoc(blocks: seq<seq<string>>, block: seq<string>)
    ensures Texts(blocks + [block]) == Texts(blocks) + [Join(block, '/')]
  {
  }

  /** One more pattern segment puts back one more value, if it has one. */
  lemma SubstitutedSnoc(front: seq<string>, pat: string, values: seq<Binding>, block: seq<string>)
    requires BlockFits(pat, block)
    ensures Substituted(front + [pat], values + Bound(pat, block))
      == Substituted(front, values) + [Join(block, '/')]
  {
    var pattern, all := front + [pat], values + Bound(pat, block);
    assert pattern[..|pattern| - 1] == front && pattern[|pattern| - 1] == pat;
    if IsLiteral(pat) {
      assert all == values && Join(block, '/') == pat;
    } else {
      assert all[..|all| - 1] == values;
    }
  }

  lemma BindingsSnoc(front: seq<string>, pat: string, blocks: seq<seq<string>>, block: seq<string>)
    requires |blocks| == |front|
    ensures BindingsOf(front + [pat], blocks + [block]) == BindingsOf(front, blocks) + Bound(pat, block)
  {
    assert (front + [pat])[..|front|] == front && (blocks + [block])[..|blocks|] == blocks;
  }

  lemma OneMoreSubstituted(front: seq<string>, pat: string, blocks: seq<seq<string>>, block: seq<string>)
    requires |blocks| == |front| && BlockFits(pat, block)
    requires Substituted(front, BindingsOf(front, blocks)) == Texts(blocks)
    ensures Substituted(front + [pat], BindingsOf(front + [pat], blocks + [block])) == Texts(blocks + [block])
  {
    BindingsSnoc(front, pat, blocks, block);
    SubstitutedSnoc(front, pat, BindingsOf(front, blocks), block);
    TextsSnoc(blocks, block);
  }

  lemma FrontAndLast<T>(s: seq<T>)
    requires s != []
    ensures s == s[..|s| - 1] + [s[|s| - 1]]
  {
  }

  lemma {:induction false} SubstitutedBindings(pattern: seq<string>, blocks: seq<seq<string>>)
    requires |blocks| == |pattern|
    requires forall k :: 0 <= k < |pattern| ==> BlockFits(pattern[k], blocks[k])
    ensures Substituted(pattern, BindingsOf(pattern, blocks)) == Texts(blocks)
  {
    if pattern != [] {
      var n := |pattern| - 1;
      FrontAndLast(pattern);
      FrontAndLast(blocks);
      SubstitutedBindings(pattern[..n], blocks[..n]);
      OneMoreSubstituted(pattern[..n], pattern[n], blocks[..n], blocks[n]);
    }
  }

  lemma {:induction false} JoinConcat(a: seq<string>, b: seq<string>)
    requires a != [] && b != []
    ensures Join(a + b, '/') == Join(a, '/') + "/" + Join(b, '/')
  {
    if |a| == 1 {
      assert (a + b)[1..] == b;
    } else {
      assert (a + b)[1..] == a[1..] + b;
      JoinConcat(a[1..], b);
    }
  }

  lemma {:induction false} JoinOfTexts(blocks: seq<seq<string>>)
    requires forall k :: 0 <= k < |blocks| ==> blocks[k] != []
    ensures Join(Texts(blocks), '/') == Join(Concat(blocks), '/')
  {
    if blocks != [] {
      var rest := blocks[1..];
      JoinOfTexts(rest);
      ConcatLength(rest);
      assert Texts(blocks)[1..] == Texts(rest);
      if rest != [] {
        JoinConcat(blocks[0], Concat(rest));
      } else {
        assert blocks[0] + [] == blocks[0];
      }
    }
  }

  lemma {:induction false} SegmentsAreClean(parts: seq<string>)
    requires forall k :: 0 <= k < |parts| ==> Lacks(parts[k], '/')
    ensures forall k :: 0 <= k < |NonEmpty(parts)| ==> NonEmpty(parts)[k] != "" && Lacks(NonEmpty(parts)[k], '/')
  {
    if parts != [] {
      SegmentsAreClean(parts[1..]);
    }
  }

  lemma {:induction false} NonEmptyOfClean(parts: seq<string>)
    requires forall k :: 0 <= k < |parts| ==> parts[k] != ""
    ensures NonEmpty(parts) == parts
  {
    if parts != [] {
      NonEmptyOfClean(parts[1..]);
    }
  }

  /** Splitting a path into segments and joining them again loses only empty segments. */
  lemma SegmentsOfJoin(path: string)
    ensures Segments(Join(Segments(path), '/')) == Segments(path)
  {
    var segments := Segments(path);
    SegmentsAreClean(Split(path, '/'));
    NonEmptyOfClean(segments);
    if segments == [] {
      assert Split("", '/') == [""] && [""][1..] == [];
    } else {
      SplitOfJoin(segments, '/');
    }
  }

  /** On a match, the pattern with the bound values put back is the path of the request. */
  lemma SubstitutionGivesTheRequest(pattern: seq<string>, path: string, blocks: seq<seq<string>>)
    requires GreedyFits(pattern, Segments(path), blocks)
    ensures var back := Join(Substituted(pattern, BindingsOf(pattern, blocks)), '/');
      back == Join(Segments(path), '/') && Segments(back) == Segments(path)
  {
    SubstitutedBindings(pattern, blocks);
    forall k | 0 <= k < |blocks|
      ensures blocks[k] != []
    {
      assert BlockFits(pattern[k], blocks[k]);
    }
    JoinOfTexts(blocks);
    SegmentsOfJoin(path);
  }

  /**
   * Matches a request path against a registered one. The values a handler receives determine the
   * request: put back into the pattern they give its path, empty segments aside.
   */
  method MatchRoute(registeredPath: string, path: string) returns (matched: bool, placeholderValues: seq<Binding>)
    ensures matched <==> Matchable(Segments(registeredPath), Segments(path))
    ensures matched ==>
      Segments(Join(Substituted(Segments(registeredPath), placeholderValues), '/')) == Segments(path)
  {
    ghost var blocks;
    matched, placeholderValues, blocks := MatchSegments(Segments(registeredPath), Segments(path));
    if matched {
      SubstitutionGivesTheRequest(Segments(registeredPath), path, blocks);
    }
  }
}
