// Which ids a merged plan ends up with: when ids that merging keeps apart collide in staging, and when
// the placeholder of a failed planning round stays in the plan.
module PlanIds {
  import opened Text
  import opened Staging
  import opened PlanMerge

  // ---------------------------------------------------------------- raw and trimmed ids

  /** Trimming keeps the ids apart. */
  ghost predicate TrimKeepsApart(ids: set<string>) {
    forall s, t :: s in ids && t in ids && Trim(s) == Trim(t) ==> s == t
  }

  lemma IdOfPrefix(tasks: seq<WorkerTask>, n: nat)
    requires n <= |tasks|
    ensures Ids(tasks[..n]) <= Ids(tasks)
  {
    forall t | t in tasks[..n]
      ensures t in tasks
    {
    }
  }

  /** Merging loses no id: a renamed task makes way for one that has its id. */
  lemma InputIdsSurvive(tasks: seq<WorkerTask>, others: seq<WorkerTask>, merged: seq<WorkerTask>)
    requires IsMerge(tasks, others, merged)
    ensures Ids(tasks) + Ids(others) <= Ids(merged)
  {
    IdOfPrefix(merged, |tasks|);
    assert merged[..|tasks|] == tasks;
    forall t | t in others
      ensures t.id in Ids(merged)
    {
      var k :| 0 <= k < |others| && others[k] == t;
      assert MergedAt(|tasks|, others, merged, k);
      IdOfPrefix(merged, |tasks| + k);
      assert merged[|tasks| + k] in merged;
    }
  }

  /** Two different ids with the same trimmed form always collide in staging. */
  lemma VariantsCollide(tasks: seq<WorkerTask>, s: string, t: string)
    requires s in Ids(tasks) && t in Ids(tasks) && s != t && Trim(s) == Trim(t)
    ensures !DistinctIds(tasks)
  {
    var x :| x in tasks && x.id == s;
    var y :| y in tasks && y.id == t;
    var i :| 0 <= i < |tasks| && tasks[i] == x;
    var j :| 0 <= j < |tasks| && tasks[j] == y;
    assert Trim(tasks[i].id) == Trim(tasks[j].id);
  }

  /** So the merged ids are distinct for staging only if trimming keeps the ids of both inputs apart. */
  lemma MergedIdsNeedDistinctTrims(tasks: seq<WorkerTask>, others: seq<WorkerTask>, merged: seq<WorkerTask>)
    requires IsMerge(tasks, others, merged) && DistinctIds(merged)
    ensures TrimKeepsApart(Ids(tasks) + Ids(others))
  {
    InputIdsSurvive(tasks, others, merged);
    forall s, t | s in Ids(tasks) + Ids(others) && t in Ids(tasks) + Ids(others) && Trim(s) == Trim(t)
      ensures s == t
    {
      if s != t {
        VariantsCollide(merged, s, t);
      }
    }
  }

  /** Raw-distinct tasks are distinct for staging iff trimming keeps their ids apart. */
  lemma DistinctIdsIff(tasks: seq<WorkerTask>)
    requires DistinctRawIds(tasks)
    ensures DistinctIds(tasks) <==> TrimKeepsApart(Ids(tasks))
  {
    if DistinctIds(tasks) {
      forall s, t | s in Ids(tasks) && t in Ids(tasks) && Trim(s) == Trim(t)
        ensures s == t
      {
        if s != t {
          VariantsCollide(tasks, s, t);
        }
      }
    }
    if TrimKeepsApart(Ids(tasks)) {
      forall i, j | 0 <= i < j < |tasks|
        ensures Trim(tasks[i].id) != Trim(tasks[j].id)
      {
        assert tasks[i] in tasks && tasks[j] in tasks;
      }
    }
  }

  lemma {:induction false} NothingRenamed(
    tasks: seq<WorkerTask>, others: seq<WorkerTask>, merged: seq<WorkerTask>, k: nat)
    requires IsMerge(tasks, others, merged) && DistinctRawIds(tasks + others) && k <= |others|
    ensures merged[..|tasks| + k] == tasks + others[..k]
  {
    if k > 0 {
      NothingRenamed(tasks, others, merged, k - 1);
      var n := |tasks| + k - 1;
      assert MergedAt(|tasks|, others, merged, k - 1);
      assert (tasks + others)[n] == others[k - 1];
      forall t | t in tasks + others[..k - 1]
        ensures t.id != others[k - 1].id
      {
        var i :| 0 <= i < n && (tasks + others[..k - 1])[i] == t;
        assert (tasks + others)[i] == t;
      }
      assert merged[n] == others[k - 1];
      assert merged[..n + 1] == merged[..n] + [merged[n]];
    }
  }

  /** When no id repeats, merging only appends, and the result suits staging iff trimming keeps the ids apart. */
  lemma DistinctMergeIsDistinctIff(tasks: seq<WorkerTask>, others: seq<WorkerTask>, merged: seq<WorkerTask>)
    requires IsMerge(tasks, others, merged) && DistinctRawIds(tasks + others)
    ensures merged == tasks + others
    ensures DistinctIds(merged) <==> TrimKeepsApart(Ids(tasks + others))
  {
    NothingRenamed(tasks, others, merged, |others|);
    assert merged[..|merged|] == merged && others[..|others|] == others;
    DistinctIdsIff(merged);
  }

  // ---------------------------------------------------------------- the ids of the plan

  lemma DroppedIds(tasks: seq<WorkerTask>)
    ensures Ids(tasks) - {FALLBACK_ID} <= Ids(DropPlaceholder(tasks)) <= Ids(tasks)
    ensures DistinctRawIds(tasks) ==> DistinctRawIds(DropPlaceholder(tasks))
  {
    WithoutIdIsSubsequence(tasks, FALLBACK_ID);
  }

  /** The plan keeps every id of the three rounds but the placeholder's. */
  lemma PlanKeepsIds(a: seq<WorkerTask>, b: seq<WorkerTask>, c: seq<WorkerTask>, planned: seq<WorkerTask>)
    requires IsPlanned(a, b, c, planned)
    ensures Ids(a) + Ids(b) + Ids(c) - {FALLBACK_ID} <= Ids(planned)
  {
    var ab, abc :| IsMerge(a, b, ab) && IsMerge(ab, c, abc) && planned == DropPlaceholder(abc);
    InputIdsSurvive(a, b, ab);
    InputIdsSurvive(ab, c, abc);
    DroppedIds(abc);
  }

  /** The planned ids are distinct for staging only if trimming keeps the ids of the rounds apart. */
  lemma PlanNeedsDistinctTrims(a: seq<WorkerTask>, b: seq<WorkerTask>, c: seq<WorkerTask>, planned: seq<WorkerTask>)
    requires IsPlanned(a, b, c, planned) && DistinctIds(planned)
    ensures TrimKeepsApart(Ids(a) + Ids(b) + Ids(c) - {FALLBACK_ID})
  {
    var ids := Ids(a) + Ids(b) + Ids(c) - {FALLBACK_ID};
    PlanKeepsIds(a, b, c, planned);
    forall s, t | s in ids && t in ids && Trim(s) == Trim(t)
      ensures s == t
    {
      if s != t {
        VariantsCollide(planned, s, t);
      }
    }
  }

  lemma DistinctPrefix(tasks: seq<WorkerTask>, others: seq<WorkerTask>)
    requires DistinctRawIds(tasks + others)
    ensures DistinctRawIds(tasks)
  {
    assert forall i :: 0 <= i < |tasks| ==> (tasks + others)[i] == tasks[i];
  }

  lemma OnlyPlaceholdersIff(tasks: seq<WorkerTask>)
    requires DistinctRawIds(tasks)
    ensures TrimKeepsApart(Ids(DropPlaceholder(tasks))) <==> TrimKeepsApart(Ids(tasks) - {FALLBACK_ID})
  {
    WithoutIdIsSubsequence(tasks, FALLBACK_ID);
    if exists t :: t in tasks && t.id != FALLBACK_ID {
      assert Ids(DropPlaceholder(tasks)) == Ids(tasks) - {FALLBACK_ID};
    } else {
      assert forall s :: s in Ids(tasks) ==> s == FALLBACK_ID;
    }
  }

  /**
   * When no id repeats over the three rounds, the plan lists their tasks in order without the
   * placeholder, and its ids are distinct for staging iff trimming keeps them apart.
   */
  lemma UnrepeatedPlanIsDistinctIff(a: seq<WorkerTask>, b: seq<WorkerTask>, c: seq<WorkerTask>, planned: seq<WorkerTask>)
    requires IsPlanned(a, b, c, planned) && DistinctRawIds(a + b + c)
    ensures planned == DropPlaceholder(a + b + c)
    ensures DistinctIds(planned) <==> TrimKeepsApart(Ids(a + b + c) - {FALLBACK_ID})
  {
    var ab, abc :| IsMerge(a, b, ab) && IsMerge(ab, c, abc) && planned == DropPlaceholder(abc);
    DistinctPrefix(a + b, c);
    DistinctMergeIsDistinctIff(a, b, ab);
    DistinctMergeIsDistinctIff(ab, c, abc);
    DroppedIds(abc);
    DistinctIdsIff(planned);
    OnlyPlaceholdersIff(abc);
  }

  // ---------------------------------------------------------------- placeholders of failed rounds

  /** A renamed task never gets the placeholder's id: it ends with a suffix from 2 on. */
  lemma SuffixedIsNoPlaceholder(id: string, n: nat)
    requires n >= 2
    ensures Suffixed(id, n) != FALLBACK_ID
  {
    DecimalIsDigits(n);
    ZeroIsZero();
    var s, digits, placeholder: string := Suffixed(id, n), Decimal(n), FALLBACK_ID;
    assert s[|id|] == '_' && s[|id| + 1..] == digits;
    assert |placeholder| == 12 && placeholder[10] == '_' && placeholder[11..] == "0";
  }

  lemma ZeroIsZero()
    ensures DecimalValue("0") == 0
  {
    assert "0"[..0] == "";
  }

  lemma AppendedPlaceholder(t: WorkerTask, taken: set<string>, m: WorkerTask)
    requires AppendedAs(t, taken, m)
    ensures m.id == FALLBACK_ID <==> t.id == FALLBACK_ID && FALLBACK_ID !in taken
  {
    if t.id in taken {
      var n: nat :| FirstFreeSuffix(t.id, taken, n) && m == t.(id := Suffixed(t.id, n));
      SuffixedIsNoPlaceholder(t.id, n);
    }
  }

  lemma {:induction false} PlaceholderSoFar(
    tasks: seq<WorkerTask>, others: seq<WorkerTask>, merged: seq<WorkerTask>, k: nat)
    requires IsMerge(tasks, others, merged) && k <= |others|
    ensures FALLBACK_ID in Ids(merged[..|tasks| + k]) <==> FALLBACK_ID in Ids(tasks) || FALLBACK_ID in Ids(others[..k])
  {
    if k == 0 {
      assert merged[..|tasks|] == tasks && Ids(others[..0]) == {};
    } else {
      var n := |tasks| + k - 1;
      PlaceholderSoFar(tasks, others, merged, k - 1);
      assert MergedAt(|tasks|, others, merged, k - 1);
      AppendedPlaceholder(others[k - 1], Ids(merged[..n]), merged[n]);
      assert merged[..n + 1] == merged[..n] + [merged[n]];
      assert others[..k] == others[..k - 1] + [others[k - 1]];
      IdsSnoc(merged[..n], merged[n]);
      IdsSnoc(others[..k - 1], others[k - 1]);
    }
  }

  /** A placeholder among the appended tasks keeps its id iff there is none before it. */
  lemma AppendedPlaceholderIff(
    tasks: seq<WorkerTask>, others: seq<WorkerTask>, merged: seq<WorkerTask>, k: nat)
    requires IsMerge(tasks, others, merged) && k < |others| && others[k].id == FALLBACK_ID
    ensures merged[|tasks| + k].id == FALLBACK_ID
      <==> FALLBACK_ID !in Ids(tasks) && FALLBACK_ID !in Ids(others[..k])
  {
    PlaceholderSoFar(tasks, others, merged, k);
    assert MergedAt(|tasks|, others, merged, k);
    AppendedPlaceholder(others[k], Ids(merged[..|tasks| + k]), merged[|tasks| + k]);
  }

  lemma IdsConcat(a: seq<WorkerTask>, b: seq<WorkerTask>)
    ensures Ids(a + b) == Ids(a) + Ids(b)
  {
    assert forall t :: t in a + b <==> t in a || t in b;
  }

  /** Task `i` of the rounds in order is a placeholder, and the plan has it under another id. */
  ghost predicate RenamedPlaceholder(all: seq<WorkerTask>, merged: seq<WorkerTask>, i: nat) {
    i < |all| == |merged| && all[i].id == FALLBACK_ID && merged[i].id != FALLBACK_ID
  }

  /** Merging the rounds renames a placeholder iff it is of round B or C and there is one before it. */
  lemma PlaceholderIsRenamedIff(
    a: seq<WorkerTask>, b: seq<WorkerTask>, c: seq<WorkerTask>, ab: seq<WorkerTask>, abc: seq<WorkerTask>, i: nat)
    requires IsMerge(a, b, ab) && IsMerge(ab, c, abc) && i < |a + b + c| && (a + b + c)[i].id == FALLBACK_ID
    ensures RenamedPlaceholder(a + b + c, abc, i) <==> i >= |a| && FALLBACK_ID in Ids((a + b + c)[..i])
  {
    var all := a + b + c;
    if i < |a| {
      assert abc[i] == ab[i] == a[i] == all[i];
    } else if i < |a + b| {
      var k := i - |a|;
      AppendedPlaceholderIff(a, b, ab, k);
      IdsConcat(a, b[..k]);
      assert all[..i] == a + b[..k] && abc[i] == ab[i];
    } else {
      var k := i - |a + b|;
      AppendedPlaceholderIff(ab, c, abc, k);
      PlaceholderSoFar(a, b, ab, |b|);
      assert ab[..|ab|] == ab && b[..|b|] == b;
      IdsConcat(a, b);
      IdsConcat(a + b, c[..k]);
      assert all[..i] == a + b + c[..k];
    }
  }

  /** Some placeholder stays in the plan under another id. */
  ghost predicate LeavesPlaceholder(all: seq<WorkerTask>, merged: seq<WorkerTask>, planned: seq<WorkerTask>) {
    exists i: nat :: RenamedPlaceholder(all, merged, i) && merged[i] in planned
  }

  /**
   * A placeholder stays in the plan under another id iff a task of round B or C carries the
   * placeholder's id while an earlier task already does.
   */
  lemma PlaceholderStaysIff(
    a: seq<WorkerTask>, b: seq<WorkerTask>, c: seq<WorkerTask>, ab: seq<WorkerTask>, abc: seq<WorkerTask>)
    requires IsMerge(a, b, ab) && IsMerge(ab, c, abc)
    ensures var all := a + b + c;
      LeavesPlaceholder(all, abc, DropPlaceholder(abc))
      <==> exists i: nat :: |a| <= i < |all| && all[i].id == FALLBACK_ID && FALLBACK_ID in Ids(all[..i])
  {
    var all, planned := a + b + c, DropPlaceholder(abc);
    if i: nat :| RenamedPlaceholder(all, abc, i) && abc[i] in planned {
      PlaceholderIsRenamedIff(a, b, c, ab, abc, i);
    }
    if i: nat :| |a| <= i < |all| && all[i].id == FALLBACK_ID && FALLBACK_ID in Ids(all[..i]) {
      PlaceholderIsRenamedIff(a, b, c, ab, abc, i);
      WithoutIdIsSubsequence(abc, FALLBACK_ID);
      assert abc[i] in abc;
      assert RenamedPlaceholder(all, abc, i) && abc[i] in planned;
    }
  }

  /** Otherwise placeholders keep their id, and none is left next to another task. */
  lemma NoPlaceholderNextToATask(
    a: seq<WorkerTask>, b: seq<WorkerTask>, c: seq<WorkerTask>, ab: seq<WorkerTask>, abc: seq<WorkerTask>, i: nat)
    requires IsMerge(a, b, ab) && IsMerge(ab, c, abc) && !LeavesPlaceholder(a + b + c, abc, DropPlaceholder(abc))
    requires i < |a + b + c| && (a + b + c)[i].id == FALLBACK_ID
    ensures abc[i].id == FALLBACK_ID
    ensures (exists t :: t in DropPlaceholder(abc) && t.id != FALLBACK_ID) ==> abc[i] !in DropPlaceholder(abc)
  {
    WithoutIdIsSubsequence(abc, FALLBACK_ID);
    assert abc[i] in abc;
    assert RenamedPlaceholder(a + b + c, abc, i) <==> abc[i].id != FALLBACK_ID;
  }

  /** The round failed: its plan is the placeholder alone. */
  predicate Failed(round: seq<WorkerTask>) {
    |round| == 1 && round[0].id == FALLBACK_ID
  }

  predicate FailedOrParsed(round: seq<WorkerTask>) {
    Failed(round) || FALLBACK_ID !in Ids(round)
  }

  function FailureCount(a: seq<WorkerTask>, b: seq<WorkerTask>, c: seq<WorkerTask>): nat {
    (if Failed(a) then 1 else 0) + (if Failed(b) then 1 else 0) + (if Failed(c) then 1 else 0)
  }

  lemma FailedHasPlaceholder(round: seq<WorkerTask>)
    requires FailedOrParsed(round)
    ensures FALLBACK_ID in Ids(round) <==> Failed(round)
    ensures forall k :: 0 <= k < |round| && round[k].id == FALLBACK_ID ==> Failed(round)
  {
    if Failed(round) {
      assert round[0] in round;
    }
    forall k | 0 <= k < |round| && round[k].id == FALLBACK_ID
      ensures Failed(round)
    {
      assert round[k] in round;
    }
  }

  lemma SecondPlaceholder(first: seq<WorkerTask>, failed: seq<WorkerTask>, rest: seq<WorkerTask>)
    requires FALLBACK_ID in Ids(first) && Failed(failed)
    ensures var all := first + failed + rest;
      all[|first|].id == FALLBACK_ID && FALLBACK_ID in Ids(all[..|first|])
  {
    assert (first + failed + rest)[..|first|] == first;
  }

  /** Two failed rounds put a placeholder behind another one. */
  lemma TwoFailuresRepeat(a: seq<WorkerTask>, b: seq<WorkerTask>, c: seq<WorkerTask>) returns (i: nat)
    requires FailedOrParsed(a) && FailedOrParsed(b) && FailedOrParsed(c) && FailureCount(a, b, c) >= 2
    ensures var all := a + b + c;
      |a| <= i < |all| && all[i].id == FALLBACK_ID && FALLBACK_ID in Ids(all[..i])
  {
    FailedHasPlaceholder(a);
    FailedHasPlaceholder(b);
    if Failed(c) {
      IdsConcat(a, b);
      SecondPlaceholder(a + b, c, []);
      assert a + b + c + [] == a + b + c;
      i := |a + b|;
    } else {
      SecondPlaceholder(a, b, c);
      i := |a|;
    }
  }

  /** If every round failed or parsed without the placeholder's id, one stays iff two of them failed. */
  lemma PlaceholderStaysIffTwoRoundsFail(
    a: seq<WorkerTask>, b: seq<WorkerTask>, c: seq<WorkerTask>, ab: seq<WorkerTask>, abc: seq<WorkerTask>)
    requires IsMerge(a, b, ab) && IsMerge(ab, c, abc)
    requires FailedOrParsed(a) && FailedOrParsed(b) && FailedOrParsed(c)
    ensures LeavesPlaceholder(a + b + c, abc, DropPlaceholder(abc)) <==> FailureCount(a, b, c) >= 2
  {
    var all := a + b + c;
    PlaceholderStaysIff(a, b, c, ab, abc);
    if FailureCount(a, b, c) >= 2 {
      var i := TwoFailuresRepeat(a, b, c);
    }
    if i: nat :| |a| <= i < |all| && all[i].id == FALLBACK_ID && FALLBACK_ID in Ids(all[..i]) {
      RepeatNeedsTwoFailures(a, b, c, i);
    }
  }

  lemma RepeatNeedsTwoFailures(a: seq<WorkerTask>, b: seq<WorkerTask>, c: seq<WorkerTask>, i: nat)
    requires FailedOrParsed(a) && FailedOrParsed(b) && FailedOrParsed(c)
    requires |a| <= i < |a + b + c| && (a + b + c)[i].id == FALLBACK_ID && FALLBACK_ID in Ids((a + b + c)[..i])
    ensures FailureCount(a, b, c) >= 2
  {
    var all := a + b + c;
    FailedHasPlaceholder(a);
    FailedHasPlaceholder(b);
    FailedHasPlaceholder(c);
    if i < |a + b| {
      var k := i - |a|;
      assert all[i] == b[k];
      assert all[..i] == a + b[..k];
      IdsConcat(a, b[..k]);
      assert k == 0 && Ids(b[..0]) == {};
    } else {
      var k := i - |a + b|;
      assert all[i] == c[k];
      assert all[..i] == a + b + c[..k];
      IdsConcat(a, b);
      IdsConcat(a + b, c[..k]);
      assert k == 0 && Ids(c[..0]) == {};
    }
  }

  // ---------------------------------------------------------------- ids that repeat

  lemma {:induction false} TrimStartOfSuffixed(id: string, tail: string)
    requires tail != "" && !IsWhitespace(tail[0])
    ensures TrimStart(id + tail) == TrimStart(id) + tail
  {
    if id == "" {
      assert id + tail == tail;
    } else if IsWhitespace(id[0]) {
      assert (id + tail)[1..] == id[1..] + tail;
      TrimStartOfSuffixed(id[1..], tail);
    }
  }

  /** Trimming a suffixed id only trims its start. */
  lemma TrimOfSuffixed(id: string, n: nat)
    ensures Trim(Suffixed(id, n)) == Suffixed(TrimStart(id), n)
  {
    var tail := "_" + Decimal(n);
    SuffixedIsTail(id, n, tail);
    SuffixedIsTail(TrimStart(id), n, tail);
    TrimStartOfSuffixed(id, tail);
  }

  lemma SuffixedIsTail(id: string, n: nat, tail: string)
    requires tail == "_" + Decimal(n)
    ensures Suffixed(id, n) == id + tail && !IsWhitespace(tail[0])
    ensures TrimEnd(Suffixed(id, n)) == Suffixed(id, n)
  {
    DecimalIsDigits(n);
    var s := Suffixed(id, n);
    assert s[|s| - 1] == Decimal(n)[|Decimal(n)| - 1];
  }

  lemma SuffixedLength(r: string, m: nat, t: string, n: nat)
    requires Suffixed(r, m) == Suffixed(t, n)
    ensures |r| <= |t|
  {
    DecimalIsDigits(n);
    var s := Suffixed(t, n);
    assert s[|r|] == '_';
    assert forall k :: |t| < k < |s| ==> s[k] == Decimal(n)[k - |t| - 1];
  }

  /** The last underscore of a suffixed id is the suffix's. */
  lemma SuffixedIsInjective(r: string, m: nat, t: string, n: nat)
    requires Suffixed(r, m) == Suffixed(t, n)
    ensures r == t && m == n
  {
    SuffixedLength(r, m, t, n);
    SuffixedLength(t, n, r, m);
    assert Suffixed(r, m)[..|r|] == r && Suffixed(t, n)[..|t|] == t;
    SuffixedInjective(r, m, n);
  }

  /** Merging gives the `k`-th task of `others` the suffix `n`. */
  ghost predicate GetsSuffix(
    tasks: seq<WorkerTask>, others: seq<WorkerTask>, merged: seq<WorkerTask>, k: nat, n: nat)
    requires |merged| == |tasks| + |others|
  {
    && k < |others|
    && var taken := Ids(merged[..|tasks| + k]);
       others[k].id in taken && FirstFreeSuffix(others[k].id, taken, n)
  }

  /** No id of `ids` is a variant of a suffixed id, unless it is that id. */
  ghost predicate SuffixesKeepApart(
    ids: set<string>, tasks: seq<WorkerTask>, others: seq<WorkerTask>, merged: seq<WorkerTask>)
    requires |merged| == |tasks| + |others|
  {
    forall k: nat, n: nat, s ::
      (GetsSuffix(tasks, others, merged, k, n) && s in ids && Trim(s) == Suffixed(TrimStart(others[k].id), n))
      ==> s == Suffixed(others[k].id, n)
  }

  /** A task of the merged list is an input task or has a suffix. */
  lemma MergedIdIs(tasks: seq<WorkerTask>, others: seq<WorkerTask>, merged: seq<WorkerTask>, s: string)
    returns (k: nat, n: nat)
    requires IsMerge(tasks, others, merged) && s in Ids(merged)
    ensures s in Ids(tasks) + Ids(others)
      || (GetsSuffix(tasks, others, merged, k, n) && s == Suffixed(others[k].id, n))
  {
    k, n := 0, 0;
    var t :| t in merged && t.id == s;
    var i :| 0 <= i < |merged| && merged[i] == t;
    if i < |tasks| {
      assert merged[i] == tasks[i] && tasks[i] in tasks;
    } else {
      k := i - |tasks|;
      assert MergedAt(|tasks|, others, merged, k) && others[k] in others;
      if others[k].id in Ids(merged[..i]) {
        n :| FirstFreeSuffix(others[k].id, Ids(merged[..i]), n) && merged[i] == others[k].(id := Suffixed(others[k].id, n));
      }
    }
  }

  lemma SuffixedIsMerged(
    tasks: seq<WorkerTask>, others: seq<WorkerTask>, merged: seq<WorkerTask>, k: nat, n: nat)
    requires IsMerge(tasks, others, merged) && GetsSuffix(tasks, others, merged, k, n)
    ensures merged[|tasks| + k].id == Suffixed(others[k].id, n)
    ensures Suffixed(others[k].id, n) in Ids(merged) - {FALLBACK_ID}
  {
    var i := |tasks| + k;
    assert MergedAt(|tasks|, others, merged, k);
    var t := others[k];
    AppendedIsUnique(t, Ids(merged[..i]), merged[i], t.(id := Suffixed(t.id, n)));
    SuffixedIsNoPlaceholder(t.id, n);
    assert merged[i] in merged;
  }

  /** The ids given to placeholders that are renamed. */
  ghost function PlaceholderCopies(
    tasks: seq<WorkerTask>, others: seq<WorkerTask>, merged: seq<WorkerTask>): (copies: set<string>)
    requires |merged| == |tasks| + |others|
    ensures forall k: nat :: IsCopy(tasks, others, merged, k) ==> merged[|tasks| + k].id in copies
  {
    set k | 0 <= k < |others| && IsCopy(tasks, others, merged, k) :: merged[|tasks| + k].id
  }

  ghost predicate IsCopy(tasks: seq<WorkerTask>, others: seq<WorkerTask>, merged: seq<WorkerTask>, k: nat)
    requires |merged| == |tasks| + |others|
  {
    k < |others| && others[k].id == FALLBACK_ID && merged[|tasks| + k].id != FALLBACK_ID
  }

  /** The ids of the inputs and of copied placeholders, without the placeholder's own. */
  ghost function LastingIds(
    tasks: seq<WorkerTask>, others: seq<WorkerTask>, merged: seq<WorkerTask>): set<string>
    requires |merged| == |tasks| + |others|
  {
    Ids(tasks) + Ids(others) - {FALLBACK_ID} + PlaceholderCopies(tasks, others, merged)
  }

  lemma LastingIdsAreMerged(tasks: seq<WorkerTask>, others: seq<WorkerTask>, merged: seq<WorkerTask>)
    requires IsMerge(tasks, others, merged)
    ensures LastingIds(tasks, others, merged) <= Ids(merged) - {FALLBACK_ID}
  {
    InputIdsSurvive(tasks, others, merged);
    forall s | s in PlaceholderCopies(tasks, others, merged)
      ensures s in Ids(merged) - {FALLBACK_ID}
    {
      var k: nat :| IsCopy(tasks, others, merged, k) && s == merged[|tasks| + k].id;
      assert merged[|tasks| + k] in merged;
    }
  }

  /** Two suffixed ids that are variants of each other come from variants, one of them maybe the placeholder. */
  lemma SuffixedVariants(
    tasks: seq<WorkerTask>, others: seq<WorkerTask>, merged: seq<WorkerTask>, j: nat, m: nat, k: nat, n: nat)
    requires IsMerge(tasks, others, merged)
    requires GetsSuffix(tasks, others, merged, j, m) && GetsSuffix(tasks, others, merged, k, n)
    requires TrimKeepsApart(LastingIds(tasks, others, merged))
    requires SuffixesKeepApart(LastingIds(tasks, others, merged), tasks, others, merged)
    requires Trim(Suffixed(others[j].id, m)) == Trim(Suffixed(others[k].id, n))
    ensures Suffixed(others[j].id, m) == Suffixed(others[k].id, n)
  {
    var ids, r, t := LastingIds(tasks, others, merged), others[j].id, others[k].id;
    TrimOfSuffixed(r, m);
    TrimOfSuffixed(t, n);
    SuffixedIsInjective(TrimStart(r), m, TrimStart(t), n);
    SuffixedIsMerged(tasks, others, merged, j, m);
    SuffixedIsMerged(tasks, others, merged, k, n);
    assert others[j] in others && others[k] in others;
    if r == FALLBACK_ID {
      assert IsCopy(tasks, others, merged, j);
    } else if t == FALLBACK_ID {
      assert IsCopy(tasks, others, merged, k);
    } else {
      assert r in ids && t in ids;
    }
  }

  /** Apart from the placeholder, the merged ids are kept apart by trimming iff these two conditions hold. */
  lemma MergedTrimsIff(tasks: seq<WorkerTask>, others: seq<WorkerTask>, merged: seq<WorkerTask>)
    requires IsMerge(tasks, others, merged)
    ensures var ids := LastingIds(tasks, others, merged);
      TrimKeepsApart(Ids(merged) - {FALLBACK_ID})
      <==> TrimKeepsApart(ids) && SuffixesKeepApart(ids, tasks, others, merged)
  {
    var all, ids := Ids(merged) - {FALLBACK_ID}, LastingIds(tasks, others, merged);
    LastingIdsAreMerged(tasks, others, merged);
    if TrimKeepsApart(all) {
      forall k: nat, n: nat, s | GetsSuffix(tasks, others, merged, k, n) && s in ids
        && Trim(s) == Suffixed(TrimStart(others[k].id), n)
        ensures s == Suffixed(others[k].id, n)
      {
        TrimOfSuffixed(others[k].id, n);
        SuffixedIsMerged(tasks, others, merged, k, n);
      }
    }
    if TrimKeepsApart(ids) && SuffixesKeepApart(ids, tasks, others, merged) {
      forall s, t | s in all && t in all && Trim(s) == Trim(t)
        ensures s == t
      {
        SameTrimSameId(tasks, others, merged, s, t);
      }
    }
  }

  lemma SameTrimSameId(
    tasks: seq<WorkerTask>, others: seq<WorkerTask>, merged: seq<WorkerTask>, s: string, t: string)
    requires IsMerge(tasks, others, merged)
    requires TrimKeepsApart(LastingIds(tasks, others, merged))
    requires SuffixesKeepApart(LastingIds(tasks, others, merged), tasks, others, merged)
    requires s in Ids(merged) - {FALLBACK_ID} && t in Ids(merged) - {FALLBACK_ID} && Trim(s) == Trim(t)
    ensures s == t
  {
    var ids := LastingIds(tasks, others, merged);
    var j, m := MergedIdIs(tasks, others, merged, s);
    var k, n := MergedIdIs(tasks, others, merged, t);
    if s !in ids && t !in ids {
      SuffixedVariants(tasks, others, merged, j, m, k, n);
    } else if s !in ids {
      TrimOfSuffixed(others[j].id, m);
    } else if t !in ids {
      TrimOfSuffixed(others[k].id, n);
    }
  }

  /** The ids of the first round that reach the plan are different. */
  ghost predicate FirstRoundIsDistinct(tasks: seq<WorkerTask>, others: seq<WorkerTask>) {
    DistinctRawIds(if others == [] then DropPlaceholder(tasks) else WithoutId(tasks, FALLBACK_ID))
  }

  lemma {:induction false} WithoutIdSnoc(tasks: seq<WorkerTask>, t: WorkerTask, id: string)
    ensures WithoutId(tasks + [t], id) == WithoutId(tasks, id) + if t.id == id then [] else [t]
  {
    if tasks == [] {
      assert [t][1..] == [];
      assert [] + [t] == [t];
    } else {
      assert (tasks + [t])[1..] == tasks[1..] + [t];
      WithoutIdSnoc(tasks[1..], t, id);
    }
  }

  lemma DistinctSnoc(tasks: seq<WorkerTask>, t: WorkerTask)
    requires t.id !in Ids(tasks)
    ensures DistinctRawIds(tasks + [t]) <==> DistinctRawIds(tasks)
  {
    var more := tasks + [t];
    assert forall i :: 0 <= i < |tasks| ==> more[i] == tasks[i] && tasks[i] in tasks;
  }

  lemma {:induction false} AppendedKeepDistinct(
    tasks: seq<WorkerTask>, others: seq<WorkerTask>, merged: seq<WorkerTask>, k: nat)
    requires IsMerge(tasks, others, merged) && k <= |others|
    ensures DistinctRawIds(WithoutId(merged[..|tasks| + k], FALLBACK_ID))
      <==> DistinctRawIds(WithoutId(tasks, FALLBACK_ID))
  {
    if k == 0 {
      assert merged[..|tasks|] == tasks;
    } else {
      var n := |tasks| + k - 1;
      AppendedKeepDistinct(tasks, others, merged, k - 1);
      assert MergedAt(|tasks|, others, merged, k - 1);
      AppendedIsNew(others[k - 1], Ids(merged[..n]), merged[n]);
      assert merged[..n + 1] == merged[..n] + [merged[n]];
      NewTaskKeepsDistinct(merged[..n], merged[n]);
    }
  }

  lemma NewTaskKeepsDistinct(tasks: seq<WorkerTask>, t: WorkerTask)
    requires t.id !in Ids(tasks)
    ensures DistinctRawIds(WithoutId(tasks + [t], FALLBACK_ID)) <==> DistinctRawIds(WithoutId(tasks, FALLBACK_ID))
  {
    var kept := WithoutId(tasks, FALLBACK_ID);
    WithoutIdSnoc(tasks, t, FALLBACK_ID);
    WithoutIdIsSubsequence(tasks, FALLBACK_ID);
    if t.id == FALLBACK_ID {
      assert kept + [] == kept;
    } else {
      DistinctSnoc(kept, t);
    }
  }

  lemma OnlyOnePlaceholder(tasks: seq<WorkerTask>, others: seq<WorkerTask>, merged: seq<WorkerTask>)
    requires IsMerge(tasks, others, merged) && others != [] && forall t :: t in merged ==> t.id == FALLBACK_ID
    ensures tasks == [] && |merged| == 1
  {
    MergedTaskIsNew(tasks, others, merged, |others| - 1);
    assert forall j :: 0 <= j < |merged| ==> merged[j] in merged;
    var first := merged[0];
  }

  /** The planned ids are different as they are written iff those of the first round are. */
  lemma PlanIsRawDistinctIff(tasks: seq<WorkerTask>, others: seq<WorkerTask>, merged: seq<WorkerTask>)
    requires IsMerge(tasks, others, merged)
    ensures DistinctRawIds(DropPlaceholder(merged)) <==> FirstRoundIsDistinct(tasks, others)
  {
    if others == [] {
      assert merged == tasks;
    } else if exists t :: t in merged && t.id != FALLBACK_ID {
      AppendedKeepDistinct(tasks, others, merged, |others|);
      assert merged[..|merged|] == merged;
    } else {
      OnlyOnePlaceholder(tasks, others, merged);
      assert DropPlaceholder(merged) == merged && WithoutId(tasks, FALLBACK_ID) == [];
    }
  }

  lemma PlanTrims(tasks: seq<WorkerTask>)
    ensures TrimKeepsApart(Ids(DropPlaceholder(tasks))) <==> TrimKeepsApart(Ids(tasks) - {FALLBACK_ID})
  {
    WithoutIdIsSubsequence(tasks, FALLBACK_ID);
    if exists t :: t in tasks && t.id != FALLBACK_ID {
      assert Ids(DropPlaceholder(tasks)) == Ids(tasks) - {FALLBACK_ID};
    } else {
      assert forall s :: s in Ids(tasks) ==> s == FALLBACK_ID;
    }
  }

  lemma DistinctIdsMeans(tasks: seq<WorkerTask>)
    ensures DistinctIds(tasks) <==> DistinctRawIds(tasks) && TrimKeepsApart(Ids(tasks))
  {
    if DistinctRawIds(tasks) {
      DistinctIdsIff(tasks);
    }
  }

  /** Merging rounds B and C one after the other is merging them together. */
  lemma TwoMergesAreOne(
    a: seq<WorkerTask>, b: seq<WorkerTask>, c: seq<WorkerTask>, ab: seq<WorkerTask>, abc: seq<WorkerTask>)
    requires IsMerge(a, b, ab) && IsMerge(ab, c, abc)
    ensures IsMerge(a, b + c, abc)
  {
    forall k | 0 <= k < |b + c|
      ensures MergedAt(|a|, b + c, abc, k)
    {
      if k < |b| {
        assert MergedAt(|a|, b, ab, k);
        assert abc[..|a| + k] == ab[..|a| + k];
      } else {
        assert MergedAt(|ab|, c, abc, k - |b|);
      }
    }
  }

  /**
   * The planned ids are distinct for staging iff the first round repeats no id that reaches the plan,
   * trimming keeps the ids of the rounds apart, and no id is a variant of one that merging makes up. The
   * placeholder's own id is left out, and ids made up for copies of it count among those of the rounds.
   */
  lemma PlanIdsAreDistinctIff(a: seq<WorkerTask>, b: seq<WorkerTask>, c: seq<WorkerTask>, planned: seq<WorkerTask>)
    returns (merged: seq<WorkerTask>)
    requires IsPlanned(a, b, c, planned)
    ensures IsMerge(a, b + c, merged) && planned == DropPlaceholder(merged)
    ensures var ids := LastingIds(a, b + c, merged);
      DistinctIds(planned)
      <==> FirstRoundIsDistinct(a, b + c) && TrimKeepsApart(ids) && SuffixesKeepApart(ids, a, b + c, merged)
  {
    var ab, abc :| IsMerge(a, b, ab) && IsMerge(ab, c, abc) && planned == DropPlaceholder(abc);
    merged := abc;
    TwoMergesAreOne(a, b, c, ab, abc);
    DistinctIdsMeans(planned);
    PlanIsRawDistinctIff(a, b + c, abc);
    PlanTrims(abc);
    MergedTrimsIff(a, b + c, abc);
  }

  /** An id made up for a repeated one can be a variant of an id of the rounds. */
  lemma SuffixMeetsInputId(t: WorkerTask)
    ensures var a := [t.(id := " api"), t.(id := "api_2")];
      && var b := [t.(id := " api")];
      && var planned := [t.(id := " api"), t.(id := "api_2"), t.(id := " api_2")];
      && IsPlanned(a, b, [], planned)
      && TrimKeepsApart(Ids(a) + Ids(b))
      && !DistinctIds(planned)
  {
    VariantTexts();
    VariantsPlanned(t.(id := " api"), t.(id := "api_2"), t.(id := " api_2"));
  }

  lemma VariantsPlanned(x: WorkerTask, y: WorkerTask, z: WorkerTask)
    requires z == x.(id := Suffixed(x.id, 2)) && x.id != y.id && y.id != z.id && x.id != z.id
    requires Trim(x.id) != Trim(y.id) && Trim(y.id) == Trim(z.id) && FALLBACK_ID !in {x.id, y.id, z.id}
    ensures IsPlanned([x, y], [x], [], [x, y, z]) && TrimKeepsApart(Ids([x, y]) + Ids([x]))
    ensures !DistinctIds([x, y, z])
  {
    var all := [x, y, z];
    VariantsMerged(x, y, z);
    VariantsKeptApart(x, y);
    assert Trim(all[1].id) == Trim(all[2].id);
    NothingDropped(all);
    assert IsMerge(all, [], all);
  }

  lemma VariantsKeptApart(x: WorkerTask, y: WorkerTask)
    requires Trim(x.id) != Trim(y.id)
    ensures TrimKeepsApart(Ids([x, y]) + Ids([x]))
  {
    TwoIds(x, y);
    TwoKeptApart({x.id, y.id}, x.id, y.id);
  }

  lemma TwoIds(x: WorkerTask, y: WorkerTask)
    ensures Ids([x, y]) + Ids([x]) == {x.id, y.id}
  {
    IdsSnoc([x], y);
    IdsSnoc([], x);
    assert [x] + [y] == [x, y] && [] + [x] == [x];
  }

  lemma TwoKeptApart(ids: set<string>, s: string, t: string)
    requires ids == {s, t} && Trim(s) != Trim(t)
    ensures TrimKeepsApart(ids)
  {
    forall u, v | u in ids && v in ids && Trim(u) == Trim(v)
      ensures u == v
    {
      assert u in {s, t} && v in {s, t};
    }
  }

  lemma VariantsMerged(x: WorkerTask, y: WorkerTask, z: WorkerTask)
    requires z == x.(id := Suffixed(x.id, 2)) && x.id != z.id && y.id != z.id
    ensures IsMerge([x, y], [x], [x, y, z])
  {
    var all := [x, y, z];
    assert Ids([x, y]) == {x.id, y.id} && all[..2] == [x, y];
    assert FirstFreeSuffix(x.id, Ids([x, y]), 2);
    assert MergedAt(2, [x], all, 0);
  }

  lemma VariantTexts()
    ensures var x: string, y: string, z: string := " api", "api_2", " api_2";
      && Suffixed(x, 2) == z && x != y && y != z && x != z
      && Trim(x) != Trim(y) && Trim(y) == Trim(z)
      && FALLBACK_ID !in {x, y, z}
  {
    var x: string, y: string, z: string, api: string := " api", "api_2", " api_2", "api";
    assert Decimal(2) == "2";
    assert x[1..] == api && z[1..] == y;
    assert TrimStart(api) == api && TrimStart(x) == api && TrimStart(y) == y && TrimStart(z) == y;
    assert |FALLBACK_ID| == 12 && |x| == 4 && |y| == 5 && |z| == 6;
  }

  lemma {:induction false} NothingDropped(tasks: seq<WorkerTask>)
    requires FALLBACK_ID !in Ids(tasks)
    ensures WithoutId(tasks, FALLBACK_ID) == tasks
  {
    if tasks != [] {
      assert tasks[0] in tasks;
      assert forall t :: t in tasks[1..] ==> t in tasks;
      NothingDropped(tasks[1..]);
    }
  }
}
