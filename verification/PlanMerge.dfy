// `PlanDoc::merge` and the three planning rounds of Phase 2: the tasks of each later round are
// appended, renamed where their id is already taken.
module PlanMerge {
  import opened Text
  import opened Staging

  const FALLBACK_ID := "w_fallback_0"

  function Ids(tasks: seq<WorkerTask>): set<string> {
    set t | t in tasks :: t.id
  }

  /** No two tasks share an id, compared character by character. */
  ghost predicate DistinctRawIds(tasks: seq<WorkerTask>) {
    forall i, j :: 0 <= i < j < |tasks| ==> tasks[i].id != tasks[j].id
  }

  function Suffixed(id: string, n: nat): string {
    id + "_" + Decimal(n)
  }

  lemma SuffixedInjective(id: string, m: nat, n: nat)
    requires Suffixed(id, m) == Suffixed(id, n)
    ensures m == n
  {
    assert Suffixed(id, m)[|id| + 1..] == Decimal(m);
    assert Suffixed(id, n)[|id| + 1..] == Decimal(n);
    DecimalInjective(m, n);
  }

  /** `n` is the first suffix from 2 on that makes `id` new. */
  ghost predicate FirstFreeSuffix(id: string, taken: set<string>, n: nat) {
    && n >= 2
    && Suffixed(id, n) !in taken
    && forall m :: 2 <= m < n ==> Suffixed(id, m) in taken
  }

  /** `m` is `t`, under its own id if that is new and under the first free suffixed id otherwise. */
  ghost predicate AppendedAs(t: WorkerTask, taken: set<string>, m: WorkerTask) {
    if t.id !in taken then m == t
    else exists n: nat :: FirstFreeSuffix(t.id, taken, n) && m == t.(id := Suffixed(t.id, n))
  }

  ghost predicate IsMerge(tasks: seq<WorkerTask>, others: seq<WorkerTask>, merged: seq<WorkerTask>) {
    && |merged| == |tasks| + |others|
    && tasks <= merged
    && forall k :: 0 <= k < |others| ==> MergedAt(|tasks|, others, merged, k)
  }

  ghost predicate MergedAt(n: nat, others: seq<WorkerTask>, merged: seq<WorkerTask>, k: nat)
    requires |merged| == n + |others| && k < |others|
  {
    AppendedAs(others[k], Ids(merged[..n + k]), merged[n + k])
  }

  /** The suffixes 2 to n-1 are different taken ids, so there are at most `|taken|` of them. */
  lemma {:induction false} TriedSuffixes(id: string, taken: set<string>, n: nat) returns (tried: set<string>)
    requires n >= 2 && forall m :: 2 <= m < n ==> Suffixed(id, m) in taken
    ensures tried <= taken && |tried| == n - 2
    ensures forall s :: s in tried ==> exists m :: 2 <= m < n && s == Suffixed(id, m)
  {
    if n == 2 {
      tried := {};
    } else {
      var before := TriedSuffixes(id, taken, n - 1);
      if Suffixed(id, n - 1) in before {
        var m :| 2 <= m < n - 1 && Suffixed(id, n - 1) == Suffixed(id, m);
        SuffixedInjective(id, n - 1, m);
      }
      tried := before + {Suffixed(id, n - 1)};
    }
  }

  /** The search stops after at most `|taken| + 1` candidates, so the counter stays this small. */
  lemma SuffixIsBounded(id: string, taken: set<string>, n: nat)
    requires n >= 2 && forall m :: 2 <= m < n ==> Suffixed(id, m) in taken
    ensures n <= |taken| + 2
  {
    var tried := TriedSuffixes(id, taken, n);
    SubsetCardinality(tried, taken);
  }

  lemma {:induction false} SubsetCardinality<T>(a: set<T>, b: set<T>)
    requires a <= b
    ensures |a| <= |b|
  {
    if x :| x in a {
      SubsetCardinality(a - {x}, b - {x});
    }
  }

  /** The inner search loop. */
  method FreshId(id: string, taken: set<string>) returns (newId: string)
    ensures exists n: nat :: FirstFreeSuffix(id, taken, n) && newId == Suffixed(id, n) && n <= |taken| + 2
  {
    var suffix := 2;
    newId := Suffixed(id, suffix);
    while newId in taken
      invariant suffix >= 2 && newId == Suffixed(id, suffix)
      invariant forall m :: 2 <= m < suffix ==> Suffixed(id, m) in taken
      decreases |taken| + 2 - suffix
    {
      SuffixIsBounded(id, taken, suffix + 1);
      suffix := suffix + 1;
      newId := Suffixed(id, suffix);
    }
    SuffixIsBounded(id, taken, suffix);
    assert FirstFreeSuffix(id, taken, suffix);
  }

  method Renamed(t: WorkerTask, taken: set<string>) returns (m: WorkerTask)
    ensures AppendedAs(t, taken, m)
  {
    m := t;
    if m.id in taken {
      var newId := FreshId(m.id, taken);
      m := m.(id := newId);
    }
  }

  /** `first` unless it is empty. */
  function Preferred(first: string, second: string): string {
    if first == "" then second else first
  }

  class PlanDoc {
    var summary: string
    var architecture: string
    var tasks: seq<WorkerTask>

    constructor (summary: string, architecture: string, tasks: seq<WorkerTask>)
      ensures this.summary == summary && this.architecture == architecture && this.tasks == tasks
    {
      this.summary, this.architecture, this.tasks := summary, architecture, tasks;
    }

    /** The first round's texts win unless they are empty; the tasks of `other` are appended. */
    method Merge(other: PlanDoc)
      requires other != this
      modifies this
      ensures IsMerge(old(tasks), other.tasks, tasks)
      ensures summary == Preferred(old(summary), other.summary)
      ensures architecture == Preferred(old(architecture), other.architecture)
    {
      if summary == "" && other.summary != "" {
        summary := other.summary;
      }
      if architecture == "" && other.architecture != "" {
        architecture := other.architecture;
      }
      var existingIds := Ids(tasks);
      for k := 0 to |other.tasks|
        invariant other.tasks == old(other.tasks)
        invariant IsMerge(old(tasks), other.tasks[..k], tasks)
        invariant existingIds == Ids(tasks)
        invariant summary == Preferred(old(summary), other.summary)
        invariant architecture == Preferred(old(architecture), other.architecture)
      {
        var t := Renamed(other.tasks[k], existingIds);
        existingIds := existingIds + {t.id};
        MergeSnoc(old(tasks), other.tasks, k, tasks, t);
        IdsSnoc(tasks, t);
        tasks := tasks + [t];
      }
      assert other.tasks[..|other.tasks|] == other.tasks;
    }
  }

  lemma IdsSnoc(tasks: seq<WorkerTask>, t: WorkerTask)
    ensures Ids(tasks + [t]) == Ids(tasks) + {t.id}
  {
    assert t in tasks + [t];
    assert forall u :: u in tasks ==> u in tasks + [t];
  }

  lemma MergeSnoc(tasks: seq<WorkerTask>, others: seq<WorkerTask>, k: nat, merged: seq<WorkerTask>, m: WorkerTask)
    requires k < |others| && IsMerge(tasks, others[..k], merged)
    requires AppendedAs(others[k], Ids(merged), m)
    ensures IsMerge(tasks, others[..k + 1], merged + [m])
  {
    var more, upTo := merged + [m], others[..k + 1];
    forall q | 0 <= q < k + 1
      ensures MergedAt(|tasks|, upTo, more, q)
    {
      assert more[..|tasks| + q] == merged[..|tasks| + q];
      if q < k {
        assert MergedAt(|tasks|, others[..k], merged, q);
      } else {
        assert merged[..|merged|] == merged;
      }
    }
  }

  // ---------------------------------------------------------------- what merging guarantees

  lemma AppendedIsNew(t: WorkerTask, taken: set<string>, m: WorkerTask)
    requires AppendedAs(t, taken, m)
    ensures m.id !in taken && m == t.(id := m.id)
  {
  }

  /** An appended task differs from its original at most in its id, which no earlier task has. */
  lemma MergedTaskIsNew(tasks: seq<WorkerTask>, others: seq<WorkerTask>, merged: seq<WorkerTask>, k: nat)
    requires IsMerge(tasks, others, merged) && k < |others|
    ensures merged[|tasks| + k] == others[k].(id := merged[|tasks| + k].id)
    ensures others[k].id !in Ids(merged[..|tasks| + k]) ==> merged[|tasks| + k] == others[k]
    ensures forall j :: 0 <= j < |tasks| + k ==> merged[j].id != merged[|tasks| + k].id
  {
    assert MergedAt(|tasks|, others, merged, k);
    AppendedIsNew(others[k], Ids(merged[..|tasks| + k]), merged[|tasks| + k]);
    forall j | 0 <= j < |tasks| + k
      ensures merged[j].id in Ids(merged[..|tasks| + k])
    {
      assert merged[..|tasks| + k][j] == merged[j];
    }
  }

  lemma MergeKeepsDistinct(tasks: seq<WorkerTask>, others: seq<WorkerTask>, merged: seq<WorkerTask>)
    requires IsMerge(tasks, others, merged) && DistinctRawIds(tasks)
    ensures DistinctRawIds(merged)
  {
    forall i, j | 0 <= i < j < |merged|
      ensures merged[i].id != merged[j].id
    {
      if j < |tasks| {
        assert merged[i] == tasks[i] && merged[j] == tasks[j];
      } else {
        MergedTaskIsNew(tasks, others, merged, j - |tasks|);
      }
    }
  }

  /** The contract of `Merge` admits exactly one task list. */
  lemma {:induction false} MergeIsUnique(tasks: seq<WorkerTask>, others: seq<WorkerTask>, a: seq<WorkerTask>, b: seq<WorkerTask>, k: nat)
    requires IsMerge(tasks, others, a) && IsMerge(tasks, others, b) && k <= |others|
    ensures a[..|tasks| + k] == b[..|tasks| + k]
    ensures k == |others| ==> a == b
  {
    var n := |tasks| + k;
    if k > 0 {
      MergeIsUnique(tasks, others, a, b, k - 1);
      assert MergedAt(|tasks|, others, a, k - 1) && MergedAt(|tasks|, others, b, k - 1);
      AppendedIsUnique(others[k - 1], Ids(a[..n - 1]), a[n - 1], b[n - 1]);
      assert a[..n] == a[..n - 1] + [a[n - 1]] && b[..n] == b[..n - 1] + [b[n - 1]];
    }
    assert a[..|a|] == a && b[..|b|] == b;
  }

  lemma AppendedIsUnique(t: WorkerTask, taken: set<string>, a: WorkerTask, b: WorkerTask)
    requires AppendedAs(t, taken, a) && AppendedAs(t, taken, b)
    ensures a == b
  {
    if t.id in taken {
      var m: nat :| FirstFreeSuffix(t.id, taken, m) && a == t.(id := Suffixed(t.id, m));
      var n: nat :| FirstFreeSuffix(t.id, taken, n) && b == t.(id := Suffixed(t.id, n));
      assert m < n ==> Suffixed(t.id, m) in taken;
      assert n < m ==> Suffixed(t.id, n) in taken;
    }
  }

  // ---------------------------------------------------------------- the three rounds

  function WithoutId(tasks: seq<WorkerTask>, id: string): seq<WorkerTask> {
    if tasks == [] then []
    else if tasks[0].id == id then WithoutId(tasks[1..], id)
    else [tasks[0]] + WithoutId(tasks[1..], id)
  }

  /** Drops the placeholder of a failed round if there is any other task. */
  function DropPlaceholder(tasks: seq<WorkerTask>): seq<WorkerTask> {
    if exists t :: t in tasks && t.id != FALLBACK_ID then WithoutId(tasks, FALLBACK_ID) else tasks
  }

  /** Rounds B and C are merged into round A and the placeholder is dropped. */
  ghost predicate IsPlanned(
    a: seq<WorkerTask>, b: seq<WorkerTask>, c: seq<WorkerTask>, planned: seq<WorkerTask>)
  {
    exists ab, abc :: IsMerge(a, b, ab) && IsMerge(ab, c, abc) && planned == DropPlaceholder(abc)
  }

  /** Phase 2: round A is the base, rounds B and C are merged into it. */
  method PlanInThreeRounds(roundA: PlanDoc, roundB: PlanDoc, roundC: PlanDoc) returns (plan: PlanDoc)
    requires roundA != roundB && roundA != roundC
    modifies roundA
    ensures plan == roundA
    ensures IsPlanned(old(roundA.tasks), roundB.tasks, roundC.tasks, plan.tasks)
    ensures plan.summary == Preferred(Preferred(old(roundA.summary), roundB.summary), roundC.summary)
    ensures plan.architecture
      == Preferred(Preferred(old(roundA.architecture), roundB.architecture), roundC.architecture)
  {
    plan := roundA;
    plan.Merge(roundB);
    ghost var ab := plan.tasks;
    plan.Merge(roundC);
    ghost var abc := plan.tasks;
    plan.tasks := DropPlaceholder(plan.tasks);
    assert IsMerge(old(roundA.tasks), roundB.tasks, ab) && IsMerge(ab, roundC.tasks, abc);
  }

  lemma {:induction false} WithoutIdIsSubsequence(tasks: seq<WorkerTask>, id: string)
    ensures forall t :: t in WithoutId(tasks, id) <==> t in tasks && t.id != id
    ensures DistinctRawIds(tasks) ==> DistinctRawIds(WithoutId(tasks, id))
  {
    if tasks != [] {
      var rest := tasks[1..];
      WithoutIdIsSubsequence(rest, id);
      assert tasks == [tasks[0]] + rest;
      if DistinctRawIds(tasks) {
        assert DistinctRawIds(rest) by {
          assert forall i :: 0 <= i < |rest| ==> rest[i] == tasks[i + 1];
        }
        forall t | t in WithoutId(rest, id)
          ensures t.id != tasks[0].id
        {
          var i :| 0 <= i < |rest| && rest[i] == t;
          assert tasks[i + 1] == t;
        }
      }
    }
  }

  ghost predicate TrimmedIds(tasks: seq<WorkerTask>) {
    forall t :: t in tasks ==> IsTrimmed(t.id)
  }

  lemma AppendedIsTrimmed(t: WorkerTask, taken: set<string>, m: WorkerTask)
    requires AppendedAs(t, taken, m) && IsTrimmed(t.id)
    ensures IsTrimmed(m.id)
  {
    if t.id in taken {
      var n: nat :| FirstFreeSuffix(t.id, taken, n) && m == t.(id := Suffixed(t.id, n));
      DecimalIsDigits(n);
    }
  }

  lemma MergeKeepsTrimmed(tasks: seq<WorkerTask>, others: seq<WorkerTask>, merged: seq<WorkerTask>)
    requires IsMerge(tasks, others, merged) && TrimmedIds(tasks) && TrimmedIds(others)
    ensures TrimmedIds(merged)
  {
    forall i | 0 <= i < |merged|
      ensures IsTrimmed(merged[i].id)
    {
      if i < |tasks| {
        assert merged[i] == tasks[i];
      } else {
        var k := i - |tasks|;
        assert MergedAt(|tasks|, others, merged, k);
        assert others[k] in others;
        AppendedIsTrimmed(others[k], Ids(merged[..|tasks| + k]), merged[i]);
      }
    }
  }

  /** Merging compares raw ids and staging trimmed ones: raw-distinct ids may still collide. */
  lemma RawDistinctIsNotEnough(t: WorkerTask)
    ensures var tasks := [t.(id := "api"), t.(id := " api")];
      && IsMerge([tasks[0]], [tasks[1]], tasks)
      && DistinctRawIds(tasks)
      && !DistinctIds(tasks)
  {
    var tasks := [t.(id := "api"), t.(id := " api")];
    assert tasks[..1] == [tasks[0]];
    assert Ids([tasks[0]]) == {"api"};
    assert MergedAt(1, [tasks[1]], tasks, 0);
    assert " api"[1..] == "api";
    assert TrimStart(" api") == "api" && Trim(" api") == "api" && Trim("api") == "api";
    assert Trim(tasks[0].id) == Trim(tasks[1].id);
  }

  /**
   * The plan Phase 2 produces: if round A has distinct ids and no round's id carries surrounding
   * white space, all ids are distinct both raw and as staging compares them.
   */
  lemma PlanningGivesDistinctIds(
    a: seq<WorkerTask>, b: seq<WorkerTask>, c: seq<WorkerTask>, planned: seq<WorkerTask>)
    requires DistinctRawIds(a) && IsPlanned(a, b, c, planned)
    ensures DistinctRawIds(planned)
    ensures TrimmedIds(a) && TrimmedIds(b) && TrimmedIds(c) ==> DistinctIds(planned)
  {
    var ab, abc :| IsMerge(a, b, ab) && IsMerge(ab, c, abc) && planned == DropPlaceholder(abc);
    MergeKeepsDistinct(a, b, ab);
    MergeKeepsDistinct(ab, c, abc);
    WithoutIdIsSubsequence(abc, FALLBACK_ID);
    if TrimmedIds(a) && TrimmedIds(b) && TrimmedIds(c) {
      MergeKeepsTrimmed(a, b, ab);
      MergeKeepsTrimmed(ab, c, abc);
      forall i, j | 0 <= i < j < |planned|
        ensures Trim(planned[i].id) != Trim(planned[j].id)
      {
        assert planned[i] in abc && planned[j] in abc;
        TrimOfTrimmed(planned[i].id);
        TrimOfTrimmed(planned[j].id);
      }
    }
  }

  /** The three rounds determine the planned tasks. */
  lemma PlanningIsUnique(
    a: seq<WorkerTask>, b: seq<WorkerTask>, c: seq<WorkerTask>, p: seq<WorkerTask>, q: seq<WorkerTask>)
    requires IsPlanned(a, b, c, p) && IsPlanned(a, b, c, q)
    ensures p == q
  {
    var ab, abc :| IsMerge(a, b, ab) && IsMerge(ab, c, abc) && p == DropPlaceholder(abc);
    var ab', abc' :| IsMerge(a, b, ab') && IsMerge(ab', c, abc') && q == DropPlaceholder(abc');
    MergeIsUnique(a, b, ab, ab', |b|);
    MergeIsUnique(ab, c, abc, abc', |c|);
  }

  /**
   * When every round fails to produce a plan, each one is the same placeholder; the later copies
   * are renamed, so the clean-up drops the first and keeps the others.
   */
  lemma PlaceholdersOfLaterRoundsStay(t: WorkerTask)
    requires t.id == FALLBACK_ID
    ensures var second := t.(id := Suffixed(FALLBACK_ID, 2));
            var third := t.(id := Suffixed(FALLBACK_ID, 3));
      IsPlanned([t], [t], [t], [second, third])
  {
    var second := t.(id := Suffixed(FALLBACK_ID, 2));
    var third := t.(id := Suffixed(FALLBACK_ID, 3));
    if second.id == third.id {
      SuffixedInjective(FALLBACK_ID, 2, 3);
    }
    assert Ids([t]) == {t.id} && Ids([t, second]) == {t.id, second.id};
    assert [t, second][..1] == [t] && [t, second, third][..2] == [t, second];
    assert second.id != t.id && third.id != t.id by {
      DecimalIsDigits(2);
      assert |second.id| > |t.id| && |third.id| > |t.id|;
    }
    assert FirstFreeSuffix(FALLBACK_ID, Ids([t]), 2);
    assert MergedAt(1, [t], [t, second], 0);
    assert FirstFreeSuffix(FALLBACK_ID, Ids([t, second]), 3);
    assert MergedAt(2, [t], [t, second, third], 0);
    var all := [t, second, third];
    assert second in all;
    assert all[1..] == [second, third] && [second, third][1..] == [third] && [third][1..] == [];
    assert WithoutId([third], FALLBACK_ID) == [third];
    assert WithoutId([second, third], FALLBACK_ID) == [second, third];
    assert DropPlaceholder(all) == [second, third];
    assert IsMerge([t], [t], [t, second]) && IsMerge([t, second], [t], all);
  }
}
