// What a staging depends on: white space around ids and dependencies makes no difference, nor do
// dependencies that are blank or that no task has for an id.
module StagingLaws {
  import opened Text
  import opened TextLaws
  import opened Staging
  import StagingUniqueness

  /** The ids a task asks for, as they are compared. */
  function Asked(t: WorkerTask): set<string> {
    Trims(t.dependencies)
  }

  function Trims(texts: seq<string>): set<string> {
    if texts == [] then {} else {Trim(texts[0])} + Trims(texts[1..])
  }

  lemma {:induction false} TrimsMeans(texts: seq<string>, d: string)
    ensures d in Trims(texts) <==> exists k :: 0 <= k < |texts| && Trim(texts[k]) == d
  {
    if texts != [] {
      TrimsMeans(texts[1..], d);
      if d in Trims(texts[1..]) {
        var k :| 0 <= k < |texts[1..]| && Trim(texts[1..][k]) == d;
        assert Trim(texts[k + 1]) == d;
      }
      if k :| 0 < k < |texts| && Trim(texts[k]) == d {
        assert texts[1..][k - 1] == texts[k];
      }
    }
  }

  function TrimmedIdsOf(tasks: seq<WorkerTask>): set<string> {
    set i | 0 <= i < |tasks| :: Trim(tasks[i].id)
  }

  /** The same ids, and the same of them asked for by each task, blank ids aside. */
  ghost predicate AskTheSame(a: seq<WorkerTask>, b: seq<WorkerTask>) {
    && |a| == |b|
    && forall i :: 0 <= i < |a| ==>
         && Trim(a[i].id) == Trim(b[i].id)
         && (forall d :: d != "" && d in TrimmedIdsOf(a) ==> (d in Asked(a[i]) <==> d in Asked(b[i])))
  }

  lemma NeedsAsked(tasks: seq<WorkerTask>, i: nat, d: string)
    requires i < |tasks|
    ensures Needs(tasks, i, d) <==> d != "" && d in TrimmedIdsOf(tasks) && d in Asked(tasks[i])
  {
    TrimsMeans(tasks[i].dependencies, d);
    if j :| 0 <= j < |tasks| && Trim(tasks[j].id) == d {
      assert Provides(tasks, j, d);
    }
  }

  lemma SameReadiness(a: seq<WorkerTask>, b: seq<WorkerTask>, i: nat, s: set<nat>)
    requires AskTheSame(a, b) && i < |a|
    ensures IdsOf(a, s) == IdsOf(b, s)
    ensures Ready(a, i, IdsOf(a, s)) <==> Ready(b, i, IdsOf(b, s))
  {
    assert TrimmedIdsOf(a) == TrimmedIdsOf(b);
    assert IdsOf(a, s) == IdsOf(b, s);
    forall d: string
      ensures Needs(a, i, d) <==> Needs(b, i, d)
    {
      NeedsAsked(a, i, d);
      NeedsAsked(b, i, d);
    }
  }

  lemma SameStagingOneWay(a: seq<WorkerTask>, b: seq<WorkerTask>, stages: seq<seq<nat>>)
    requires AskTheSame(a, b) && IsStaging(a, stages)
    ensures IsStaging(b, stages)
  {
    forall k | 0 <= k < |stages|
      ensures WellFormedStage(b, stages, k)
      ensures NormalStage(b, stages, k) || FallbackStage(b, stages, k)
    {
      assert WellFormedStage(a, stages, k);
      assert NormalStage(a, stages, k) || FallbackStage(a, stages, k);
      forall i: nat | i < |a|
        ensures Ready(a, i, IdsOf(a, Placed(stages, k))) <==> Ready(b, i, IdsOf(b, Placed(stages, k)))
      {
        SameReadiness(a, b, i, Placed(stages, k));
      }
    }
  }

  lemma AskingIsSymmetric(a: seq<WorkerTask>, b: seq<WorkerTask>)
    requires AskTheSame(a, b)
    ensures AskTheSame(b, a)
  {
    assert TrimmedIdsOf(a) == TrimmedIdsOf(b);
  }

  /** A staging depends on nothing else. */
  lemma SameStaging(a: seq<WorkerTask>, b: seq<WorkerTask>, stages: seq<seq<nat>>)
    requires AskTheSame(a, b)
    ensures IsStaging(a, stages) <==> IsStaging(b, stages)
  {
    AskingIsSymmetric(a, b);
    if IsStaging(a, stages) {
      SameStagingOneWay(a, b, stages);
    }
    if IsStaging(b, stages) {
      SameStagingOneWay(b, a, stages);
    }
  }

  // ---------------------------------------------------------------- white space

  /** The same ids and dependencies, with white space around them. */
  ghost predicate ArePadded(tasks: seq<WorkerTask>, padded: seq<WorkerTask>) {
    && |tasks| == |padded|
    && forall i :: 0 <= i < |tasks| ==>
         && IsPadded(tasks[i].id, padded[i].id)
         && |tasks[i].dependencies| == |padded[i].dependencies|
         && forall k :: 0 <= k < |tasks[i].dependencies| ==>
              IsPadded(tasks[i].dependencies[k], padded[i].dependencies[k])
  }

  /** White space around ids and dependencies changes no stage. */
  lemma PaddingKeepsStaging(tasks: seq<WorkerTask>, padded: seq<WorkerTask>, stages: seq<seq<nat>>)
    requires ArePadded(tasks, padded)
    ensures IsStaging(tasks, stages) <==> IsStaging(padded, stages)
  {
    forall i | 0 <= i < |tasks|
      ensures Trim(tasks[i].id) == Trim(padded[i].id) && Asked(tasks[i]) == Asked(padded[i])
    {
      PaddingIsTrimmed(tasks[i].id, padded[i].id);
      PaddedAsk(tasks[i], padded[i]);
    }
    SameStaging(tasks, padded, stages);
  }

  lemma PaddedAsk(t: WorkerTask, padded: WorkerTask)
    requires |t.dependencies| == |padded.dependencies|
    requires forall k :: 0 <= k < |t.dependencies| ==> IsPadded(t.dependencies[k], padded.dependencies[k])
    ensures Asked(t) == Asked(padded)
  {
    PaddedTrims(t.dependencies, padded.dependencies);
  }

  lemma {:induction false} PaddedTrims(a: seq<string>, b: seq<string>)
    requires |a| == |b| && forall k :: 0 <= k < |a| ==> IsPadded(a[k], b[k])
    ensures Trims(a) == Trims(b)
  {
    if a != [] {
      PaddingIsTrimmed(a[0], b[0]);
      PaddedTrims(a[1..], b[1..]);
    }
  }

  // ---------------------------------------------------------------- dependencies that count for nothing

  /** The task without the dependencies that are blank or no task's id. */
  function Counting(t: WorkerTask, ids: set<string>): WorkerTask {
    t.(dependencies := CountingOnly(t.dependencies, ids))
  }

  function CountingOnly(dependencies: seq<string>, ids: set<string>): seq<string> {
    if dependencies == [] then []
    else
      var d, rest := Trim(dependencies[0]), CountingOnly(dependencies[1..], ids);
      if d != "" && d in ids then [dependencies[0]] + rest else rest
  }

  lemma {:induction false} CountingTrims(dependencies: seq<string>, ids: set<string>)
    ensures Trims(CountingOnly(dependencies, ids)) == Trims(dependencies) * (ids - {""})
  {
    if dependencies != [] {
      CountingTrims(dependencies[1..], ids);
      assert ([dependencies[0]] + CountingOnly(dependencies[1..], ids))[1..] == CountingOnly(dependencies[1..], ids);
    }
  }

  function AllCounting(tasks: seq<WorkerTask>): (counting: seq<WorkerTask>)
    ensures |counting| == |tasks|
    ensures forall i :: 0 <= i < |tasks| ==> counting[i] == Counting(tasks[i], TrimmedIdsOf(tasks))
  {
    seq(|tasks|, i requires 0 <= i < |tasks| => Counting(tasks[i], TrimmedIdsOf(tasks)))
  }

  /** Dependencies that are blank or no task's id change no stage. */
  lemma UnknownDependenciesDoNotCount(tasks: seq<WorkerTask>, stages: seq<seq<nat>>)
    ensures IsStaging(tasks, stages) <==> IsStaging(AllCounting(tasks), stages)
  {
    var counting, ids := AllCounting(tasks), TrimmedIdsOf(tasks);
    forall i | 0 <= i < |tasks|
      ensures Asked(counting[i]) == Asked(tasks[i]) * (ids - {""})
    {
      CountingTrims(tasks[i].dependencies, ids);
    }
    SameStaging(tasks, counting, stages);
  }

  // ---------------------------------------------------------------- one dependency

  /** The first task waits for nothing and the second for the first, whose id it writes with a space behind. */
  lemma TrailingSpaceIsWaitedFor(t: WorkerTask, stages: seq<seq<nat>>)
    ensures var tasks := [t.(id := "a", dependencies := []), t.(id := "b", dependencies := ["a "])];
      IsStaging(tasks, stages) <==> stages == [[0], [1]]
  {
    var tasks := [t.(id := "a", dependencies := []), t.(id := "b", dependencies := ["a "])];
    SpaceIsTrimmed();
    WaitsForFirst(tasks);
    if IsStaging(tasks, stages) {
      StagingUniqueness.StagingIsUnique(tasks, stages, [[0], [1]]);
    }
  }

  lemma SpaceIsTrimmed()
    ensures Trim("a") == "a" && Trim("b") == "b" && Trim("a ") == "a" && "a" != "b"
  {
    TrimIsUnique("a ", "", "a", " ");
    assert "a"[0] != "b"[0];
  }

  lemma WaitsForFirst(tasks: seq<WorkerTask>)
    requires |tasks| == 2 && tasks[0].dependencies == [] && |tasks[1].dependencies| == 1
    requires Trim(tasks[0].id) == Trim(tasks[1].dependencies[0]) != ""
    requires Trim(tasks[0].id) != Trim(tasks[1].id)
    ensures IsStaging(tasks, [[0], [1]])
  {
    FirstBeforeSecond(tasks, Trim(tasks[0].id));
    OneThenTheOther(tasks, [[0], [1]]);
  }

  lemma OneThenTheOther(tasks: seq<WorkerTask>, stages: seq<seq<nat>>)
    requires |tasks| == 2 && stages == [[0], [1]]
    requires Ready(tasks, 0, IdsOf(tasks, {})) && !Ready(tasks, 1, IdsOf(tasks, {}))
    requires Ready(tasks, 1, IdsOf(tasks, {0}))
    ensures IsStaging(tasks, stages)
  {
    PlacedOneByOne(stages);
    SoleTaskIsNormal(tasks, stages, 0);
    SoleTaskIsNormal(tasks, stages, 1);
    forall k | 0 <= k < |stages|
      ensures NormalStage(tasks, stages, k) && WellFormedStage(tasks, stages, k)
    {
      assert k == 0 || k == 1;
    }
  }

  /** Stage `k` holds task `k` alone. */
  lemma SoleTaskIsNormal(tasks: seq<WorkerTask>, stages: seq<seq<nat>>, k: nat)
    requires k < |stages| && k < |tasks| && stages[k] == [k]
    requires forall i :: 0 <= i < |tasks| ==> (i in Placed(stages, k) <==> i < k)
    requires forall i :: k <= i < |tasks| ==> (Ready(tasks, i, IdsOf(tasks, Placed(stages, k))) <==> i == k)
    ensures NormalStage(tasks, stages, k) && WellFormedStage(tasks, stages, k)
  {
    assert k in stages[k];
  }

  lemma PlacedOneByOne(stages: seq<seq<nat>>)
    requires stages == [[0], [1]]
    ensures Placed(stages, 0) == {} && Placed(stages, 1) == {0} && Placed(stages, 2) == {0, 1}
  {
    assert stages[0][0] == 0 && stages[1][0] == 1;
    assert 0 in Placed(stages, 1) && 0 in Placed(stages, 2) && 1 in Placed(stages, 2);
  }

  lemma FirstBeforeSecond(tasks: seq<WorkerTask>, d: string)
    requires |tasks| == 2 && tasks[0].dependencies == [] && |tasks[1].dependencies| == 1
    requires Trim(tasks[0].id) == Trim(tasks[1].dependencies[0]) == d != ""
    ensures Ready(tasks, 0, IdsOf(tasks, {})) && !Ready(tasks, 1, IdsOf(tasks, {}))
    ensures Ready(tasks, 1, IdsOf(tasks, {0}))
  {
    assert Provides(tasks, 0, d) && Declares(tasks[1], d);
    NeedsOnly(tasks, d);
    assert Needs(tasks, 1, d) && d !in IdsOf(tasks, {});
    assert d in IdsOf(tasks, {0});
  }

  lemma NeedsOnly(tasks: seq<WorkerTask>, d: string)
    requires |tasks| == 2 && tasks[0].dependencies == [] && |tasks[1].dependencies| == 1
    requires Trim(tasks[1].dependencies[0]) == d != "" && Known(tasks, d)
    ensures forall e :: !Needs(tasks, 0, e)
    ensures forall e :: Needs(tasks, 1, e) <==> e == d
  {
    assert Declares(tasks[1], d);
  }
}
