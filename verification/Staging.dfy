// Worker staging: `Orchestrator::partition_tasks_into_stages` splits a plan into stages that run
// one after the other, every task in the first stage by which its dependencies are done, with one
// last stage for whatever can never become ready.
module Staging {
  import opened Text

  datatype WorkerTask = WorkerTask(
    id: string,
    title: string,
    objective: string,
    interfaces: string,
    dependencies: seq<string>,
    requirements: string,
    workerLabel: string)

  // ---------------------------------------------------------------- the dependency relation

  /** Task `j` carries the (trimmed) id `d`. */
  predicate Provides(tasks: seq<WorkerTask>, j: nat, d: string) {
    j < |tasks| && Trim(tasks[j].id) == d
  }

  predicate Known(tasks: seq<WorkerTask>, d: string) {
    exists j :: 0 <= j < |tasks| && Provides(tasks, j, d)
  }

  predicate Declares(t: WorkerTask, d: string) {
    exists k :: 0 <= k < |t.dependencies| && Trim(t.dependencies[k]) == d
  }

  /** Task `i` has to wait for the id `d`: it declares it, it is not blank, and some task has it. */
  predicate Needs(tasks: seq<WorkerTask>, i: nat, d: string) {
    i < |tasks| && d != "" && Declares(tasks[i], d) && Known(tasks, d)
  }

  ghost predicate Ready(tasks: seq<WorkerTask>, i: nat, completed: set<string>) {
    forall d :: Needs(tasks, i, d) ==> d in completed
  }

  /** No two tasks share a trimmed id. */
  ghost predicate DistinctIds(tasks: seq<WorkerTask>) {
    forall i, j :: 0 <= i < j < |tasks| ==> Trim(tasks[i].id) != Trim(tasks[j].id)
  }

  // ---------------------------------------------------------------- what a staging is

  /** The tasks of the first `k` stages. */
  ghost function Placed(stages: seq<seq<nat>>, k: nat): set<nat>
    requires k <= |stages|
  {
    set m, p | 0 <= m < k && 0 <= p < |stages[m]| :: stages[m][p]
  }

  ghost function IdsOf(tasks: seq<WorkerTask>, s: set<nat>): set<string> {
    set j | j in s && j < |tasks| :: Trim(tasks[j].id)
  }

  ghost predicate Increasing(s: seq<nat>) {
    forall p, q :: 0 <= p < q < |s| ==> s[p] < s[q]
  }

  /** Stage `k` holds exactly the tasks, among those left, that are ready after the earlier stages. */
  ghost predicate NormalStage(tasks: seq<WorkerTask>, stages: seq<seq<nat>>, k: nat)
    requires k < |stages|
  {
    forall i :: 0 <= i < |tasks| && i !in Placed(stages, k) ==>
      (i in stages[k] <==> Ready(tasks, i, IdsOf(tasks, Placed(stages, k))))
  }

  /** Stage `k` is the last one and none of the tasks left for it is ready. */
  ghost predicate FallbackStage(tasks: seq<WorkerTask>, stages: seq<seq<nat>>, k: nat)
    requires k < |stages|
  {
    && k == |stages| - 1
    && forall i :: 0 <= i < |tasks| && i !in Placed(stages, k) ==>
         !Ready(tasks, i, IdsOf(tasks, Placed(stages, k)))
  }

  ghost predicate WellFormedStage(tasks: seq<WorkerTask>, stages: seq<seq<nat>>, k: nat)
    requires k < |stages|
  {
    && stages[k] != []
    && Increasing(stages[k])
    && (forall i :: i in stages[k] ==> i < |tasks| && i !in Placed(stages, k))
  }

  ghost predicate IsStaging(tasks: seq<WorkerTask>, stages: seq<seq<nat>>) {
    && (forall k :: 0 <= k < |stages| ==> WellFormedStage(tasks, stages, k))
    && (forall i :: 0 <= i < |tasks| ==> i in Placed(stages, |stages|))
    && (forall k :: 0 <= k < |stages| ==>
          NormalStage(tasks, stages, k) || FallbackStage(tasks, stages, k))
  }

  /** The tasks of the fallback stage, if the staging ends in one. */
  ghost function Fallback(tasks: seq<WorkerTask>, stages: seq<seq<nat>>): set<nat> {
    set i, k | 0 <= k < |stages| && FallbackStage(tasks, stages, k) && i in stages[k] :: i
  }

  // ---------------------------------------------------------------- the algorithm

  /** The readiness test of the inner loop, dependency by dependency. */
  method IsReady(tasks: seq<WorkerTask>, idx: nat, completed: set<string>) returns (ready: bool)
    requires idx < |tasks|
    ensures ready <==> Ready(tasks, idx, completed)
  {
    var t := tasks[idx];
    ready := true;
    for k := 0 to |t.dependencies|
      invariant ready <==> forall m :: 0 <= m < k ==>
        var d := Trim(t.dependencies[m]);
        d == "" || d in completed || !Known(tasks, d)
    {
      var d := Trim(t.dependencies[k]);
      if !(d == "" || d in completed || !Known(tasks, d)) {
        ready := false;
      }
    }
    if !ready {
      var m :| 0 <= m < |t.dependencies| &&
               Trim(t.dependencies[m]) != "" && Trim(t.dependencies[m]) !in completed
               && Known(tasks, Trim(t.dependencies[m]));
      assert Needs(tasks, idx, Trim(t.dependencies[m]));
    }
  }

  lemma PlacedSnoc(stages: seq<seq<nat>>, stage: seq<nat>)
    ensures forall k :: 0 <= k <= |stages| ==> Placed(stages + [stage], k) == Placed(stages, k)
    ensures Placed(stages + [stage], |stages| + 1) == Placed(stages, |stages|) + set i | i in stage
  {
    var more := stages + [stage];
    forall k | 0 <= k <= |stages|
      ensures Placed(more, k) == Placed(stages, k)
    {
      assert forall m :: 0 <= m < k ==> more[m] == stages[m];
    }
    var whole := Placed(more, |stages| + 1);
    forall i | i in Placed(stages, |stages|) || i in stage
      ensures i in whole
    {
      if i in stage {
        var p :| 0 <= p < |stage| && stage[p] == i;
        assert more[|stages|][p] == i;
      } else {
        var m, p :| 0 <= m < |stages| && 0 <= p < |stages[m]| && stages[m][p] == i;
        assert more[m][p] == i;
      }
    }
    forall i | i in whole
      ensures i in Placed(stages, |stages|) || i in stage
    {
      var m, p :| 0 <= m < |stages| + 1 && 0 <= p < |more[m]| && more[m][p] == i;
      if m < |stages| {
        assert stages[m][p] == i;
      }
    }
  }

  /** Appending a stage changes nothing about the earlier ones. */
  lemma StagesSnoc(tasks: seq<WorkerTask>, stages: seq<seq<nat>>, stage: seq<nat>)
    requires forall k :: 0 <= k < |stages| ==> WellFormedStage(tasks, stages, k)
    requires forall k :: 0 <= k < |stages| ==> NormalStage(tasks, stages, k)
    ensures forall k :: 0 <= k < |stages| ==> WellFormedStage(tasks, stages + [stage], k)
    ensures forall k :: 0 <= k < |stages| ==> NormalStage(tasks, stages + [stage], k)
  {
    PlacedSnoc(stages, stage);
    forall k | 0 <= k < |stages|
      ensures WellFormedStage(tasks, stages + [stage], k)
      ensures NormalStage(tasks, stages + [stage], k)
    {
      assert WellFormedStage(tasks, stages, k) && NormalStage(tasks, stages, k);
      assert (stages + [stage])[k] == stages[k];
    }
  }

  lemma IncreasingSnoc(s: seq<nat>, x: nat)
    requires Increasing(s)
    ensures (forall i :: i in s ==> i < x) ==> Increasing(s + [x])
  {
    assert forall p :: 0 <= p < |s| ==> s[p] in s;
  }

  /** Splits the remaining tasks into those ready after `completed` and the others, in order. */
  method SplitReady(tasks: seq<WorkerTask>, remaining: seq<nat>, completed: set<string>)
    returns (currentStage: seq<nat>, nextRemaining: seq<nat>)
    requires forall i :: i in remaining ==> i < |tasks|
    requires Increasing(remaining)
    ensures forall i :: i in currentStage <==> i in remaining && Ready(tasks, i, completed)
    ensures forall i :: i in nextRemaining <==> i in remaining && !Ready(tasks, i, completed)
    ensures Increasing(currentStage) && Increasing(nextRemaining)
    ensures |currentStage| + |nextRemaining| == |remaining|
  {
    currentStage, nextRemaining := [], [];
    for k := 0 to |remaining|
      invariant forall i :: i in currentStage <==> i in remaining[..k] && Ready(tasks, i, completed)
      invariant forall i :: i in nextRemaining <==> i in remaining[..k] && !Ready(tasks, i, completed)
      invariant Increasing(currentStage) && Increasing(nextRemaining)
      invariant |currentStage| + |nextRemaining| == k
    {
      var idx := remaining[k];
      assert idx in remaining;
      assert remaining[..k + 1] == remaining[..k] + [idx];
      assert forall i :: i in remaining[..k] ==> i < idx;
      IncreasingSnoc(currentStage, idx);
      IncreasingSnoc(nextRemaining, idx);
      var ready := IsReady(tasks, idx, completed);
      if ready {
        currentStage := currentStage + [idx];
      } else {
        nextRemaining := nextRemaining + [idx];
      }
    }
    assert remaining[..|remaining|] == remaining;
  }

  method CompleteStage(tasks: seq<WorkerTask>, stage: seq<nat>, before: set<string>)
    returns (completed: set<string>)
    requires forall i :: i in stage ==> i < |tasks|
    ensures completed == before + IdsOf(tasks, set i | i in stage)
  {
    completed := before;
    for k := 0 to |stage|
      invariant completed == before + IdsOf(tasks, set i | i in stage[..k])
    {
      assert stage[..k + 1] == stage[..k] + [stage[k]];
      assert stage[k] in stage;
      completed := completed + {Trim(tasks[stage[k]].id)};
    }
    assert stage[..|stage|] == stage;
  }

  method PartitionTasksIntoStages(tasks: seq<WorkerTask>) returns (stages: seq<seq<nat>>)
    ensures IsStaging(tasks, stages)
  {
    stages := [];
    if tasks == [] {
      return;
    }
    var completed: set<string> := {};
    var remaining: seq<nat> := seq(|tasks|, i => i);
    forall i | 0 <= i < |tasks|
      ensures i in remaining
    {
      assert remaining[i] == i;
    }
    while remaining != []
      invariant remaining != [] ==> AllNormal(tasks, stages) && Remain(tasks, stages, remaining)
      invariant remaining != [] ==> completed == IdsOf(tasks, Placed(stages, |stages|))
      invariant remaining == [] ==> IsStaging(tasks, stages)
      decreases |remaining|
    {
      var currentStage, nextRemaining := SplitReady(tasks, remaining, completed);
      if currentStage == [] {
        FallbackRound(tasks, stages, remaining, nextRemaining);
        currentStage := nextRemaining;
        remaining := [];
      } else {
        ReadyRound(tasks, stages, remaining, currentStage, nextRemaining);
        completed := CompleteStage(tasks, currentStage, completed);
        remaining := nextRemaining;
      }
      stages := stages + [currentStage];
    }
  }

  ghost predicate AllNormal(tasks: seq<WorkerTask>, stages: seq<seq<nat>>) {
    forall k :: 0 <= k < |stages| ==> WellFormedStage(tasks, stages, k) && NormalStage(tasks, stages, k)
  }

  /** `remaining` lists the tasks no stage holds. */
  ghost predicate Remain(tasks: seq<WorkerTask>, stages: seq<seq<nat>>, remaining: seq<nat>) {
    && Increasing(remaining)
    && (forall i :: i in remaining ==> i < |tasks|)
    && (forall i :: 0 <= i < |tasks| ==> (i in remaining <==> i !in Placed(stages, |stages|)))
  }

  /** A round in which some task is ready: the ready ones form the stage, the others remain. */
  lemma ReadyRound(
    tasks: seq<WorkerTask>, stages: seq<seq<nat>>, remaining: seq<nat>, stage: seq<nat>, rest: seq<nat>)
    requires AllNormal(tasks, stages) && Remain(tasks, stages, remaining)
    requires stage != [] && Increasing(stage) && Increasing(rest)
    requires var completed := IdsOf(tasks, Placed(stages, |stages|));
      && (forall i :: i in stage <==> i in remaining && Ready(tasks, i, completed))
      && (forall i :: i in rest <==> i in remaining && !Ready(tasks, i, completed))
    ensures AllNormal(tasks, stages + [stage]) && Remain(tasks, stages + [stage], rest)
    ensures IdsOf(tasks, Placed(stages + [stage], |stages| + 1))
      == IdsOf(tasks, Placed(stages, |stages|)) + IdsOf(tasks, set i | i in stage)
    ensures rest == [] ==> IsStaging(tasks, stages + [stage])
  {
    StagesSnoc(tasks, stages, stage);
    PlacedSnoc(stages, stage);
    StageAdded(tasks, stages, stage, false);
  }

  /** A round in which no task is ready: all of them form the last stage. */
  lemma FallbackRound(
    tasks: seq<WorkerTask>, stages: seq<seq<nat>>, remaining: seq<nat>, stage: seq<nat>)
    requires AllNormal(tasks, stages) && Remain(tasks, stages, remaining)
    requires stage != [] && Increasing(stage)
    requires forall i :: i in stage <==> i in remaining
    requires forall i :: i in remaining ==> !Ready(tasks, i, IdsOf(tasks, Placed(stages, |stages|)))
    ensures IsStaging(tasks, stages + [stage])
  {
    StagesSnoc(tasks, stages, stage);
    PlacedSnoc(stages, stage);
    StageAdded(tasks, stages, stage, true);
    var more, n := stages + [stage], |stages|;
    forall k | 0 <= k < |more|
      ensures WellFormedStage(tasks, more, k) && (NormalStage(tasks, more, k) || FallbackStage(tasks, more, k))
    {
      assert k == n || (WellFormedStage(tasks, more, k) && NormalStage(tasks, more, k));
    }
    forall i | 0 <= i < |tasks|
      ensures i in Placed(more, |more|)
    {
      assert i in Placed(stages, n) || i in stage;
    }
  }

  /** The stage one round of the loop appends is well formed, and normal or the fallback. */
  lemma StageAdded(tasks: seq<WorkerTask>, stages: seq<seq<nat>>, stage: seq<nat>, allWaiting: bool)
    requires stage != [] && Increasing(stage)
    requires forall i :: i in stage ==> i < |tasks| && i !in Placed(stages, |stages|)
    requires forall i :: 0 <= i < |tasks| && i !in Placed(stages, |stages|) ==>
      (i in stage <==> allWaiting || Ready(tasks, i, IdsOf(tasks, Placed(stages, |stages|))))
    requires allWaiting ==> forall i :: i in stage ==>
      !Ready(tasks, i, IdsOf(tasks, Placed(stages, |stages|)))
    ensures WellFormedStage(tasks, stages + [stage], |stages|)
    ensures if allWaiting then FallbackStage(tasks, stages + [stage], |stages|)
            else NormalStage(tasks, stages + [stage], |stages|)
  {
    PlacedSnoc(stages, stage);
  }
}
