// With distinct trimmed ids the dependency relation is a graph on the tasks: stage numbers are
// longest chains, and the fallback stage is the set of tasks that can reach a cycle.
module DependencyCycles {
  import opened Text
  import opened Staging
  import opened StagingTheorems

  /** Task `i` declares the id of task `j`. */
  ghost predicate DependsOn(tasks: seq<WorkerTask>, i: nat, j: nat) {
    i < |tasks| && j < |tasks| && Needs(tasks, i, Trim(tasks[j].id))
  }

  /** A path of tasks each of which depends on the next. */
  ghost predicate Chain(tasks: seq<WorkerTask>, p: seq<nat>) {
    && p != []
    && (forall a :: 0 <= a < |p| ==> p[a] < |tasks|)
    && (forall a :: 0 <= a < |p| - 1 ==> DependsOn(tasks, p[a], p[a + 1]))
  }

  /** Following dependencies from `i` one can come back to a task already seen. */
  ghost predicate ReachesCycle(tasks: seq<WorkerTask>, i: nat) {
    exists p :: Chain(tasks, p) && p[0] == i && Repeats(p)
  }

  ghost predicate Repeats(p: seq<nat>) {
    exists a, b :: 0 <= a < b < |p| && p[a] == p[b]
  }

  /** The dependency graph has a cycle. */
  ghost predicate Cyclic(tasks: seq<WorkerTask>) {
    exists p :: Chain(tasks, p) && |p| > 1 && p[0] == p[|p| - 1]
  }

  lemma DependencyRunsEarlier(tasks: seq<WorkerTask>, stages: seq<seq<nat>>, i: nat, j: nat, k: nat)
    returns (m: nat)
    requires IsStaging(tasks, stages) && DistinctIds(tasks)
    requires RunsAt(tasks, stages, i, k) && DependsOn(tasks, i, j)
    ensures m < k && RunsAt(tasks, stages, j, m)
  {
    var j';
    j', m := DependenciesRunEarlier(tasks, stages, i, k, Trim(tasks[j].id));
    assert j' == j;
  }

  /** Along a chain that starts outside the fallback, the stage number drops at every step. */
  lemma {:induction false} ChainDescends(tasks: seq<WorkerTask>, stages: seq<seq<nat>>, p: seq<nat>, a: nat, k: nat)
    returns (m: nat)
    requires IsStaging(tasks, stages) && DistinctIds(tasks)
    requires Chain(tasks, p) && a < |p| && RunsAt(tasks, stages, p[0], k)
    ensures m + a <= k && RunsAt(tasks, stages, p[a], m)
  {
    if a == 0 {
      m := k;
    } else {
      m := ChainDescends(tasks, stages, p, a - 1, k);
      m := DependencyRunsEarlier(tasks, stages, p[a - 1], p[a], m);
    }
  }

  lemma {:induction false} ChainOfStageLength(tasks: seq<WorkerTask>, stages: seq<seq<nat>>, i: nat, k: nat)
    returns (p: seq<nat>)
    requires IsStaging(tasks, stages) && RunsAt(tasks, stages, i, k)
    ensures Chain(tasks, p) && p[0] == i && |p| == k + 1
    decreases k
  {
    assert WellFormedStage(tasks, stages, k);
    if k == 0 {
      p := [i];
    } else {
      var j := WaitedForPreviousStage(tasks, stages, i, k);
      var rest := ChainOfStageLength(tasks, stages, j, k - 1);
      p := [i] + rest;
    }
  }

  lemma WaitedForPreviousStage(tasks: seq<WorkerTask>, stages: seq<seq<nat>>, i: nat, k: nat)
    returns (j: nat)
    requires IsStaging(tasks, stages) && RunsAt(tasks, stages, i, k) && k > 0
    ensures RunsAt(tasks, stages, j, k - 1) && DependsOn(tasks, i, j)
  {
    OnlyLastIsFallback(tasks, stages, k - 1);
    assert WellFormedStage(tasks, stages, k) && WellFormedStage(tasks, stages, k - 1);
    if i in Placed(stages, k - 1) {
      var m := StageOf(stages, i, k - 1);
      InStageIsPlaced(stages, i, m, k);
    }
    if i in stages[k - 1] {
      InStageIsPlaced(stages, i, k - 1, k);
    }
    assert NormalStage(tasks, stages, k - 1);
    var d :| Needs(tasks, i, d) && d !in IdsOf(tasks, Placed(stages, k - 1));
    var m;
    j, m := DependenciesRunEarlier(tasks, stages, i, k, d);
  }

  /** A task outside the fallback runs in the stage numbered by its longest dependency chain. */
  lemma StageIsLongestChain(tasks: seq<WorkerTask>, stages: seq<seq<nat>>, i: nat, k: nat)
    requires IsStaging(tasks, stages) && DistinctIds(tasks) && RunsAt(tasks, stages, i, k)
    ensures exists p :: Chain(tasks, p) && p[0] == i && |p| == k + 1
    ensures forall p :: Chain(tasks, p) && p[0] == i ==> |p| <= k + 1
  {
    var longest := ChainOfStageLength(tasks, stages, i, k);
    forall p | Chain(tasks, p) && p[0] == i
      ensures |p| <= k + 1
    {
      var m := ChainDescends(tasks, stages, p, |p| - 1, k);
    }
  }

  // ---------------------------------------------------------------- cycles

  lemma {:induction false} Pigeonhole(p: seq<nat>, n: nat)
    requires |p| > n && forall a :: 0 <= a < |p| ==> p[a] < n
    ensures Repeats(p)
  {
    if !Repeats(p) {
      DistinctFit(p, n);
    }
  }

  lemma {:induction false} DistinctFit(p: seq<nat>, n: nat)
    requires !Repeats(p) && forall a :: 0 <= a < |p| ==> p[a] < n
    ensures |p| <= n
  {
    if p != [] {
      assert p[0] < n;
      if x :| 0 <= x < |p| && p[x] == n - 1 {
        var rest := p[..x] + p[x + 1..];
        forall a, b | 0 <= a < b < |rest|
          ensures rest[a] != rest[b]
        {
          var a' := if a < x then a else a + 1;
          var b' := if b < x then b else b + 1;
          assert rest[a] == p[a'] && rest[b] == p[b'];
        }
        forall a | 0 <= a < |rest|
          ensures rest[a] < n - 1
        {
          var a' := if a < x then a else a + 1;
          assert rest[a] == p[a'];
        }
        DistinctFit(rest, n - 1);
      } else {
        DistinctFit(p, n - 1);
      }
    }
  }

  lemma {:induction false} FallbackChain(tasks: seq<WorkerTask>, stages: seq<seq<nat>>, i: nat, n: nat)
    returns (p: seq<nat>)
    requires IsStaging(tasks, stages) && i in Fallback(tasks, stages)
    ensures Chain(tasks, p) && p[0] == i && |p| == n + 1
    decreases n
  {
    FallbackIsStuck(tasks, stages, i);
    var d :| Needs(tasks, i, d) && forall j :: Provides(tasks, j, d) ==> j in Fallback(tasks, stages);
    if n == 0 {
      p := [i];
    } else {
      var j: nat :| Provides(tasks, j, d);
      var rest := FallbackChain(tasks, stages, j, n - 1);
      p := [i] + rest;
    }
  }

  lemma ChainTail(tasks: seq<WorkerTask>, p: seq<nat>, a: nat, b: nat)
    requires Chain(tasks, p) && a < b <= |p|
    ensures Chain(tasks, p[a..b])
  {
    var q := p[a..b];
    forall c | 0 <= c < |q| - 1
      ensures DependsOn(tasks, q[c], q[c + 1])
    {
      assert q[c] == p[a + c] && q[c + 1] == p[a + c + 1];
      assert DependsOn(tasks, p[a + c], p[(a + c) + 1]);
    }
  }

  /** A chain from a task outside the fallback never comes back to a task. */
  lemma RunningTasksReachNoCycle(tasks: seq<WorkerTask>, stages: seq<seq<nat>>, p: seq<nat>, k: nat, a: nat, b: nat)
    requires IsStaging(tasks, stages) && DistinctIds(tasks)
    requires Chain(tasks, p) && RunsAt(tasks, stages, p[0], k) && a < b < |p|
    ensures p[a] != p[b]
  {
    var m := ChainDescends(tasks, stages, p, a, k);
    ChainTail(tasks, p, a, |p|);
    var m' := ChainDescends(tasks, stages, p[a..], b - a, m);
    if p[a] == p[b] {
      StageIsUnique(tasks, stages, p[a], m, m');
    }
  }

  /** The fallback stage holds exactly the tasks from which a cycle can be reached. */
  lemma FallbackIsCycleReaching(tasks: seq<WorkerTask>, stages: seq<seq<nat>>, i: nat)
    requires IsStaging(tasks, stages) && DistinctIds(tasks) && i < |tasks|
    ensures i in Fallback(tasks, stages) <==> ReachesCycle(tasks, i)
  {
    if i in Fallback(tasks, stages) {
      var p := FallbackChain(tasks, stages, i, |tasks|);
      Pigeonhole(p, |tasks|);
    } else if ReachesCycle(tasks, i) {
      var p :| Chain(tasks, p) && p[0] == i && Repeats(p);
      var k := EveryTaskRunsOrIsFallback(tasks, stages, i);
      var a, b :| 0 <= a < b < |p| && p[a] == p[b];
      RunningTasksReachNoCycle(tasks, stages, p, k, a, b);
    }
  }

  lemma RepeatIsCycle(tasks: seq<WorkerTask>, p: seq<nat>, a: nat, b: nat)
    requires Chain(tasks, p) && a < b < |p| && p[a] == p[b]
    ensures Cyclic(tasks)
  {
    ChainTail(tasks, p, a, b + 1);
    var cycle := p[a..b + 1];
    assert |cycle| > 1 && cycle[0] == cycle[|cycle| - 1];
  }

  lemma ReachedCycleIsCycle(tasks: seq<WorkerTask>, i: nat)
    requires ReachesCycle(tasks, i)
    ensures Cyclic(tasks)
  {
    var p :| Chain(tasks, p) && p[0] == i && Repeats(p);
    var a, b :| 0 <= a < b < |p| && p[a] == p[b];
    RepeatIsCycle(tasks, p, a, b);
  }

  /** There is a fallback stage iff the dependency graph has a cycle, and it is the last stage. */
  lemma FallbackIffCyclic(tasks: seq<WorkerTask>, stages: seq<seq<nat>>)
    requires IsStaging(tasks, stages) && DistinctIds(tasks)
    ensures Fallback(tasks, stages) != {} <==> Cyclic(tasks)
    ensures forall k :: 0 <= k < |stages| && FallbackStage(tasks, stages, k) ==>
      k == |stages| - 1 && Fallback(tasks, stages) == set i | i in stages[k]
  {
    if i :| i in Fallback(tasks, stages) {
      FallbackIsTask(tasks, stages, i);
      FallbackIsCycleReaching(tasks, stages, i);
      ReachedCycleIsCycle(tasks, i);
    }
    if Cyclic(tasks) {
      var p :| Chain(tasks, p) && |p| > 1 && p[0] == p[|p| - 1];
      assert Repeats(p);
      FallbackIsCycleReaching(tasks, stages, p[0]);
    }
  }

  lemma FallbackIsTask(tasks: seq<WorkerTask>, stages: seq<seq<nat>>, i: nat)
    requires IsStaging(tasks, stages) && i in Fallback(tasks, stages)
    ensures i < |tasks|
  {
    assert WellFormedStage(tasks, stages, |stages| - 1);
  }
}
