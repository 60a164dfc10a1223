// The stages are determined by the tasks: the contract of the partition method admits one result.
module StagingUniqueness {
  import opened Staging
  import opened StagingTheorems

  lemma EmptyOrInhabited(s: seq<nat>)
    ensures s == [] || exists i :: i in s
  {
    if s != [] {
      assert s[0] in s;
    }
  }

  lemma LastIsGreatest(s: seq<nat>)
    requires Increasing(s) && s != []
    ensures forall i :: i in s ==> i <= s[|s| - 1]
    ensures forall i :: i in s[..|s| - 1] <==> i in s && i != s[|s| - 1]
  {
    assert s == s[..|s| - 1] + [s[|s| - 1]];
  }

  lemma {:induction false} IncreasingIsDetermined(a: seq<nat>, b: seq<nat>)
    requires Increasing(a) && Increasing(b)
    requires forall i :: i in a <==> i in b
    ensures a == b
  {
    EmptyOrInhabited(a);
    EmptyOrInhabited(b);
    if a != [] && b != [] {
      var x, y := a[|a| - 1], b[|b| - 1];
      LastIsGreatest(a);
      LastIsGreatest(b);
      assert x in a && y in b;
      assert x == y;
      var a', b' := a[..|a| - 1], b[..|b| - 1];
      forall i: nat
        ensures i in a' <==> i in b'
      {
        assert i in a' <==> i in a && i != x;
        assert i in b' <==> i in b && i != x;
      }
      IncreasingIsDetermined(a', b');
      assert a == a' + [x] && b == b' + [x];
    }
  }

  lemma {:induction false} SamePrefix(tasks: seq<WorkerTask>, a: seq<seq<nat>>, b: seq<seq<nat>>, k: nat)
    requires IsStaging(tasks, a) && IsStaging(tasks, b)
    requires k <= |a| && k <= |b|
    ensures a[..k] == b[..k]
  {
    if k > 0 {
      SamePrefix(tasks, a, b, k - 1);
      var m := k - 1;
      assert Placed(a, m) == Placed(b, m) by {
        PlacedPrefix(a, m);
        PlacedPrefix(b, m);
      }
      SameStage(tasks, a, b, m);
      assert a[..k] == a[..m] + [a[m]] && b[..k] == b[..m] + [b[m]];
    }
  }

  lemma SameStage(tasks: seq<WorkerTask>, a: seq<seq<nat>>, b: seq<seq<nat>>, m: nat)
    requires IsStaging(tasks, a) && IsStaging(tasks, b)
    requires m < |a| && m < |b| && Placed(a, m) == Placed(b, m)
    ensures a[m] == b[m]
  {
    assert WellFormedStage(tasks, a, m) && WellFormedStage(tasks, b, m);
    StageByReadiness(tasks, a, m);
    StageByReadiness(tasks, b, m);
    IncreasingIsDetermined(a[m], b[m]);
  }

  lemma UnplacedInLastStage(tasks: seq<WorkerTask>, stages: seq<seq<nat>>, i: nat)
    requires IsStaging(tasks, stages) && stages != []
    requires i < |tasks| && i !in Placed(stages, |stages| - 1)
    ensures i in stages[|stages| - 1]
  {
    var k := EveryTaskRunsOrIsFallback(tasks, stages, i);
  }

  lemma NormalStageHasReady(tasks: seq<WorkerTask>, stages: seq<seq<nat>>, m: nat)
    requires IsStaging(tasks, stages) && m < |stages| && NormalStage(tasks, stages, m)
    ensures AnyReady(tasks, Placed(stages, m))
  {
    assert WellFormedStage(tasks, stages, m);
    var i := stages[m][0];
    assert i in stages[m];
  }

  /** A stage is determined by what was placed before: the ready tasks, or all tasks left. */
  lemma StageByReadiness(tasks: seq<WorkerTask>, stages: seq<seq<nat>>, m: nat)
    requires IsStaging(tasks, stages) && m < |stages|
    ensures forall i: nat :: i in stages[m] <==>
      && i < |tasks| && i !in Placed(stages, m)
      && (AnyReady(tasks, Placed(stages, m)) ==> Ready(tasks, i, IdsOf(tasks, Placed(stages, m))))
  {
    assert WellFormedStage(tasks, stages, m);
    if FallbackStage(tasks, stages, m) {
      assert !AnyReady(tasks, Placed(stages, m));
      forall i: nat | i < |tasks| && i !in Placed(stages, m)
        ensures i in stages[m]
      {
        UnplacedInLastStage(tasks, stages, i);
      }
    } else {
      NormalStageHasReady(tasks, stages, m);
    }
  }

  ghost predicate AnyReady(tasks: seq<WorkerTask>, before: set<nat>) {
    exists i: nat :: i < |tasks| && i !in before && Ready(tasks, i, IdsOf(tasks, before))
  }

  /** The contract of the partition method admits exactly one result. */
  lemma StagingIsUnique(tasks: seq<WorkerTask>, a: seq<seq<nat>>, b: seq<seq<nat>>)
    requires IsStaging(tasks, a) && IsStaging(tasks, b)
    ensures a == b
  {
    var k := if |a| <= |b| then |a| else |b|;
    SamePrefix(tasks, a, b, k);
    NothingLeft(tasks, a, b);
    NothingLeft(tasks, b, a);
    assert a[..k] == a && b[..k] == b;
  }

  lemma NothingLeft(tasks: seq<WorkerTask>, a: seq<seq<nat>>, b: seq<seq<nat>>)
    requires IsStaging(tasks, a) && IsStaging(tasks, b)
    ensures |a| >= |b|
  {
    if |a| < |b| {
      SamePrefix(tasks, a, b, |a|);
      PlacedPrefix(a, |a|);
      PlacedPrefix(b, |a|);
      StageIsNew(tasks, b, |a|);
      assert false;
    }
  }

  lemma StageIsNew(tasks: seq<WorkerTask>, stages: seq<seq<nat>>, k: nat)
    requires IsStaging(tasks, stages) && k < |stages|
    ensures exists i: nat :: i < |tasks| && i !in Placed(stages, k)
  {
    assert WellFormedStage(tasks, stages, k);
    assert stages[k][0] in stages[k];
  }
}
