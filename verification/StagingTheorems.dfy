// What a staging guarantees: it is a permutation of the tasks, every task runs after providers of
// its dependencies and as early as any schedule allows, and the fallback stage holds exactly the
// tasks no schedule can run.
module StagingTheorems {
  import opened Text
  import opened Staging

  lemma InStageIsPlaced(stages: seq<seq<nat>>, i: nat, m: nat, k: nat)
    requires m < k <= |stages| && i in stages[m]
    ensures i in Placed(stages, k)
  {
    var p :| 0 <= p < |stages[m]| && stages[m][p] == i;
  }

  lemma StageOf(stages: seq<seq<nat>>, i: nat, k: nat) returns (m: nat)
    requires k <= |stages| && i in Placed(stages, k)
    ensures m < k && i in stages[m]
  {
    var m', p :| 0 <= m' < k && 0 <= p < |stages[m']| && stages[m'][p] == i;
    m := m';
  }

  lemma PlacedAreTasks(tasks: seq<WorkerTask>, stages: seq<seq<nat>>)
    requires IsStaging(tasks, stages)
    ensures forall i :: i in Placed(stages, |stages|) ==> i < |tasks|
  {
    forall i | i in Placed(stages, |stages|)
      ensures i < |tasks|
    {
      var m := StageOf(stages, i, |stages|);
      assert WellFormedStage(tasks, stages, m);
    }
  }

  lemma StageIsUnique(tasks: seq<WorkerTask>, stages: seq<seq<nat>>, i: nat, m: nat, k: nat)
    requires IsStaging(tasks, stages)
    requires m < |stages| && k < |stages| && i in stages[m] && i in stages[k]
    ensures m == k
  {
    assert WellFormedStage(tasks, stages, m) && WellFormedStage(tasks, stages, k);
    if m < k {
      InStageIsPlaced(stages, i, m, k);
    } else if k < m {
      InStageIsPlaced(stages, i, k, m);
    }
  }

  // ---------------------------------------------------------------- permutation

  function Flatten(stages: seq<seq<nat>>): seq<nat> {
    if stages == [] then [] else Flatten(stages[..|stages| - 1]) + stages[|stages| - 1]
  }

  lemma IncreasingMultiset(s: seq<nat>)
    requires Increasing(s)
    ensures forall i: nat :: multiset(s)[i] == if i in s then 1 else 0
  {
    if s != [] {
      var front, last := s[..|s| - 1], s[|s| - 1];
      IncreasingMultiset(front);
      assert s == front + [last];
      assert last !in front;
    }
  }

  lemma {:induction false} FlattenCountsOnce(tasks: seq<WorkerTask>, stages: seq<seq<nat>>, k: nat)
    requires k <= |stages|
    requires forall m :: 0 <= m < |stages| ==> WellFormedStage(tasks, stages, m)
    ensures forall i: nat ::
      multiset(Flatten(stages[..k]))[i] == if i in Placed(stages, k) then 1 else 0
  {
    if k == 0 {
      assert Flatten(stages[..0]) == [];
    } else {
      FlattenCountsOnce(tasks, stages, k - 1);
      assert WellFormedStage(tasks, stages, k - 1);
      IncreasingMultiset(stages[k - 1]);
      assert stages[..k][..k - 1] == stages[..k - 1];
      PlacedSnoc(stages[..k - 1], stages[k - 1]);
      assert stages[..k - 1] + [stages[k - 1]] == stages[..k];
      PlacedPrefix(stages, k);
      PlacedPrefix(stages, k - 1);
    }
  }

  lemma PlacedPrefix(stages: seq<seq<nat>>, k: nat)
    requires k <= |stages|
    ensures Placed(stages[..k], k) == Placed(stages, k)
  {
    assert forall m :: 0 <= m < k ==> stages[..k][m] == stages[m];
  }

  function AllTasks(n: nat): seq<nat> {
    seq(n, i => i)
  }

  lemma AllTasksOnce(n: nat)
    ensures forall i: nat :: multiset(AllTasks(n))[i] == if i < n then 1 else 0
  {
    IncreasingMultiset(AllTasks(n));
    forall i: nat
      ensures i in AllTasks(n) <==> i < n
    {
      if i < n {
        assert AllTasks(n)[i] == i;
      }
    }
  }

  /** Running the stages in order runs every task exactly once. */
  lemma StagesArePermutation(tasks: seq<WorkerTask>, stages: seq<seq<nat>>)
    requires IsStaging(tasks, stages)
    ensures multiset(Flatten(stages)) == multiset(AllTasks(|tasks|))
  {
    FlattenCountsOnce(tasks, stages, |stages|);
    assert stages[..|stages|] == stages;
    AllTasksOnce(|tasks|);
    PlacedAreTasks(tasks, stages);
    assert forall i: nat :: multiset(Flatten(stages))[i] == multiset(AllTasks(|tasks|))[i];
  }

  // ---------------------------------------------------------------- order of dependencies

  /** Task `i` runs in stage `k`, which is not the fallback. */
  ghost predicate RunsAt(tasks: seq<WorkerTask>, stages: seq<seq<nat>>, i: nat, k: nat) {
    k < |stages| && i in stages[k] && !FallbackStage(tasks, stages, k)
  }

  lemma OnlyLastIsFallback(tasks: seq<WorkerTask>, stages: seq<seq<nat>>, k: nat)
    requires IsStaging(tasks, stages) && k < |stages|
    ensures k < |stages| - 1 ==> NormalStage(tasks, stages, k) && !FallbackStage(tasks, stages, k)
  {
  }

  lemma RunsAtIsReady(tasks: seq<WorkerTask>, stages: seq<seq<nat>>, i: nat, k: nat)
    requires IsStaging(tasks, stages) && RunsAt(tasks, stages, i, k)
    ensures i < |tasks| && Ready(tasks, i, IdsOf(tasks, Placed(stages, k)))
  {
    assert WellFormedStage(tasks, stages, k);
    assert NormalStage(tasks, stages, k);
  }

  /** Every id a task has to wait for is provided by a task of a strictly earlier stage. */
  lemma DependenciesRunEarlier(tasks: seq<WorkerTask>, stages: seq<seq<nat>>, i: nat, k: nat, d: string)
    returns (j: nat, m: nat)
    requires IsStaging(tasks, stages)
    requires RunsAt(tasks, stages, i, k) && Needs(tasks, i, d)
    ensures Provides(tasks, j, d) && m < k && RunsAt(tasks, stages, j, m)
  {
    RunsAtIsReady(tasks, stages, i, k);
    j :| j in Placed(stages, k) && j < |tasks| && Trim(tasks[j].id) == d;
    m := StageOf(stages, j, k);
    OnlyLastIsFallback(tasks, stages, m);
  }

  // ---------------------------------------------------------------- the fallback stage

  /** Every task of `s` waits for some id whose providers are all in `s`. */
  ghost predicate Deadlocked(tasks: seq<WorkerTask>, s: set<nat>) {
    forall i :: i in s ==> StuckOn(tasks, i, s)
  }

  ghost predicate StuckOn(tasks: seq<WorkerTask>, i: nat, s: set<nat>) {
    exists d :: Needs(tasks, i, d) && forall j :: Provides(tasks, j, d) ==> j in s
  }

  lemma EveryTaskRunsOrIsFallback(tasks: seq<WorkerTask>, stages: seq<seq<nat>>, i: nat) returns (k: nat)
    requires IsStaging(tasks, stages) && i < |tasks|
    ensures k < |stages| && i in stages[k]
    ensures i in Fallback(tasks, stages) <==> FallbackStage(tasks, stages, k)
    ensures i in Fallback(tasks, stages) <==> !RunsAt(tasks, stages, i, k)
  {
    k := StageOf(stages, i, |stages|);
    if i in Fallback(tasks, stages) {
      var k' :| 0 <= k' < |stages| && FallbackStage(tasks, stages, k') && i in stages[k'];
      StageIsUnique(tasks, stages, i, k, k');
    }
  }

  /** No member of a deadlocked set is ever ready. */
  lemma {:induction false} DeadlockedNeverRuns(tasks: seq<WorkerTask>, stages: seq<seq<nat>>, s: set<nat>, i: nat, k: nat)
    requires IsStaging(tasks, stages) && Deadlocked(tasks, s) && i in s
    ensures !RunsAt(tasks, stages, i, k)
    decreases k
  {
    if RunsAt(tasks, stages, i, k) {
      assert StuckOn(tasks, i, s);
      var d :| Needs(tasks, i, d) && forall j :: Provides(tasks, j, d) ==> j in s;
      var j, m := DependenciesRunEarlier(tasks, stages, i, k, d);
      DeadlockedNeverRuns(tasks, stages, s, j, m);
    }
  }

  lemma UnplacedIsFallback(tasks: seq<WorkerTask>, stages: seq<seq<nat>>, j: nat, k: nat)
    requires IsStaging(tasks, stages) && k < |stages| && FallbackStage(tasks, stages, k)
    requires j < |tasks| && Trim(tasks[j].id) !in IdsOf(tasks, Placed(stages, k))
    ensures j in Fallback(tasks, stages)
  {
    var m := EveryTaskRunsOrIsFallback(tasks, stages, j);
  }

  lemma FallbackIsWaiting(tasks: seq<WorkerTask>, stages: seq<seq<nat>>, i: nat) returns (d: string)
    requires IsStaging(tasks, stages) && i in Fallback(tasks, stages)
    ensures |stages| > 0 && FallbackStage(tasks, stages, |stages| - 1)
    ensures Needs(tasks, i, d) && d !in IdsOf(tasks, Placed(stages, |stages| - 1))
  {
    var last := |stages| - 1;
    assert WellFormedStage(tasks, stages, last);
    assert !Ready(tasks, i, IdsOf(tasks, Placed(stages, last)));
    d :| Needs(tasks, i, d) && d !in IdsOf(tasks, Placed(stages, last));
  }

  /** A fallback task waits for an id that only fallback tasks provide. */
  lemma FallbackIsStuck(tasks: seq<WorkerTask>, stages: seq<seq<nat>>, i: nat)
    requires IsStaging(tasks, stages) && i in Fallback(tasks, stages)
    ensures StuckOn(tasks, i, Fallback(tasks, stages))
  {
    var d := FallbackIsWaiting(tasks, stages, i);
    forall j | Provides(tasks, j, d)
      ensures j in Fallback(tasks, stages)
    {
      UnplacedIsFallback(tasks, stages, j, |stages| - 1);
    }
  }

  /** The fallback stage is the greatest deadlocked set of tasks. */
  lemma FallbackIsGreatestDeadlock(tasks: seq<WorkerTask>, stages: seq<seq<nat>>)
    requires IsStaging(tasks, stages)
    ensures Deadlocked(tasks, Fallback(tasks, stages))
    ensures forall s :: Deadlocked(tasks, s) ==> s <= Fallback(tasks, stages)
  {
    forall i | i in Fallback(tasks, stages)
      ensures StuckOn(tasks, i, Fallback(tasks, stages))
    {
      FallbackIsStuck(tasks, stages, i);
    }
    forall s, i | Deadlocked(tasks, s) && i in s
      ensures i in Fallback(tasks, stages)
    {
      assert StuckOn(tasks, i, s);
      var k := EveryTaskRunsOrIsFallback(tasks, stages, i);
      DeadlockedNeverRuns(tasks, stages, s, i, k);
    }
  }

  // ---------------------------------------------------------------- no schedule is better

  /**
   * A schedule gives some tasks a time so that, for each id a scheduled task waits for, some
   * provider is scheduled strictly earlier.
   */
  ghost predicate IsSchedule(tasks: seq<WorkerTask>, when: map<nat, nat>) {
    forall i, d :: i in when && Needs(tasks, i, d) ==> ProvidedEarlier(tasks, when, i, d)
  }

  ghost predicate ProvidedEarlier(tasks: seq<WorkerTask>, when: map<nat, nat>, i: nat, d: string)
    requires i in when
  {
    exists j :: j in when && Provides(tasks, j, d) && when[j] < when[i]
  }

  /** A task ready after the stages before `w` runs at `w` or before. */
  lemma ReadyRunsByThen(tasks: seq<WorkerTask>, stages: seq<seq<nat>>, i: nat, w: nat) returns (k: nat)
    requires IsStaging(tasks, stages) && i < |tasks|
    requires forall d :: Needs(tasks, i, d) ==> RunsBefore(tasks, stages, d, w)
    ensures k <= w && RunsAt(tasks, stages, i, k)
  {
    k := EveryTaskRunsOrIsFallback(tasks, stages, i);
    var now := if k <= w then k else w;
    if now < k || FallbackStage(tasks, stages, k) {
      OnlyLastIsFallback(tasks, stages, now);
      ReadyBy(tasks, stages, i, w, now);
      if i in Placed(stages, now) {
        var m := StageOf(stages, i, now);
        StageIsUnique(tasks, stages, i, m, k);
      } else if now < k {
        StageIsUnique(tasks, stages, i, now, k);
      }
    }
  }

  /** What it waits for runs before `w`, and no stage before the fallback runs later than `now`. */
  lemma ReadyBy(tasks: seq<WorkerTask>, stages: seq<seq<nat>>, i: nat, w: nat, now: nat)
    requires IsStaging(tasks, stages) && i < |tasks| && now <= w && now < |stages|
    requires now == w || FallbackStage(tasks, stages, now)
    requires forall d :: Needs(tasks, i, d) ==> RunsBefore(tasks, stages, d, w)
    ensures Ready(tasks, i, IdsOf(tasks, Placed(stages, now)))
  {
    forall d | Needs(tasks, i, d)
      ensures d in IdsOf(tasks, Placed(stages, now))
    {
      assert RunsBefore(tasks, stages, d, w);
      var j: nat, m: nat :| m < w && Provides(tasks, j, d) && RunsAt(tasks, stages, j, m);
      RunsBeforeFallback(tasks, stages, j, m, now, w);
      InStageIsPlaced(stages, j, m, now);
    }
  }

  lemma RunsBeforeFallback(tasks: seq<WorkerTask>, stages: seq<seq<nat>>, j: nat, m: nat, now: nat, w: nat)
    requires IsStaging(tasks, stages) && RunsAt(tasks, stages, j, m) && m < w && now < |stages|
    requires now == w || FallbackStage(tasks, stages, now)
    ensures m < now
  {
    if now != w {
      OnlyLastIsFallback(tasks, stages, now);
    }
  }

  ghost predicate RunsBefore(tasks: seq<WorkerTask>, stages: seq<seq<nat>>, d: string, w: nat) {
    exists j: nat, m: nat :: m < w && Provides(tasks, j, d) && RunsAt(tasks, stages, j, m)
  }

  /** A task that some schedule can run is not in the fallback and runs no later than scheduled. */
  lemma {:induction false} NoScheduleIsEarlier(tasks: seq<WorkerTask>, stages: seq<seq<nat>>, when: map<nat, nat>, i: nat)
    returns (k: nat)
    requires IsStaging(tasks, stages) && IsSchedule(tasks, when)
    requires i in when && i < |tasks|
    ensures k <= when[i] && RunsAt(tasks, stages, i, k)
    decreases when[i]
  {
    forall d | Needs(tasks, i, d)
      ensures RunsBefore(tasks, stages, d, when[i])
    {
      assert ProvidedEarlier(tasks, when, i, d);
      var j :| j in when && Provides(tasks, j, d) && when[j] < when[i];
      var m := NoScheduleIsEarlier(tasks, stages, when, j);
    }
    k := ReadyRunsByThen(tasks, stages, i, when[i]);
  }

  /** The stage number of every task outside the fallback. */
  ghost function StageNumbers(tasks: seq<WorkerTask>, stages: seq<seq<nat>>): (when: map<nat, nat>)
    requires IsStaging(tasks, stages)
    ensures forall i: nat, k: nat :: RunsAt(tasks, stages, i, k) ==> i in when && when[i] == k
    ensures forall i :: i in when ==> i < |tasks| && RunsAt(tasks, stages, i, when[i])
  {
    var placed := set i | i in Placed(stages, |stages|) && i !in Fallback(tasks, stages);
    assert forall i: nat, k: nat :: RunsAt(tasks, stages, i, k) ==> i in placed && StageIndex(tasks, stages, i) == k by {
      forall i: nat, k: nat | RunsAt(tasks, stages, i, k)
        ensures i in placed && StageIndex(tasks, stages, i) == k
      {
        InStageIsPlaced(stages, i, k, |stages|);
        assert WellFormedStage(tasks, stages, k);
        var k' := EveryTaskRunsOrIsFallback(tasks, stages, i);
        StageIsUnique(tasks, stages, i, k, k');
        StageIsUnique(tasks, stages, i, k, StageIndex(tasks, stages, i));
      }
    }
    assert forall i :: i in placed ==> i < |tasks| && RunsAt(tasks, stages, i, StageIndex(tasks, stages, i)) by {
      PlacedAreTasks(tasks, stages);
    }
    map i | i in placed :: StageIndex(tasks, stages, i)
  }

  ghost function StageIndex(tasks: seq<WorkerTask>, stages: seq<seq<nat>>, i: nat): (k: nat)
    requires IsStaging(tasks, stages) && i in Placed(stages, |stages|)
    ensures k < |stages| && i in stages[k]
  {
    var k, p :| 0 <= k < |stages| && 0 <= p < |stages[k]| && stages[k][p] == i;
    k
  }

  /** The staging is itself a schedule, so it is the least one, on the greatest set of tasks. */
  lemma StagingIsLeastSchedule(tasks: seq<WorkerTask>, stages: seq<seq<nat>>)
    requires IsStaging(tasks, stages)
    ensures var mine := StageNumbers(tasks, stages);
      && IsSchedule(tasks, mine)
      && (forall i :: 0 <= i < |tasks| ==> (i in mine <==> i !in Fallback(tasks, stages)))
      && forall when, i :: IsSchedule(tasks, when) && i in when && i < |tasks| ==>
           i in mine && mine[i] <= when[i]
  {
    var mine := StageNumbers(tasks, stages);
    forall i, d | i in mine && Needs(tasks, i, d)
      ensures ProvidedEarlier(tasks, mine, i, d)
    {
      var j, m := DependenciesRunEarlier(tasks, stages, i, mine[i], d);
    }
    forall i | 0 <= i < |tasks|
      ensures i in mine <==> i !in Fallback(tasks, stages)
    {
      var k := EveryTaskRunsOrIsFallback(tasks, stages, i);
      if i in mine {
        StageIsUnique(tasks, stages, i, k, mine[i]);
      }
    }
    forall when, i | IsSchedule(tasks, when) && i in when && i < |tasks|
      ensures i in mine && mine[i] <= when[i]
    {
      var k := NoScheduleIsEarlier(tasks, stages, when, i);
    }
  }

  /** When nothing deadlocks, no schedule of all the tasks ends sooner. */
  lemma StageCountIsMinimal(tasks: seq<WorkerTask>, stages: seq<seq<nat>>, when: map<nat, nat>)
    requires IsStaging(tasks, stages) && Fallback(tasks, stages) == {}
    requires IsSchedule(tasks, when) && forall i :: 0 <= i < |tasks| ==> i in when
    ensures tasks == [] <==> stages == []
    ensures tasks != [] ==> exists i :: 0 <= i < |tasks| && |stages| <= when[i] + 1
  {
    if tasks != [] {
      var k0 := EveryTaskRunsOrIsFallback(tasks, stages, 0);
    }
    if stages != [] {
      var last := |stages| - 1;
      assert WellFormedStage(tasks, stages, last);
      var i := stages[last][0];
      assert i in stages[last];
      var k := NoScheduleIsEarlier(tasks, stages, when, i);
      StageIsUnique(tasks, stages, i, k, last);
    }
  }
}
