// The signals of agent runs that go on at the same time.
module AgentReports {
  import opened AgentRuns
  import opened Candidates

  function Sents(reports: seq<Report>): (parts: seq<seq<Signal>>)
    ensures |parts| == |reports|
  {
    seq(|reports|, k requires 0 <= k < |reports| => reports[k].sent)
  }

  function TotalInterruptions(reports: seq<Report>): (total: nat)
    ensures total == 0 <==> forall k :: 0 <= k < |reports| ==> reports[k].interruptions == 0
  {
    if reports == [] then 0 else reports[0].interruptions + TotalInterruptions(reports[1..])
  }

  // ---------------------------------------------------------------- concurrent runs

  function Concat(parts: seq<seq<Signal>>): seq<Signal> {
    if parts == [] then [] else parts[0] + Concat(parts[1..])
  }

  /**
   * The signals of concurrent runs on one channel: `schedule` names, step by step, the run that sends
   * next, and what is left at its end is sent run by run.
   */
  function Interleave(parts: seq<seq<Signal>>, schedule: seq<nat>): seq<Signal>
    decreases |schedule|
  {
    if schedule == [] then Concat(parts)
    else
      var k := schedule[0];
      if k < |parts| && parts[k] != [] then [parts[k][0]] + Interleave(parts[k := parts[k][1..]], schedule[1..])
      else Interleave(parts, schedule[1..])
  }

  /** `all` takes every signal of the parts, and those of one part in their order. */
  ghost predicate IsInterleaving(parts: seq<seq<Signal>>, all: seq<Signal>)
    decreases |all|
  {
    if all == [] then Concat(parts) == []
    else exists k: nat :: k < |parts| && NextIs(parts, k, all[0]) && IsInterleaving(Advanced(parts, k), all[1..])
  }

  predicate NextIs(parts: seq<seq<Signal>>, k: nat, signal: Signal)
    requires k < |parts|
  {
    parts[k] != [] && parts[k][0] == signal
  }

  function Advanced(parts: seq<seq<Signal>>, k: nat): seq<seq<Signal>>
    requires k < |parts| && parts[k] != []
  {
    parts[k := parts[k][1..]]
  }

  lemma {:induction false} ConcatTakes(parts: seq<seq<Signal>>) returns (k: nat)
    requires Concat(parts) != []
    ensures k < |parts| && NextIs(parts, k, Concat(parts)[0]) && Concat(Advanced(parts, k)) == Concat(parts)[1..]
  {
    if parts[0] != [] {
      k := 0;
      assert Advanced(parts, 0)[1..] == parts[1..];
    } else {
      k := ConcatTakes(parts[1..]);
      k := k + 1;
      assert Advanced(parts, k)[1..] == Advanced(parts[1..], k - 1);
    }
  }

  lemma {:induction false} ConcatInterleaves(parts: seq<seq<Signal>>)
    ensures IsInterleaving(parts, Concat(parts))
    decreases |Concat(parts)|
  {
    if Concat(parts) != [] {
      var k := ConcatTakes(parts);
      ConcatInterleaves(Advanced(parts, k));
    }
  }

  /** Every schedule gives an order the runs could take. */
  lemma {:induction false} InterleaveIsInterleaving(parts: seq<seq<Signal>>, schedule: seq<nat>)
    ensures IsInterleaving(parts, Interleave(parts, schedule))
    decreases |schedule|
  {
    if schedule == [] {
      ConcatInterleaves(parts);
    } else {
      var k := schedule[0];
      if k < |parts| && parts[k] != [] {
        InterleaveIsInterleaving(Advanced(parts, k), schedule[1..]);
        var rest := Interleave(Advanced(parts, k), schedule[1..]);
        assert Interleave(parts, schedule) == [parts[k][0]] + rest;
        assert ([parts[k][0]] + rest)[1..] == rest;
      } else {
        InterleaveIsInterleaving(parts, schedule[1..]);
      }
    }
  }

  /** Every order the runs could take is some schedule's. */
  lemma {:induction false} EveryInterleavingIsScheduled(parts: seq<seq<Signal>>, all: seq<Signal>)
    returns (schedule: seq<nat>)
    requires IsInterleaving(parts, all)
    ensures Interleave(parts, schedule) == all
    decreases |all|
  {
    if all == [] {
      schedule := [];
    } else {
      var k: nat :| k < |parts| && NextIs(parts, k, all[0]) && IsInterleaving(Advanced(parts, k), all[1..]);
      var rest := EveryInterleavingIsScheduled(Advanced(parts, k), all[1..]);
      schedule := [k] + rest;
      assert schedule[1..] == rest;
    }
  }

  function DoneCounts(parts: seq<seq<Signal>>): nat {
    if parts == [] then 0 else AgentDoneCount(parts[0]) + DoneCounts(parts[1..])
  }

  lemma {:induction false} ConcatCounts(parts: seq<seq<Signal>>)
    ensures AgentDoneCount(Concat(parts)) == DoneCounts(parts)
  {
    if parts != [] {
      ConcatCounts(parts[1..]);
      AgentDoneConcat(parts[0], Concat(parts[1..]));
    }
  }

  lemma FirstCounts(signals: seq<Signal>)
    requires signals != []
    ensures AgentDoneCount(signals) == AgentDoneCount([signals[0]]) + AgentDoneCount(signals[1..])
  {
    assert signals == [signals[0]] + signals[1..];
    AgentDoneConcat([signals[0]], signals[1..]);
  }

  lemma {:induction false} HeadCounts(parts: seq<seq<Signal>>, k: nat)
    requires k < |parts| && parts[k] != []
    ensures DoneCounts(parts) == AgentDoneCount([parts[k][0]]) + DoneCounts(parts[k := parts[k][1..]])
  {
    FirstCounts(parts[k]);
    var rest := parts[k := parts[k][1..]];
    if k == 0 {
      assert rest[1..] == parts[1..];
    } else {
      HeadCounts(parts[1..], k - 1);
      assert rest[1..] == parts[1..][k - 1 := parts[k][1..]];
    }
  }

  /** Interleaving loses and adds no done event. */
  lemma {:induction false} InterleaveCounts(parts: seq<seq<Signal>>, schedule: seq<nat>)
    ensures AgentDoneCount(Interleave(parts, schedule)) == DoneCounts(parts)
    decreases |schedule|
  {
    if schedule == [] {
      ConcatCounts(parts);
    } else {
      var k := schedule[0];
      if k < |parts| && parts[k] != [] {
        var rest := parts[k := parts[k][1..]];
        InterleaveCounts(rest, schedule[1..]);
        AgentDoneConcat([parts[k][0]], Interleave(rest, schedule[1..]));
        HeadCounts(parts, k);
      } else {
        InterleaveCounts(parts, schedule[1..]);
      }
    }
  }

  lemma {:induction false} ReportsCount(reports: seq<Report>)
    requires forall k :: 0 <= k < |reports| ==> AgentDoneCount(reports[k].sent) == reports[k].interruptions
    ensures DoneCounts(Sents(reports)) == TotalInterruptions(reports)
  {
    if reports != [] {
      ReportsCount(reports[1..]);
      assert Sents(reports)[1..] == Sents(reports[1..]);
    }
  }

  /** Concurrent runs put one done event under the workflow's id on the channel per interrupted attempt. */
  lemma OwnEndsOfGroup(reports: seq<Report>, schedule: seq<nat>)
    requires forall k :: 0 <= k < |reports| ==> IsReport(reports[k])
    ensures AgentDoneCount(Interleave(Sents(reports), schedule)) == TotalInterruptions(reports)
  {
    InterleaveCounts(Sents(reports), schedule);
    forall k | 0 <= k < |reports|
      ensures AgentDoneCount(reports[k].sent) == reports[k].interruptions
    {
      OwnEndsOfReport(reports[k]);
    }
    ReportsCount(reports);
  }
}
