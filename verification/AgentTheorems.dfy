// What holds for every run of the agent loop, whatever the provider, the tools and the cancel token
// do: the histories sent are well paired, there is one last event, and the repeat check is exact.
module AgentTheorems {
  import opened Text
  import opened Context
  import opened CompactionTheorems
  import opened ToolPairing
  import opened AgentLoop
  import opened StreamLaws

  // ---------------------------------------------------------------- the run is determined

  lemma {:induction false} SameTurns(cfg: Config, world: World, first: History, a: seq<Turn>, b: seq<Turn>, k: nat)
    requires AreTurns(cfg, world, first, a) && AreTurns(cfg, world, first, b)
    requires k < |a| && k < |b|
    ensures a[k] == b[k]
  {
    assert IsTurn(cfg, world, first, a, k) && IsTurn(cfg, world, first, b, k);
    if k > 0 {
      SameTurns(cfg, world, first, a, b, k - 1);
    }
  }

  lemma TurnBeforeLastContinues(cfg: Config, world: World, first: History, turns: seq<Turn>, k: nat)
    requires AreTurns(cfg, world, first, turns) && k + 1 < |turns|
    ensures turns[k].end == Continues(turns[k + 1].history, turns[k + 1].log)
  {
    assert IsTurn(cfg, world, first, turns, k + 1);
  }

  /** For one world, the loop has exactly one run. */
  lemma RunIsUnique(cfg: Config, world: World, first: History, a: seq<Turn>, b: seq<Turn>)
    requires IsRun(cfg, world, first, a) && IsRun(cfg, world, first, b)
    ensures a == b
  {
    forall k | 0 <= k < |a| && k < |b|
      ensures a[k] == b[k]
    {
      SameTurns(cfg, world, first, a, b, k);
    }
    if |a| < |b| {
      TurnBeforeLastContinues(cfg, world, first, b, |a| - 1);
    } else if |b| < |a| {
      TurnBeforeLastContinues(cfg, world, first, a, |b| - 1);
    }
  }

  // ---------------------------------------------------------------- what the provider is sent

  /** What one more call adds. */
  lemma StepAdds(cfg: Config, before: Execution, call: ToolCall, result: ToolResult)
    requires before.aborted.None?
    ensures var after, entry :=
        ExecuteStep(cfg, before, call, result), Executed(FailureKey(call), result.isError);
      && after.events == before.events + [ToolFinished(call.id, result.isError)]
      && after.log == before.log + [entry]
      && (after.aborted.Some? <==> Aborts(cfg, after.log))
      && (after.aborted.Some? ==> after.aborted.value.Done? && after.aborted.value.status == StatusAbortedRepeat)
  {
  }

  lemma StepAnswers(cfg: Config, before: Execution, call: ToolCall, result: ToolResult)
    requires before.aborted.None? && ExecuteStep(cfg, before, call, result).aborted.None?
    ensures exists content ::
      ExecuteStep(cfg, before, call, result).results == before.results + [ToolMessage(call.id, content)]
  {
  }

  /** If the repeat check did not fire, the results answer the calls one by one. */
  lemma {:induction false} ExecutedResults(cfg: Config, world: World, t: nat, calls: seq<ToolCall>, k: nat, log: seq<Executed>)
    requires k <= |calls| && Execute(cfg, world, t, calls, k, log).aborted.None?
    ensures AreResults(Execute(cfg, world, t, calls, k, log).results, calls[..k])
  {
    if k > 0 {
      var before := Execute(cfg, world, t, calls, k - 1, log);
      ExecutedResults(cfg, world, t, calls, k - 1, log);
      StepAnswers(cfg, before, calls[k - 1], (world.tool)(t, k - 1));
      var after := Execute(cfg, world, t, calls, k, log).results;
      assert after == before.results + [after[|before.results|]];
      OneMoreAnswer(before.results, after, calls, k);
    }
  }

  lemma OneMoreAnswer(before: History, after: History, calls: seq<ToolCall>, k: nat)
    requires 0 < k <= |calls| && AreResults(before, calls[..k - 1])
    requires |after| == k && after[..k - 1] == before
    requires after[k - 1].role.Tool? && after[k - 1].toolCallId == Some(calls[k - 1].id)
    ensures AreResults(after, calls[..k])
  {
  }

  /** The history after a turn that goes on: the request, the assistant message, its results. */
  lemma ContinuedHistory(cfg: Config, world: World, t: nat, history: History, log: seq<Executed>)
    returns (results: History)
    requires TakeTurn(cfg, world, t, history, log).end.Continues?
    ensures var turn := TakeTurn(cfg, world, t, history, log);
      && results == ResultsOf(cfg, world, t, turn)
      && AreResults(results, turn.calls) && turn.calls != []
      && turn.request == Some(Compacted(cfg.budget, history)) && Count(history) <= cfg.hardLimit
      && turn.end.history == Compacted(cfg.budget, history) + [AssistantMessage(turn.text, turn.calls)] + results
  {
    var turn := TakeTurn(cfg, world, t, history, log);
    ExecutedResults(cfg, world, t, turn.calls, |turn.calls|, log);
    assert turn.calls[..|turn.calls|] == turn.calls;
    results := Execute(cfg, world, t, turn.calls, |turn.calls|, log).results;
  }

  ghost predicate GoodHistory(system: string, h: History) {
    Paired(h) && h != [] && h[0] == SystemMessage(system)
  }

  lemma UserIsPaired(task: string)
    ensures Paired([UserMessage(task)])
  {
    PairedGroup(UserMessage(task), []);
    assert [UserMessage(task)] + [] == [UserMessage(task)];
  }

  lemma SystemLeads(system: string, h: History)
    requires Paired(h)
    ensures Paired([SystemMessage(system)] + h)
  {
    PairedCons(SystemMessage(system), [], h);
    assert [SystemMessage(system)] + [] + h == [SystemMessage(system)] + h;
  }

  lemma InitialIsGood(system: string, chatHistory: History, task: string)
    requires Paired(chatHistory)
    ensures GoodHistory(system, InitialHistory(system, chatHistory, task))
  {
    UserIsPaired(task);
    PairedConcat(chatHistory, [UserMessage(task)]);
    SystemLeads(system, chatHistory + [UserMessage(task)]);
    assert [SystemMessage(system)] + (chatHistory + [UserMessage(task)]) == InitialHistory(system, chatHistory, task);
  }

  lemma CompactedIsGood(system: string, budget: nat, h: History)
    requires GoodHistory(system, h)
    ensures GoodHistory(system, Compacted(budget, h))
  {
    CompactionKeepsPairs(budget, h);
    CompactionKeepsSystemFirst(budget, h);
  }

  lemma ExtendedIsGood(system: string, h: History, text: string, calls: seq<ToolCall>, results: History)
    requires GoodHistory(system, h) && AreResults(results, calls)
    ensures GoodHistory(system, h + [AssistantMessage(text, calls)] + results)
  {
    var m := AssistantMessage(text, calls);
    PairedGroup(m, results);
    PairedConcat(h, [m] + results);
    ConcatIsAssociative(h, [m], results);
  }

  lemma {:induction false} HistoriesAreGood(
    cfg: Config, world: World, system: string, chatHistory: History, task: string, turns: seq<Turn>, k: nat)
    requires Paired(chatHistory)
    requires AreTurns(cfg, world, InitialHistory(system, chatHistory, task), turns) && k < |turns|
    ensures GoodHistory(system, turns[k].history)
  {
    var first := InitialHistory(system, chatHistory, task);
    assert IsTurn(cfg, world, first, turns, k);
    if k == 0 {
      InitialIsGood(system, chatHistory, task);
    } else {
      HistoriesAreGood(cfg, world, system, chatHistory, task, turns, k - 1);
      assert IsTurn(cfg, world, first, turns, k - 1);
      ContinuedIsGood(cfg, world, system, k - 1, turns[k - 1].history, turns[k - 1].log);
    }
  }

  lemma ContinuedIsGood(cfg: Config, world: World, system: string, t: nat, history: History, log: seq<Executed>)
    requires TakeTurn(cfg, world, t, history, log).end.Continues? && GoodHistory(system, history)
    ensures GoodHistory(system, TakeTurn(cfg, world, t, history, log).end.history)
  {
    var turn := TakeTurn(cfg, world, t, history, log);
    var results := ContinuedHistory(cfg, world, t, history, log);
    CompactedIsGood(system, cfg.budget, history);
    ExtendedIsGood(system, Compacted(cfg.budget, history), turn.text, turn.calls, results);
  }

  lemma RequestIsCompacted(cfg: Config, world: World, t: nat, history: History, log: seq<Executed>)
    requires TakeTurn(cfg, world, t, history, log).request.Some?
    ensures TakeTurn(cfg, world, t, history, log).request.value == Compacted(cfg.budget, history)
    ensures Count(history) <= cfg.hardLimit
  {
  }

  /**
   * Every request starts with the system prompt, pairs all tool calls with their results, and is at
   * most one marker over the hard limit: for all replies, all tool results and all turns.
   */
  lemma EveryRequestIsWellFormed(
    cfg: Config, world: World, system: string, chatHistory: History, task: string, turns: seq<Turn>, request: History)
    requires Paired(chatHistory)
    requires IsRun(cfg, world, InitialHistory(system, chatHistory, task), turns)
    requires request in Requests(turns)
    ensures Paired(request) && AllAnsweredAndOwned(request)
    ensures request != [] && request[0] == SystemMessage(system)
    ensures Count(request) <= cfg.hardLimit + 7
  {
    var k := TurnOfRequest(turns, request);
    assert IsTurn(cfg, world, InitialHistory(system, chatHistory, task), turns, k);
    HistoriesAreGood(cfg, world, system, chatHistory, task, turns, k);
    RequestIsCompacted(cfg, world, k, turns[k].history, turns[k].log);
    CompactedIsGood(system, cfg.budget, turns[k].history);
    CompactedCost(cfg.budget, turns[k].history);
    PairedMeans(request);
  }

  lemma {:induction false} TurnOfRequest(turns: seq<Turn>, request: History) returns (k: nat)
    requires request in Requests(turns)
    ensures k < |turns| && turns[k].request == Some(request)
  {
    var last := turns[|turns| - 1];
    if last.request == Some(request) {
      k := |turns| - 1;
    } else {
      k := TurnOfRequest(turns[..|turns| - 1], request);
    }
  }

  lemma GroupIsRest(m: Message, results: History)
    requires m.role.Assistant? && AreResults(results, CallsOf(m))
    ensures Rest([m] + results) == [m] + results
    ensures TurnBlock([m] + results) && StartsTurn([m] + results)
  {
    OfSystemUniform([m] + results, false);
  }

  lemma AppendedGroupIsLastBlock(rest: History, group: History)
    requires TurnBlock(group) && StartsTurn(group)
    ensures LastBlock(rest + group) == group
  {
    var blocks := Blocks(rest);
    BlocksCut(rest);
    FlatConcat(blocks, [group]);
    FlatSingle(group);
    assert forall k :: 0 <= k < |blocks| ==> (blocks + [group])[k] == blocks[k];
    CutsAreBlocks(rest + group, blocks + [group]);
  }

  /** Appending a turn and its results makes them the last block. */
  lemma LastBlockOfTurn(h: History, m: Message, results: History)
    requires m.role.Assistant? && AreResults(results, CallsOf(m))
    ensures LastBlock(Rest(h + [m] + results)) == [m] + results
  {
    GroupIsRest(m, results);
    ConcatIsAssociative(h, [m], results);
    OfSystemConcat(h, [m] + results, false);
    AppendedGroupIsLastBlock(Rest(h), [m] + results);
  }

  /** The results of all calls of a turn. */
  function ResultsOf(cfg: Config, world: World, t: nat, turn: Turn): History {
    Execute(cfg, world, t, turn.calls, |turn.calls|, turn.log).results
  }

  /**
   * From the second turn on, a request ends with the previous turn's assistant message, of the text and
   * the calls the turn has sent, and with the results of all these calls, however small the budget is.
   */
  lemma LatestTurnIsSentWhole(cfg: Config, world: World, first: History, turns: seq<Turn>, k: nat)
    requires AreTurns(cfg, world, first, turns) && 0 < k < |turns|
    ensures SendsWhole(turns[k], turns[k - 1], ResultsOf(cfg, world, k - 1, turns[k - 1]))
  {
    KeepsTurnBefore(cfg, world, first, turns, k);
  }

  lemma KeepsTurnBefore(cfg: Config, world: World, first: History, turns: seq<Turn>, k: nat)
    requires 0 < k < |turns| && IsTurn(cfg, world, first, turns, k - 1) && IsTurn(cfg, world, first, turns, k)
    ensures SendsWhole(turns[k], turns[k - 1], ResultsOf(cfg, world, k - 1, turns[k - 1]))
  {
    var turn, next := turns[k - 1], turns[k];
    NextRequestKeepsTurn(cfg, world, k - 1, turn, k, next);
  }

  /** If there is a next request, it ends with the turn, and the results answer all its calls. */
  ghost predicate SendsWhole(next: Turn, turn: Turn, results: History) {
    var text, calls := AllText(turn.events), StartedCalls(turn.events);
    next.request.Some? ==>
      AreResults(results, calls) && EndsWith(next.request.value, [AssistantMessage(text, calls)] + results)
  }

  lemma NextRequestKeepsTurn(cfg: Config, world: World, t: nat, turn: Turn, u: nat, next: Turn)
    requires turn == TakeTurn(cfg, world, t, turn.history, turn.log)
    requires next == TakeTurn(cfg, world, u, next.history, next.log)
    requires turn.end == Continues(next.history, next.log)
    ensures SendsWhole(next, turn, ResultsOf(cfg, world, t, turn))
  {
    TurnIsSent(cfg, world, t, turn.history, turn.log);
    if next.request.Some? {
      RequestIsCompacted(cfg, world, u, next.history, next.log);
      var results := ContinuedHistory(cfg, world, t, turn.history, turn.log);
      TurnSurvives(cfg.budget, Compacted(cfg.budget, turn.history), turn.text, turn.calls, results);
    }
  }

  lemma TurnSurvives(budget: nat, h: History, text: string, calls: seq<ToolCall>, results: History)
    requires AreResults(results, calls)
    ensures var m := AssistantMessage(text, calls); EndsWith(Compacted(budget, h + [m] + results), [m] + results)
  {
    var m := AssistantMessage(text, calls);
    var next := h + [m] + results;
    if Count(next) > budget {
      LastBlockOfTurn(h, m, results);
      CompactionEndsWithLatestBlock(budget, next);
    } else {
      ConcatIsAssociative(h, [m], results);
      EndsWithLonger(h, [m] + results, [m] + results);
    }
  }

  // ---------------------------------------------------------------- events

  function StartedIds(events: seq<Event>): seq<string> {
    if events == [] then []
    else StartedIds(events[..|events| - 1]) + match events[|events| - 1]
      case ToolStarted(call) => [call.id]
      case _ => []
  }

  function FinishedIds(events: seq<Event>): seq<string> {
    if events == [] then []
    else FinishedIds(events[..|events| - 1]) + match events[|events| - 1]
      case ToolFinished(id, _) => [id]
      case _ => []
  }

  predicate NoDone(events: seq<Event>) {
    forall k :: 0 <= k < |events| ==> !events[k].Done?
  }

  lemma {:induction false} IdsConcat(a: seq<Event>, b: seq<Event>)
    ensures StartedIds(a + b) == StartedIds(a) + StartedIds(b)
    ensures FinishedIds(a + b) == FinishedIds(a) + FinishedIds(b)
  {
    if b == [] {
      assert a + b == a;
    } else {
      var front := b[..|b| - 1];
      assert (a + b)[..|a + b| - 1] == a + front;
      IdsConcat(a, front);
    }
  }

  lemma IdsSnoc(events: seq<Event>, e: Event)
    ensures StartedIds(events + [e]) == StartedIds(events) + if e.ToolStarted? then [e.call.id] else []
    ensures FinishedIds(events + [e]) == FinishedIds(events) + if e.ToolFinished? then [e.id] else []
  {
    assert (events + [e])[..|events|] == events;
  }

  function IdsOf(calls: seq<ToolCall>): seq<string> {
    seq(|calls|, k requires 0 <= k < |calls| => calls[k].id)
  }

  lemma {:induction false} StreamedIds(chunks: seq<Chunk>)
    ensures NoDone(StreamEvents(chunks)) && FinishedIds(StreamEvents(chunks)) == []
    ensures StartedIds(StreamEvents(chunks)) == IdsOf(CallsIn(chunks))
  {
    if chunks != [] {
      var front, c := chunks[..|chunks| - 1], chunks[|chunks| - 1];
      StreamedIds(front);
      if c.ToolUseChunk? {
        IdsSnoc(StreamEvents(front), ToolStarted(c.call));
        assert IdsOf(CallsIn(front) + [c.call]) == IdsOf(CallsIn(front)) + [c.call.id];
      } else {
        assert CallsIn(chunks) == CallsIn(front);
        if c.TextChunk? && c.delta != "" {
          IdsSnoc(StreamEvents(front), TextDelta(c.delta));
        } else {
          assert StreamEvents(chunks) == StreamEvents(front);
        }
      }
    }
  }

  /** The events of executing the first `n` calls. */
  function CallEvents(world: World, t: nat, calls: seq<ToolCall>, n: nat): seq<Event>
    requires n <= |calls|
  {
    if n == 0 then []
    else CallEvents(world, t, calls, n - 1) + [ToolFinished(calls[n - 1].id, (world.tool)(t, n - 1).isError)]
  }

  lemma {:induction false} CallEventIds(world: World, t: nat, calls: seq<ToolCall>, n: nat)
    requires n <= |calls|
    ensures var events := CallEvents(world, t, calls, n);
      NoDone(events) && StartedIds(events) == [] && FinishedIds(events) == IdsOf(calls)[..n]
  {
    if n > 0 {
      CallEventIds(world, t, calls, n - 1);
      OneMoreFinished(CallEvents(world, t, calls, n - 1), (world.tool)(t, n - 1).isError, calls, n);
    }
  }

  lemma OneMoreFinished(events: seq<Event>, isError: bool, calls: seq<ToolCall>, n: nat)
    requires 0 < n <= |calls|
    requires NoDone(events) && StartedIds(events) == [] && FinishedIds(events) == IdsOf(calls)[..n - 1]
    ensures var more := events + [ToolFinished(calls[n - 1].id, isError)];
      NoDone(more) && StartedIds(more) == [] && FinishedIds(more) == IdsOf(calls)[..n]
  {
    IdsSnoc(events, ToolFinished(calls[n - 1].id, isError));
    assert IdsOf(calls)[..n] == IdsOf(calls)[..n - 1] + [calls[n - 1].id];
  }

  /** What executing the first `n` calls of turn `t` adds to the log. */
  function CallLog(world: World, t: nat, calls: seq<ToolCall>, n: nat): seq<Executed>
    requires n <= |calls|
  {
    if n == 0 then []
    else CallLog(world, t, calls, n - 1) + [Executed(FailureKey(calls[n - 1]), (world.tool)(t, n - 1).isError)]
  }

  /** Exactly the first `n` calls have been executed. */
  ghost predicate ExecutedFirst(world: World, t: nat, calls: seq<ToolCall>, n: nat, log: seq<Executed>, e: Execution) {
    && n <= |calls|
    && e.log == log + CallLog(world, t, calls, n)
    && e.events == CallEvents(world, t, calls, n)
  }

  lemma OneMoreExecuted(
    world: World, t: nat, calls: seq<ToolCall>, n: nat, log: seq<Executed>, before: Execution, after: Execution)
    requires n < |calls| && ExecutedFirst(world, t, calls, n, log, before)
    requires after.log == before.log + [Executed(FailureKey(calls[n]), (world.tool)(t, n).isError)]
    requires after.events == before.events + [ToolFinished(calls[n].id, (world.tool)(t, n).isError)]
    ensures ExecutedFirst(world, t, calls, n + 1, log, after)
  {
    assert log + (CallLog(world, t, calls, n) + [after.log[|before.log|]])
      == (log + CallLog(world, t, calls, n)) + [after.log[|before.log|]];
  }

  /** How many of the first `k` calls are executed: all of them unless the repeat check fires. */
  lemma {:induction false} ExecutedCount(cfg: Config, world: World, t: nat, calls: seq<ToolCall>, k: nat, log: seq<Executed>)
    returns (n: nat)
    requires k <= |calls|
    ensures n <= k && ExecutedFirst(world, t, calls, n, log, Execute(cfg, world, t, calls, k, log))
    ensures Execute(cfg, world, t, calls, k, log).aborted.None? ==> n == k
  {
    if k == 0 {
      n := 0;
      assert log + CallLog(world, t, calls, 0) == log;
    } else {
      n := ExecutedCount(cfg, world, t, calls, k - 1, log);
      var before := Execute(cfg, world, t, calls, k - 1, log);
      if before.aborted.None? {
        StepAdds(cfg, before, calls[n], (world.tool)(t, n));
        OneMoreExecuted(world, t, calls, n, log, before, Execute(cfg, world, t, calls, k, log));
        n := k;
      }
    }
  }

  lemma ExecutedIds(cfg: Config, world: World, t: nat, calls: seq<ToolCall>, log: seq<Executed>)
    ensures var e := Execute(cfg, world, t, calls, |calls|, log);
      && NoDone(e.events) && StartedIds(e.events) == []
      && FinishedIds(e.events) <= IdsOf(calls)
      && (e.aborted.None? ==> FinishedIds(e.events) == IdsOf(calls))
  {
    var n := ExecutedCount(cfg, world, t, calls, |calls|, log);
    CallEventIds(world, t, calls, n);
    assert IdsOf(calls)[..|calls|] == IdsOf(calls);
  }

  lemma JoinedEvents(streamed: seq<Event>, executed: seq<Event>, ids: seq<string>)
    requires NoDone(streamed) && FinishedIds(streamed) == [] && StartedIds(streamed) == ids
    requires NoDone(executed) && StartedIds(executed) == []
    ensures NoDone(streamed + executed)
    ensures StartedIds(streamed + executed) == ids
    ensures FinishedIds(streamed + executed) == FinishedIds(executed)
  {
    IdsConcat(streamed, executed);
  }

  /** The finished ids are a prefix of the started ones, and all of them if the turn goes on. */
  ghost predicate OrderedTurn(turn: Turn) {
    && NoDone(turn.events)
    && StartedIds(turn.events) == IdsOf(turn.calls)
    && FinishedIds(turn.events) <= StartedIds(turn.events)
    && (turn.end.Continues? || turn.calls == [] ==> FinishedIds(turn.events) == StartedIds(turn.events))
  }

  lemma StreamedTurnIsOrdered(turn: Turn, read: seq<Chunk>)
    requires turn.events == StreamEvents(read) && turn.calls == CallsIn(read) && !turn.end.Continues?
    ensures OrderedTurn(turn)
  {
    StreamedIds(read);
  }

  lemma ExecutedTurnIsOrdered(turn: Turn, read: seq<Chunk>, cfg: Config, world: World, t: nat, e: Execution)
    requires turn.calls == CallsIn(read) && turn.calls != []
    requires e == Execute(cfg, world, t, turn.calls, |turn.calls|, turn.log)
    requires turn.events == StreamEvents(read) + e.events && (turn.end.Continues? ==> e.aborted.None?)
    ensures OrderedTurn(turn)
  {
    StreamedIds(read);
    ExecutedIds(cfg, world, t, turn.calls, turn.log);
    JoinedEvents(StreamEvents(read), e.events, IdsOf(turn.calls));
  }

  /** In every turn the finished ids are a prefix of the started ones, and all of them if it goes on. */
  lemma TurnEventsAreOrdered(cfg: Config, world: World, t: nat, history: History, log: seq<Executed>)
    ensures OrderedTurn(TakeTurn(cfg, world, t, history, log))
  {
    var turn := TakeTurn(cfg, world, t, history, log);
    if turn.request.Some? && (world.provider)(t).Streaming? {
      var chunks := (world.provider)(t).chunks;
      var read := chunks[..TurnLength(chunks)];
      if StreamError(chunks).None? && turn.calls != [] {
        ExecutedTurnIsOrdered(turn, read, cfg, world, t, Execute(cfg, world, t, turn.calls, |turn.calls|, log));
      } else {
        StreamedTurnIsOrdered(turn, read);
      }
    }
  }

  lemma {:induction false} NoDoneInTurns(cfg: Config, world: World, first: History, turns: seq<Turn>)
    requires AreTurns(cfg, world, first, turns)
    ensures NoDone(TurnEvents(turns))
  {
    if turns != [] {
      var front := turns[..|turns| - 1];
      forall k | 0 <= k < |front|
        ensures IsTurn(cfg, world, first, front, k)
      {
        assert IsTurn(cfg, world, first, turns, k);
      }
      NoDoneInTurns(cfg, world, first, front);
      assert IsTurn(cfg, world, first, turns, |turns| - 1);
      TurnEventsAreOrdered(cfg, world, |turns| - 1, turns[|turns| - 1].history, turns[|turns| - 1].log);
    }
  }

  /** A run has exactly one done event, the last one, and no more turns than the cap allows. */
  lemma OneDoneAndLast(cfg: Config, world: World, first: History, turns: seq<Turn>)
    requires IsRun(cfg, world, first, turns)
    ensures var events := TurnEvents(turns) + [EndEvent(cfg, turns)];
      && events[|events| - 1].Done?
      && forall k :: 0 <= k < |events| ==> (events[k].Done? <==> k == |events| - 1)
    ensures |turns| <= cfg.maxIterations
  {
    NoDoneInTurns(cfg, world, first, turns);
    if turns != [] {
      assert IsTurn(cfg, world, first, turns, |turns| - 1);
      FinishesWithDone(cfg, world, |turns| - 1, turns[|turns| - 1].history, turns[|turns| - 1].log);
    }
  }

  lemma {:induction false} AbortedWithDone(cfg: Config, world: World, t: nat, calls: seq<ToolCall>, k: nat, log: seq<Executed>)
    requires k <= |calls|
    ensures var e := Execute(cfg, world, t, calls, k, log);
      e.aborted.Some? ==> e.aborted.value.Done? && e.aborted.value.status == StatusAbortedRepeat
  {
    if k > 0 {
      var before := Execute(cfg, world, t, calls, k - 1, log);
      AbortedWithDone(cfg, world, t, calls, k - 1, log);
      if before.aborted.None? {
        StepAdds(cfg, before, calls[k - 1], (world.tool)(t, k - 1));
      }
    }
  }

  /** The three ways a turn sends the last event itself, told apart by its status. */
  lemma FinishesWithDone(cfg: Config, world: World, t: nat, history: History, log: seq<Executed>)
    ensures var turn := TakeTurn(cfg, world, t, history, log);
      turn.end.Finishes? ==>
        && turn.end.done.Done?
        && turn.end.done.status in {StatusAborted, StatusDone, StatusAbortedRepeat}
        && (turn.end.done.status == StatusDone <==> turn.request.Some? && turn.calls == [])
        && (turn.end.done.status == StatusDone ==> turn.end.done.summary == ModelText(turn.text))
        && (turn.end.done.status == StatusAbortedRepeat <==> turn.calls != [])
  {
    var turn := TakeTurn(cfg, world, t, history, log);
    AbortedWithDone(cfg, world, t, turn.calls, |turn.calls|, log);
  }

  ghost predicate EndsWithStatus(cfg: Config, turns: seq<Turn>, status: Status) {
    EndEvent(cfg, turns).Done? && EndEvent(cfg, turns).status == status
  }

  /**
   * In a run ending DONE every started call finished, the last turn started none, and the summary is the
   * text the last turn has sent.
   */
  lemma DoneMeansAllFinished(cfg: Config, world: World, first: History, turns: seq<Turn>)
    requires IsRun(cfg, world, first, turns)
    requires EndsWithStatus(cfg, turns, StatusDone)
    ensures turns != [] && StartedCalls(turns[|turns| - 1].events) == []
    ensures EndEvent(cfg, turns).summary == ModelText(AllText(turns[|turns| - 1].events))
    ensures forall k :: 0 <= k < |turns| ==> FinishedIds(turns[k].events) == StartedIds(turns[k].events)
  {
    if turns != [] {
      var n := |turns| - 1;
      assert IsTurn(cfg, world, first, turns, n);
      FinishesWithDone(cfg, world, n, turns[n].history, turns[n].log);
      TurnIsSent(cfg, world, n, turns[n].history, turns[n].log);
    }
    forall k | 0 <= k < |turns|
      ensures FinishedIds(turns[k].events) == StartedIds(turns[k].events)
    {
      assert IsTurn(cfg, world, first, turns, k);
      if k + 1 < |turns| {
        TurnBeforeLastContinues(cfg, world, first, turns, k);
      }
      TurnEventsAreOrdered(cfg, world, k, turns[k].history, turns[k].log);
    }
  }

  // ---------------------------------------------------------------- the repeat check

  /** The last `n` executions all failed, with the key of the last one. */
  ghost predicate FailedInARow(log: seq<Executed>, n: nat) {
    && n <= |log|
    && forall i :: |log| - n <= i < |log| ==> log[i].isError && log[i].key == log[|log| - 1].key
  }

  /** The counter is the length of the longest such suffix. */
  lemma {:induction false} RepeatRunIsLongest(log: seq<Executed>)
    ensures FailedInARow(log, RepeatRun(log))
    ensures forall n: nat :: FailedInARow(log, n) ==> n <= RepeatRun(log)
  {
    if log != [] && log[|log| - 1].isError {
      var before := log[..|log| - 1];
      RepeatRunIsLongest(before);
      forall n: nat | FailedInARow(log, n)
        ensures n <= RepeatRun(log)
      {
        if n > 1 {
          assert before[|before| - 1] == log[|log| - 2];
          assert FailedInARow(before, n - 1) by {
            forall i | |before| - (n - 1) <= i < |before|
              ensures before[i].isError && before[i].key == before[|before| - 1].key
            {
              assert log[i] == before[i];
            }
          }
        }
      }
    } else if log != [] {
      assert forall n: nat :: FailedInARow(log, n) && n > 0 ==> log[|log| - 1].isError;
    }
  }

  /** No prefix of the log fires the check. */
  ghost predicate Quiet(cfg: Config, log: seq<Executed>) {
    forall n :: 0 <= n <= |log| ==> !Aborts(cfg, log[..n])
  }

  /** Execution stops at the first log that fires the check. */
  ghost predicate StopsAtFirstAbort(cfg: Config, e: Execution) {
    if e.aborted.None? then Quiet(cfg, e.log)
    else e.log != [] && Aborts(cfg, e.log) && Quiet(cfg, e.log[..|e.log| - 1])
  }

  lemma {:induction false} ExecutionStops(cfg: Config, world: World, t: nat, calls: seq<ToolCall>, k: nat, log: seq<Executed>)
    requires k <= |calls| && Quiet(cfg, log)
    ensures StopsAtFirstAbort(cfg, Execute(cfg, world, t, calls, k, log))
  {
    if k > 0 {
      var before := Execute(cfg, world, t, calls, k - 1, log);
      ExecutionStops(cfg, world, t, calls, k - 1, log);
      if before.aborted.None? {
        StepAdds(cfg, before, calls[k - 1], (world.tool)(t, k - 1));
        QuietSnoc(cfg, before.log, Executed(FailureKey(calls[k - 1]), (world.tool)(t, k - 1).isError));
      }
    }
  }

  lemma QuietSnoc(cfg: Config, log: seq<Executed>, entry: Executed)
    requires Quiet(cfg, log)
    ensures !Aborts(cfg, log + [entry]) ==> Quiet(cfg, log + [entry])
    ensures (log + [entry])[..|log|] == log
  {
    var more := log + [entry];
    forall n | 0 <= n <= |log|
      ensures more[..n] == log[..n]
    {
    }
    assert more[..|more|] == more;
  }

  /** All executions of the run, up to and including turn `k`. */
  function LogThrough(cfg: Config, world: World, k: nat, turn: Turn): seq<Executed> {
    if turn.calls == [] || turn.end.Fails? then turn.log
    else Execute(cfg, world, k, turn.calls, |turn.calls|, turn.log).log
  }

  /** They are the earlier ones and the first calls of this turn. */
  lemma LogThroughAddsCalls(cfg: Config, world: World, k: nat, turn: Turn) returns (n: nat)
    ensures n <= |turn.calls| && LogThrough(cfg, world, k, turn) == turn.log + CallLog(world, k, turn.calls, n)
  {
    if turn.calls == [] || turn.end.Fails? {
      n := 0;
      assert turn.log + CallLog(world, k, turn.calls, 0) == turn.log;
    } else {
      n := ExecutedCount(cfg, world, k, turn.calls, |turn.calls|, turn.log);
    }
  }

  lemma ContinuedLog(cfg: Config, world: World, t: nat, history: History, log: seq<Executed>)
    requires TakeTurn(cfg, world, t, history, log).end.Continues? && Quiet(cfg, log)
    ensures var turn := TakeTurn(cfg, world, t, history, log);
      Quiet(cfg, turn.end.log) && turn.end.log == log + CallLog(world, t, turn.calls, |turn.calls|)
  {
    var turn := TakeTurn(cfg, world, t, history, log);
    var n := ExecutedCount(cfg, world, t, turn.calls, |turn.calls|, log);
    ExecutionStops(cfg, world, t, turn.calls, |turn.calls|, log);
  }

  /** At the start of every turn the log holds all executed calls so far and the check has been quiet. */
  lemma {:induction false} LogsAreQuiet(cfg: Config, world: World, first: History, turns: seq<Turn>, k: nat)
    requires AreTurns(cfg, world, first, turns) && k < |turns|
    ensures Quiet(cfg, turns[k].log)
    ensures k > 0 ==> turns[k].log == turns[k - 1].log + CallLog(world, k - 1, turns[k - 1].calls, |turns[k - 1].calls|)
  {
    assert IsTurn(cfg, world, first, turns, k);
    if k == 0 {
      assert turns[k].log[..0] == [];
    } else {
      LogsAreQuiet(cfg, world, first, turns, k - 1);
      assert IsTurn(cfg, world, first, turns, k - 1);
      ContinuedLog(cfg, world, k - 1, turns[k - 1].history, turns[k - 1].log);
    }
  }

  /**
   * A run ends ABORTED_REPEAT exactly when the failures in a row at the end of all executions reach
   * the limit; they had not reached it after any earlier execution; a limit of 0 never ends a run.
   */
  lemma RepeatAbortIsExact(cfg: Config, world: World, first: History, turns: seq<Turn>)
    requires IsRun(cfg, world, first, turns) && turns != []
    ensures var last := turns[|turns| - 1];
            var log := LogThrough(cfg, world, |turns| - 1, last);
      && (EndsWithStatus(cfg, turns, StatusAbortedRepeat)
          <==> cfg.repeatAbortAfter > 0 && RepeatRun(log) >= cfg.repeatAbortAfter)
      && (log != [] ==> Quiet(cfg, log[..|log| - 1]))
  {
    var n := |turns| - 1;
    var last := turns[n];
    assert IsTurn(cfg, world, first, turns, n);
    LogsAreQuiet(cfg, world, first, turns, n);
    FinishesWithDone(cfg, world, n, last.history, last.log);
    LastLogIsQuiet(cfg, world, n, last);
  }

  lemma LastLogIsQuiet(cfg: Config, world: World, n: nat, last: Turn)
    requires last == TakeTurn(cfg, world, n, last.history, last.log) && Quiet(cfg, last.log)
    ensures var log := LogThrough(cfg, world, n, last);
      && (log != [] ==> Quiet(cfg, log[..|log| - 1]))
      && (Aborts(cfg, log) <==> last.end.Finishes? && last.calls != [])
  {
    var log := LogThrough(cfg, world, n, last);
    if last.calls == [] || last.end.Fails? {
      assert log == last.log;
      QuietPrefix(cfg, log);
    } else {
      ExecutionStops(cfg, world, n, last.calls, |last.calls|, last.log);
      var e := Execute(cfg, world, n, last.calls, |last.calls|, last.log);
      assert log == e.log;
      if e.aborted.None? {
        QuietPrefix(cfg, log);
      }
    }
  }

  lemma QuietPrefix(cfg: Config, log: seq<Executed>)
    requires Quiet(cfg, log)
    ensures !Aborts(cfg, log)
    ensures log != [] ==> Quiet(cfg, log[..|log| - 1])
  {
    assert log[..|log|] == log;
    if log != [] {
      var front := log[..|log| - 1];
      forall n | 0 <= n <= |front|
        ensures front[..n] == log[..n]
      {
      }
    }
  }
}
