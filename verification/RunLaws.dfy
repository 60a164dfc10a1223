// How turns and runs of the agent loop end, what they send to the provider first, and what repeated
// failures are recognised by.
module RunLaws {
  import opened Text
  import opened Context
  import opened CompactionTheorems
  import opened AgentLoop
  import opened StreamLaws
  import opened AgentTheorems

  // ---------------------------------------------------------------- everything is sent, in order

  lemma {:induction false} TurnsConcat(a: seq<Turn>, b: seq<Turn>)
    ensures TurnEvents(a + b) == TurnEvents(a) + TurnEvents(b)
    ensures Requests(a + b) == Requests(a) + Requests(b)
  {
    if b == [] {
      assert a + b == a;
    } else {
      var front, last := b[..|b| - 1], b[|b| - 1];
      TurnsConcat(a, front);
      assert b == front + [last] && a + b == (a + front) + [last];
      OneTurn(last);
      TurnsSnoc(a + front, last);
      TurnsSnoc(front, last);
      Associates(TurnEvents(a), TurnEvents(front), last.events);
      Associates(Requests(a), Requests(front), Requests([last]));
    }
  }

  lemma OneTurn(turn: Turn)
    ensures TurnEvents([turn]) == turn.events
    ensures Requests([turn]) == match turn.request case Some(h) => [h] case None => []
  {
    assert [turn][..0] == [];
  }

  /** The events and the request of every turn come behind those of the turns before it. */
  lemma TurnIsSentInOrder(turns: seq<Turn>, k: nat)
    requires k < |turns|
    ensures TurnEvents(turns[..k]) + turns[k].events <= TurnEvents(turns)
    ensures turns[k].request.Some? ==>
      |Requests(turns[..k])| < |Requests(turns)| && Requests(turns)[|Requests(turns[..k])|] == turns[k].request.value
  {
    var before, after := turns[..k], turns[k + 1..];
    assert turns == before + [turns[k]] + after;
    TurnsConcat(before, [turns[k]]);
    TurnsConcat(before + [turns[k]], after);
    OneTurn(turns[k]);
  }

  // ---------------------------------------------------------------- how a turn ends

  /** The turn reaches the provider: it is not cancelled and the history is within the hard limit. */
  predicate Asks(cfg: Config, world: World, t: nat, history: History) {
    !(world.cancelled)(t) && Count(history) <= cfg.hardLimit
  }

  /** The provider fails with this error, at once or in its stream. */
  ghost predicate ProviderFails(world: World, t: nat, error: string) {
    match (world.provider)(t)
    case Refused(e) => e == error
    case Streaming(chunks) => exists n: nat :: FailsAt(chunks, n, error)
  }

  /** The chunks that are read of an answer that does not fail. */
  function ReadOf(world: World, t: nat): seq<Chunk> {
    match (world.provider)(t)
    case Refused(_) => []
    case Streaming(chunks) => chunks[..TurnLength(chunks)]
  }

  lemma ProviderErrorIff(cfg: Config, world: World, t: nat, history: History, log: seq<Executed>, error: string)
    ensures TakeTurn(cfg, world, t, history, log).end == Fails(ProviderError(error))
      <==> Asks(cfg, world, t, history) && ProviderFails(world, t, error)
  {
    if (world.provider)(t).Streaming? {
      StreamFailsIff((world.provider)(t).chunks, error);
    }
  }

  /**
   * A turn is aborted iff it is cancelled; it fails on the size of the history iff that is over the hard
   * limit; only otherwise it sends its compacted history. It is done iff the provider then answers,
   * without failing, with no call to make; the text of that answer is the summary.
   */
  lemma HowTurnsEnd(cfg: Config, world: World, t: nat, history: History, log: seq<Executed>)
    ensures var turn := TakeTurn(cfg, world, t, history, log);
      && (turn.end == Finishes(Done(StatusAborted, CancelledByUser)) <==> (world.cancelled)(t))
      && (turn.end == Fails(ContextBudgetExhausted(Count(history), cfg.hardLimit))
          <==> !(world.cancelled)(t) && Count(history) > cfg.hardLimit)
      && turn.request == (if Asks(cfg, world, t, history) then Some(Compacted(cfg.budget, history)) else None)
      && (turn.end == Finishes(Done(StatusDone, ModelText(TextOf(ReadOf(world, t)))))
          <==> Asks(cfg, world, t, history) && (world.provider)(t).Streaming?
               && (forall error :: !ProviderFails(world, t, error)) && CallsIn(ReadOf(world, t)) == [])
  {
    var turn := TakeTurn(cfg, world, t, history, log);
    AbortedWithDone(cfg, world, t, turn.calls, |turn.calls|, log);
    if (world.provider)(t).Streaming? {
      var chunks := (world.provider)(t).chunks;
      forall error
        ensures StreamError(chunks) == Some(error) <==> ProviderFails(world, t, error)
      {
        StreamFailsIff(chunks, error);
      }
    }
  }

  // ---------------------------------------------------------------- how a run ends

  /** A run is aborted iff the token is found cancelled before one of its turns. */
  lemma RunIsAbortedIff(cfg: Config, world: World, first: History, turns: seq<Turn>)
    requires IsRun(cfg, world, first, turns)
    ensures EndEvent(cfg, turns) == Done(StatusAborted, CancelledByUser)
      <==> exists k: nat :: k < |turns| && (world.cancelled)(k)
  {
    forall k: nat | k < |turns|
      ensures (world.cancelled)(k) <==> turns[k].end == Finishes(Done(StatusAborted, CancelledByUser))
      ensures k + 1 < |turns| ==> turns[k].end.Continues?
    {
      assert IsTurn(cfg, world, first, turns, k);
      HowTurnsEnd(cfg, world, k, turns[k].history, turns[k].log);
      if k + 1 < |turns| {
        TurnBeforeLastContinues(cfg, world, first, turns, k);
      }
    }
    if EndEvent(cfg, turns) == Done(StatusAborted, CancelledByUser) {
      assert (world.cancelled)(|turns| - 1);
    }
  }

  /** It runs out of iterations iff as many turns as configured went on. */
  lemma RunIsExhaustedIff(cfg: Config, world: World, first: History, turns: seq<Turn>)
    requires IsRun(cfg, world, first, turns)
    ensures var limit := cfg.maxIterations;
      EndEvent(cfg, turns)
          == Done(StatusFailed(MaxIterationsReached(limit)), ErrorSummary(MaxIterationsReached(limit)))
      <==> |turns| == limit && forall k :: 0 <= k < |turns| ==> turns[k].end.Continues?
  {
    forall k: nat | k + 1 < |turns|
      ensures turns[k].end.Continues?
    {
      TurnBeforeLastContinues(cfg, world, first, turns, k);
    }
    if turns != [] {
      var n := |turns| - 1;
      assert IsTurn(cfg, world, first, turns, n);
      FinishesWithDone(cfg, world, n, turns[n].history, turns[n].log);
    }
  }

  // ---------------------------------------------------------------- the first request

  /** The first history is the prompt, the chat so far and the task, each message in its place. */
  lemma InitialHistoryHolds(system: string, chatHistory: History, task: string)
    ensures var h := InitialHistory(system, chatHistory, task);
      && |h| == |chatHistory| + 2 && h[0] == Message(System, system, [], None)
      && h[|h| - 1] == Message(User, task, [], None)
      && forall k :: 0 <= k < |chatHistory| ==> h[k + 1] == chatHistory[k]
  {
  }

  /** Whatever is compacted, the first request starts with the prompt and ends with the task. */
  lemma FirstRequestAsksForTheTask(
    cfg: Config, world: World, system: string, chatHistory: History, task: string, turns: seq<Turn>)
    requires AreTurns(cfg, world, InitialHistory(system, chatHistory, task), turns)
    requires turns != [] && turns[0].request.Some?
    ensures var request := turns[0].request.value;
      request != [] && request[0] == SystemMessage(system) && request[|request| - 1] == UserMessage(task)
    ensures Count(InitialHistory(system, chatHistory, task)) <= cfg.budget ==>
      turns[0].request.value == InitialHistory(system, chatHistory, task)
  {
    var h := InitialHistory(system, chatHistory, task);
    assert IsTurn(cfg, world, h, turns, 0);
    HowTurnsEnd(cfg, world, 0, h, []);
    TaskIsLastBlock([SystemMessage(system)] + chatHistory, task);
    CompactionKeepsSystemFirst(cfg.budget, h);
    if Count(h) > cfg.budget {
      CompactionEndsWithLatestBlock(cfg.budget, h);
    }
  }

  lemma TaskIsLastBlock(before: History, task: string)
    ensures LastBlock(Rest(before + [UserMessage(task)])) == [UserMessage(task)]
  {
    UserIsLastBlock(before, UserMessage(task));
  }

  lemma UserIsLastBlock(before: History, m: Message)
    requires m.role.User?
    ensures LastBlock(Rest(before + [m])) == [m]
  {
    RestOfUser(before, m);
    AppendedGroupIsLastBlock(Rest(before), [m]);
  }

  lemma RestOfUser(before: History, m: Message)
    requires m.role.User?
    ensures Rest(before + [m]) == Rest(before) + [m]
    ensures TurnBlock([m]) && StartsTurn([m])
  {
    OfSystemConcat(before, [m], false);
    OfSystemUniform([m], false);
  }

  // ---------------------------------------------------------------- repeated failures

  /** Calls whose names hold no `|` are taken for the same iff name and arguments are. */
  lemma SameKeyIff(a: ToolCall, b: ToolCall)
    requires Lacks(a.name, '|') && Lacks(b.name, '|')
    ensures FailureKey(a) == FailureKey(b) <==> a.name == b.name && a.args == b.args
  {
    if FailureKey(a) == FailureKey(b) {
      NameEndsAtBar(a, b);
      NameEndsAtBar(b, a);
      assert FailureKey(a)[..|a.name|] == a.name && FailureKey(b)[..|b.name|] == b.name;
      assert FailureKey(a)[|a.name| + 1..] == a.args && FailureKey(b)[|b.name| + 1..] == b.args;
    }
  }

  lemma NameEndsAtBar(a: ToolCall, b: ToolCall)
    requires Lacks(b.name, '|') && FailureKey(a) == FailureKey(b)
    ensures |b.name| <= |a.name|
  {
    assert FailureKey(a)[|a.name|] == '|';
    assert forall k :: 0 <= k < |b.name| ==> FailureKey(b)[k] == b.name[k];
  }

  /** The last `n` executions are the longest row of failures of one call. */
  ghost predicate IsFailureRow(log: seq<Executed>, n: nat) {
    FailedInARow(log, n) && !FailedInARow(log, n + 1)
  }

  lemma RepeatRunIsRow(log: seq<Executed>, n: nat)
    requires IsFailureRow(log, n)
    ensures n == RepeatRun(log)
  {
    RepeatRunIsLongest(log);
    if n < RepeatRun(log) {
      assert FailedInARow(log, n + 1);
    }
  }

  /**
   * A call's result is sent back as it is, with a warning behind it if it is not the first failure in a
   * row of this call. The run is aborted, naming the call, once the row is as long as allowed.
   */
  lemma HowCallsAreAnswered(cfg: Config, before: Execution, call: ToolCall, result: ToolResult, n: nat)
    requires before.aborted.None?
    requires IsFailureRow(before.log + [Executed(FailureKey(call), result.isError)], n)
    ensures var after, checked := ExecuteStep(cfg, before, call, result), cfg.repeatAbortAfter > 0;
      if checked && n >= cfg.repeatAbortAfter then
        && after.results == before.results
        && after.aborted == Some(Done(StatusAbortedRepeat, RepeatedFailure(call.name, cfg.repeatAbortAfter)))
      else
        && after.aborted == None
        && after.results == before.results + [Message(Tool,
             result.content + (if checked && n > 1 then cfg.warning(call.name, n) else ""), [], Some(call.id))]
  {
    RepeatRunIsRow(before.log + [Executed(FailureKey(call), result.isError)], n);
    assert result.content + "" == result.content;
  }
}
