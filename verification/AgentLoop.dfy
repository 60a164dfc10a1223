// `drive_loop`: stream one model turn, run its tool calls, repeat. The provider, the tools and the
// cancel token are arbitrary; the loop's events and the histories it sends are what is modelled.
module AgentLoop {
  import opened Text
  import opened Context

  // ---------------------------------------------------------------- the outside world

  datatype Chunk =
    | TextChunk(delta: string)
    | ToolUseChunk(call: ToolCall)
    | DoneChunk
    | BrokenChunk(error: string)

  /** `stream_chat` fails at once or yields chunks; a stream may end without a done chunk. */
  datatype Reply = Refused(error: string) | Streaming(chunks: seq<Chunk>)

  datatype ToolResult = ToolResult(content: string, isError: bool)

  /**
   * What happens outside the loop: the reply in turn `t`, the result of call `k` of turn `t`, and
   * whether the token is found cancelled before turn `t`.
   */
  datatype World = World(provider: nat -> Reply, tool: (nat, nat) -> ToolResult, cancelled: nat -> bool)

  /**
   * `repeatAbortAfter == 0` disables the repeat check. `warning(tool, n)` is the text appended to the
   * result of a call that failed for the `n`-th time in a row.
   */
  datatype Config = Config(
    maxIterations: nat, budget: nat, hardLimit: nat, repeatAbortAfter: nat, warning: (string, nat) -> string)

  datatype Event =
    | TextDelta(delta: string)
    | ToolStarted(call: ToolCall)
    | ToolFinished(id: string, isError: bool)
    | Done(status: Status, summary: Summary)

  datatype AgentError =
    | ContextBudgetExhausted(used: nat, limit: nat)
    | ProviderError(message: string)
    | MaxIterationsReached(limit: nat)

  /** The status of the last event; `StatusText` in module AgentRuns renders it. */
  datatype Status = StatusDone | StatusAborted | StatusAbortedRepeat | StatusFailed(error: AgentError)

  datatype Summary =
    | ModelText(text: string)
    | CancelledByUser
    | RepeatedFailure(tool: string, times: nat)
    | ErrorSummary(error: AgentError)

  /** The text of all deltas. */
  function AllText(events: seq<Event>): string {
    if events == [] then ""
    else AllText(events[..|events| - 1]) + match events[|events| - 1]
      case TextDelta(delta) => delta
      case _ => ""
  }

  // ---------------------------------------------------------------- one model turn

  /** How many chunks are read as part of the turn: up to the first done or broken chunk. */
  function TurnLength(chunks: seq<Chunk>): (n: nat)
    ensures n <= |chunks|
  {
    if chunks == [] || chunks[0].DoneChunk? || chunks[0].BrokenChunk? then 0 else 1 + TurnLength(chunks[1..])
  }

  function TextOf(chunks: seq<Chunk>): string {
    if chunks == [] then ""
    else TextOf(chunks[..|chunks| - 1]) + match chunks[|chunks| - 1]
      case TextChunk(delta) => delta
      case _ => ""
  }

  function CallsIn(chunks: seq<Chunk>): seq<ToolCall> {
    if chunks == [] then []
    else CallsIn(chunks[..|chunks| - 1]) + match chunks[|chunks| - 1]
      case ToolUseChunk(call) => [call]
      case _ => []
  }

  function StreamEvents(chunks: seq<Chunk>): seq<Event> {
    if chunks == [] then []
    else StreamEvents(chunks[..|chunks| - 1]) + match chunks[|chunks| - 1]
      case TextChunk(delta) => if delta == "" then [] else [TextDelta(delta)]
      case ToolUseChunk(call) => [ToolStarted(call)]
      case _ => []
  }

  function StreamError(chunks: seq<Chunk>): Option<string> {
    var n := TurnLength(chunks);
    if n < |chunks| && chunks[n].BrokenChunk? then Some(chunks[n].error) else None
  }

  // ---------------------------------------------------------------- tool execution

  /** One executed call, with the key repeated failures are recognised by. */
  datatype Executed = Executed(key: string, isError: bool)

  function FailureKey(call: ToolCall): string {
    call.name + "|" + call.args
  }

  /** The number of executions at the end of the log that failed with the key of the last one. */
  function RepeatRun(log: seq<Executed>): nat {
    if log == [] || !log[|log| - 1].isError then 0
    else
      var before := log[..|log| - 1];
      if before != [] && before[|before| - 1] == log[|log| - 1] then 1 + RepeatRun(before) else 1
  }

  /** The repeat check fires on this log. */
  predicate Aborts(cfg: Config, log: seq<Executed>) {
    cfg.repeatAbortAfter > 0 && RepeatRun(log) >= cfg.repeatAbortAfter
  }

  /** The message a result becomes: a second and later identical failure carries a warning. */
  function ResultMessage(cfg: Config, call: ToolCall, result: ToolResult, log: seq<Executed>): Message {
    var n := RepeatRun(log);
    ToolMessage(call.id,
      if cfg.repeatAbortAfter > 0 && n > 1 then result.content + cfg.warning(call.name, n) else result.content)
  }

  datatype Execution = Execution(
    events: seq<Event>, results: History, log: seq<Executed>, aborted: Option<Event>)

  /** One more call, unless the repeat check has fired. */
  function ExecuteStep(cfg: Config, before: Execution, call: ToolCall, result: ToolResult): Execution {
    if before.aborted.Some? then before
    else
      var log := before.log + [Executed(FailureKey(call), result.isError)];
      var events := before.events + [ToolFinished(call.id, result.isError)];
      if Aborts(cfg, log) then
        Execution(events, before.results, log,
          Some(Done(StatusAbortedRepeat, RepeatedFailure(call.name, cfg.repeatAbortAfter))))
      else
        Execution(events, before.results + [ResultMessage(cfg, call, result, log)], log, None)
  }

  /** The first `k` calls of turn `t`, executed in order until the repeat check fires. */
  function Execute(cfg: Config, world: World, t: nat, calls: seq<ToolCall>, k: nat, log: seq<Executed>): Execution
    requires k <= |calls|
  {
    if k == 0 then Execution([], [], log, None)
    else ExecuteStep(cfg, Execute(cfg, world, t, calls, k - 1, log), calls[k - 1], (world.tool)(t, k - 1))
  }

  // ---------------------------------------------------------------- runs

  datatype TurnEnd =
    | Continues(history: History, log: seq<Executed>)
    | Finishes(done: Event)
    | Fails(error: AgentError)

  /** What one iteration of the loop starts from, the request it sends, its events, how it ends. */
  datatype Turn = Turn(
    history: History, log: seq<Executed>,
    request: Option<History>, text: string, calls: seq<ToolCall>, events: seq<Event>, end: TurnEnd)

  function TakeTurn(cfg: Config, world: World, t: nat, history: History, log: seq<Executed>): Turn {
    if (world.cancelled)(t) then
      Turn(history, log, None, "", [], [], Finishes(Done(StatusAborted, CancelledByUser)))
    else if Count(history) > cfg.hardLimit then
      Turn(history, log, None, "", [], [], Fails(ContextBudgetExhausted(Count(history), cfg.hardLimit)))
    else
      var request := Compacted(cfg.budget, history);
      match (world.provider)(t)
      case Refused(error) => Turn(history, log, Some(request), "", [], [], Fails(ProviderError(error)))
      case Streaming(chunks) => AnsweredTurn(cfg, world, t, history, log, request, chunks)
  }

  /** A turn whose request the provider answers. */
  function AnsweredTurn(
    cfg: Config, world: World, t: nat, history: History, log: seq<Executed>, request: History, chunks: seq<Chunk>)
    : (turn: Turn)
    ensures turn.history == history && turn.log == log && turn.request == Some(request)
  {
    var read := chunks[..TurnLength(chunks)];
    var text, calls, streamed := TextOf(read), CallsIn(read), StreamEvents(read);
    if StreamError(chunks).Some? then
      Turn(history, log, Some(request), text, calls, streamed, Fails(ProviderError(StreamError(chunks).value)))
    else if calls == [] then
      Turn(history, log, Some(request), text, calls, streamed, Finishes(Done(StatusDone, ModelText(text))))
    else
      ToolTurn(history, log, request, text, calls, streamed, Execute(cfg, world, t, calls, |calls|, log))
  }

  /** A turn in which tools are executed. */
  function ToolTurn(
    history: History, log: seq<Executed>, request: History, text: string, calls: seq<ToolCall>,
    streamed: seq<Event>, executed: Execution): (turn: Turn)
    ensures turn.history == history && turn.log == log && turn.request == Some(request)
    ensures turn.text == text && turn.calls == calls
  {
    Turn(history, log, Some(request), text, calls, streamed + executed.events,
      if executed.aborted.Some? then Finishes(executed.aborted.value)
      else Continues(request + [AssistantMessage(text, calls)] + executed.results, executed.log))
  }

  function InitialHistory(system: string, chatHistory: History, task: string): History {
    [SystemMessage(system)] + chatHistory + [UserMessage(task)]
  }

  /** Turn `k` starts where turn `k - 1` left off and does what the loop body does. */
  ghost predicate IsTurn(cfg: Config, world: World, first: History, turns: seq<Turn>, k: nat)
    requires k < |turns|
  {
    && (if k == 0 then turns[k].history == first && turns[k].log == []
        else turns[k - 1].end == Continues(turns[k].history, turns[k].log))
    && turns[k] == TakeTurn(cfg, world, k, turns[k].history, turns[k].log)
  }

  ghost predicate AreTurns(cfg: Config, world: World, first: History, turns: seq<Turn>) {
    forall k :: 0 <= k < |turns| ==> IsTurn(cfg, world, first, turns, k)
  }

  /** All turns of one run: it goes on until a turn ends it or the iterations are used up. */
  ghost predicate IsRun(cfg: Config, world: World, first: History, turns: seq<Turn>) {
    && AreTurns(cfg, world, first, turns)
    && |turns| <= cfg.maxIterations
    && (|turns| < cfg.maxIterations ==> turns != [] && !turns[|turns| - 1].end.Continues?)
  }

  function FailureEvent(e: AgentError): Event {
    Done(StatusFailed(e), ErrorSummary(e))
  }

  /** The event a run ends with; errors are turned into one by the task that drives the loop. */
  function EndEvent(cfg: Config, turns: seq<Turn>): Event {
    if turns == [] || turns[|turns| - 1].end.Continues? then FailureEvent(MaxIterationsReached(cfg.maxIterations))
    else match turns[|turns| - 1].end
      case Finishes(done) => done
      case Fails(error) => FailureEvent(error)
  }

  function TurnEvents(turns: seq<Turn>): seq<Event> {
    if turns == [] then [] else TurnEvents(turns[..|turns| - 1]) + turns[|turns| - 1].events
  }

  function Requests(turns: seq<Turn>): seq<History> {
    if turns == [] then []
    else Requests(turns[..|turns| - 1]) + match turns[|turns| - 1].request
      case Some(h) => [h]
      case None => []
  }

  // ---------------------------------------------------------------- the algorithm

  /** The `while let Some(chunk)` loop. */
  method ReadStream(chunks: seq<Chunk>)
    returns (events: seq<Event>, textBuf: string, toolCalls: seq<ToolCall>, error: Option<string>)
    ensures var read := chunks[..TurnLength(chunks)];
      events == StreamEvents(read) && textBuf == TextOf(read) && toolCalls == CallsIn(read)
    ensures error == StreamError(chunks)
  {
    events, textBuf, toolCalls, error := [], "", [], None;
    var k := 0;
    while k < |chunks|
      invariant k <= |chunks| && TurnLength(chunks) == k + TurnLength(chunks[k..])
      invariant events == StreamEvents(chunks[..k]) && textBuf == TextOf(chunks[..k])
      invariant toolCalls == CallsIn(chunks[..k])
      invariant error == None
    {
      NextChunk(chunks, k);
      assert [chunks[k]][..0] == [];
      match chunks[k] {
        case BrokenChunk(e) =>
          error := Some(e);
          return;
        case TextChunk(delta) =>
          if delta != "" {
            textBuf := textBuf + delta;
            events := events + [TextDelta(delta)];
          }
        case ToolUseChunk(call) =>
          events := events + [ToolStarted(call)];
          toolCalls := toolCalls + [call];
        case DoneChunk =>
          return;
      }
      k := k + 1;
    }
  }

  lemma NextChunk(chunks: seq<Chunk>, k: nat)
    requires k < |chunks|
    ensures TextOf(chunks[..k + 1]) == TextOf(chunks[..k]) + TextOf([chunks[k]])
    ensures CallsIn(chunks[..k + 1]) == CallsIn(chunks[..k]) + CallsIn([chunks[k]])
    ensures StreamEvents(chunks[..k + 1]) == StreamEvents(chunks[..k]) + StreamEvents([chunks[k]])
    ensures TurnLength(chunks[k..]) ==
      if chunks[k].DoneChunk? || chunks[k].BrokenChunk? then 0 else 1 + TurnLength(chunks[k + 1..])
  {
    assert [chunks[k]][..0] == [];
    assert chunks[..k + 1][..k] == chunks[..k] && chunks[k..][1..] == chunks[k + 1..];
  }

  /** The two repeat-tracking variables of the loop describe the end of the log. */
  ghost predicate Tracks(cfg: Config, log: seq<Executed>, lastFailureKey: Option<string>, repeatCount: nat) {
    cfg.repeatAbortAfter > 0 ==>
      && repeatCount == RepeatRun(log)
      && lastFailureKey == if log != [] && log[|log| - 1].isError then Some(log[|log| - 1].key) else None
  }

  /** Counts consecutive failures under one key; anything else resets the count. */
  method TrackResult(
    cfg: Config, call: ToolCall, isError: bool, key: Option<string>, count: nat, ghost log: seq<Executed>)
    returns (lastFailureKey: Option<string>, repeatCount: nat)
    requires Tracks(cfg, log, key, count)
    ensures Tracks(cfg, log + [Executed(FailureKey(call), isError)], lastFailureKey, repeatCount)
  {
    ghost var log' := log + [Executed(FailureKey(call), isError)];
    assert log'[..|log'| - 1] == log;
    if isError && cfg.repeatAbortAfter > 0 {
      var failure := FailureKey(call);
      if key == Some(failure) {
        lastFailureKey := key;
        repeatCount := count + 1;
      } else {
        lastFailureKey := Some(failure);
        repeatCount := 1;
      }
    } else {
      lastFailureKey := None;
      repeatCount := 0;
    }
  }

  /** Executes one call: the body of the tool loop. */
  method ExecuteOne(
    cfg: Config, call: ToolCall, result: ToolResult, key: Option<string>, count: nat,
    events: seq<Event>, results: History, ghost log: seq<Executed>)
    returns (
      events': seq<Event>, results': History, lastFailureKey: Option<string>, repeatCount: nat,
      done: Option<Event>, ghost log': seq<Executed>)
    requires Tracks(cfg, log, key, count)
    ensures var e := ExecuteStep(cfg, Execution(events, results, log, None), call, result);
      events' == e.events && results' == e.results && done == e.aborted && Tracks(cfg, e.log, lastFailureKey, repeatCount)
    ensures log' == ExecuteStep(cfg, Execution(events, results, log, None), call, result).log
  {
    done, results' := None, results;
    lastFailureKey, repeatCount := TrackResult(cfg, call, result.isError, key, count, log);
    log' := log + [Executed(FailureKey(call), result.isError)];
    events' := events + [ToolFinished(call.id, result.isError)];
    var finalContent := result.content;
    if result.isError && cfg.repeatAbortAfter > 0 {
      if repeatCount >= cfg.repeatAbortAfter {
        done := Some(Done(StatusAbortedRepeat, RepeatedFailure(call.name, cfg.repeatAbortAfter)));
        return;
      } else if repeatCount > 1 {
        finalContent := finalContent + cfg.warning(call.name, repeatCount);
      }
    }
    results' := results' + [ToolMessage(call.id, finalContent)];
  }

  /** The tool loop of one turn. */
  method ExecuteCalls(
    cfg: Config, world: World, t: nat, calls: seq<ToolCall>, key: Option<string>, count: nat, ghost log: seq<Executed>)
    returns (
      events: seq<Event>, results: History, lastFailureKey: Option<string>, repeatCount: nat,
      done: Option<Event>, ghost log': seq<Executed>)
    requires Tracks(cfg, log, key, count)
    ensures var e := Execute(cfg, world, t, calls, |calls|, log);
      events == e.events && results == e.results && done == e.aborted && Tracks(cfg, e.log, lastFailureKey, repeatCount)
    ensures log' == Execute(cfg, world, t, calls, |calls|, log).log
  {
    events, results, lastFailureKey, repeatCount, done, log' := [], [], key, count, None, log;
    var k := 0;
    while k < |calls| && done == None
      invariant k <= |calls|
      invariant Execution(events, results, log', done) == Execute(cfg, world, t, calls, k, log)
      invariant Tracks(cfg, log', lastFailureKey, repeatCount)
    {
      events, results, lastFailureKey, repeatCount, done, log' :=
        ExecuteOne(cfg, calls[k], (world.tool)(t, k), lastFailureKey, repeatCount, events, results, log');
      k := k + 1;
    }
    AbortIsFinal(cfg, world, t, calls, k, log);
  }

  /** No call is executed after the repeat check has fired. */
  lemma {:induction false} AbortIsFinal(cfg: Config, world: World, t: nat, calls: seq<ToolCall>, k: nat, log: seq<Executed>)
    requires k <= |calls| && (k == |calls| || Execute(cfg, world, t, calls, k, log).aborted.Some?)
    ensures Execute(cfg, world, t, calls, |calls|, log) == Execute(cfg, world, t, calls, k, log)
    decreases |calls| - k
  {
    if k < |calls| {
      AbortIsFinal(cfg, world, t, calls, k + 1, log);
    }
  }

  /** How an iteration leaves the loop: not at all, by `return Ok(())`, or with an error. */
  datatype Exit = Stay | ReturnOk | ReturnError(error: AgentError)

  function ExitOf(end: TurnEnd): Exit {
    match end
    case Continues(_, _) => Stay
    case Finishes(_) => ReturnOk
    case Fails(error) => ReturnError(error)
  }

  function OwnDone(end: TurnEnd): seq<Event> {
    if end.Finishes? then [end.done] else []
  }

  /** The body of the iteration loop. */
  method Iterate(
    cfg: Config, world: World, t: nat, history: History, key: Option<string>, count: nat, ghost log: seq<Executed>)
    returns (
      request: Option<History>, events: seq<Event>, exit: Exit,
      history': History, lastFailureKey: Option<string>, repeatCount: nat,
      ghost log': seq<Executed>, ghost turn: Turn)
    requires Tracks(cfg, log, key, count)
    ensures var taken := TakeTurn(cfg, world, t, history, log);
      && request == taken.request
      && events == taken.events + OwnDone(taken.end)
      && exit == ExitOf(taken.end)
      && (exit.Stay? ==> taken.end.history == history' && Tracks(cfg, taken.end.log, lastFailureKey, repeatCount))
    ensures turn == TakeTurn(cfg, world, t, history, log) && turn.history == history && turn.log == log
    ensures exit.Stay? ==> log' == turn.end.log
  {
    request, events, exit, history', lastFailureKey, repeatCount, log' := None, [], Stay, history, key, count, log;
    turn := TakeTurn(cfg, world, t, history, log);
    if (world.cancelled)(t) {
      events, exit := [Done(StatusAborted, CancelledByUser)], ReturnOk;
      return;
    }
    if Count(history) > cfg.hardLimit {
      exit := ReturnError(ContextBudgetExhausted(Count(history), cfg.hardLimit));
      return;
    }
    history' := Compact(cfg.budget, history);
    request := Some(history');
    match (world.provider)(t) {
      case Refused(e) =>
        exit := ReturnError(ProviderError(e));
      case Streaming(chunks) =>
        var textBuf, toolCalls, broken;
        events, textBuf, toolCalls, broken := ReadStream(chunks);
        if broken.Some? {
          exit := ReturnError(ProviderError(broken.value));
          return;
        }
        history' := history' + [AssistantMessage(textBuf, toolCalls)];
        if toolCalls == [] {
          events, exit := events + [Done(StatusDone, ModelText(textBuf))], ReturnOk;
          return;
        }
        var finished, results, done;
        finished, results, lastFailureKey, repeatCount, done, log' :=
          ExecuteCalls(cfg, world, t, toolCalls, key, count, log);
        events := events + finished;
        if done.Some? {
          events, exit := events + [done.value], ReturnOk;
          return;
        }
        history' := history' + results;
    }
  }

  lemma TurnsSnoc(turns: seq<Turn>, turn: Turn)
    ensures TurnEvents(turns + [turn]) == TurnEvents(turns) + turn.events
    ensures Requests(turns + [turn]) == Requests(turns) + match turn.request case Some(h) => [h] case None => []
  {
    assert (turns + [turn])[..|turns|] == turns;
  }

  /** The turns so far leave the loop with this history and this log. */
  ghost predicate LeavesWith(first: History, turns: seq<Turn>, history: History, log: seq<Executed>) {
    if turns == [] then history == first && log == []
    else turns[|turns| - 1].end == Continues(history, log)
  }

  lemma AreTurnsSnoc(cfg: Config, world: World, first: History, turns: seq<Turn>, turn: Turn)
    requires AreTurns(cfg, world, first, turns) && LeavesWith(first, turns, turn.history, turn.log)
    requires turn == TakeTurn(cfg, world, |turns|, turn.history, turn.log)
    ensures AreTurns(cfg, world, first, turns + [turn])
    ensures !turn.end.Continues? && |turns| < cfg.maxIterations ==> IsRun(cfg, world, first, turns + [turn])
    ensures turn.end.Continues? ==> LeavesWith(first, turns + [turn], turn.end.history, turn.end.log)
  {
    var more := turns + [turn];
    forall k | 0 <= k < |more|
      ensures IsTurn(cfg, world, first, more, k)
    {
      if k < |turns| {
        assert IsTurn(cfg, world, first, turns, k);
      }
    }
  }

  /** `turns` are the turns of the loop: it sends their requests and events and exits as the last one ends. */
  ghost predicate Iterated(
    cfg: Config, world: World, first: History, turns: seq<Turn>, events: seq<Event>, requests: seq<History>, exit: Exit)
  {
    && IsRun(cfg, world, first, turns)
    && requests == Requests(turns)
    && events == TurnEvents(turns) + (if turns == [] then [] else OwnDone(turns[|turns| - 1].end))
    && exit == if turns == [] then Stay else ExitOf(turns[|turns| - 1].end)
  }

  /** The iteration loop; the turn that ended it, if one did, is the last of `turns`. */
  method Iterations(cfg: Config, world: World, first: History)
    returns (events: seq<Event>, requests: seq<History>, exit: Exit, ghost turns: seq<Turn>)
    ensures Iterated(cfg, world, first, turns, events, requests, exit)
    ensures exists ts :: Iterated(cfg, world, first, ts, events, requests, exit)
  {
    events, requests, exit, turns := [], [], Stay, [];
    var history := first;
    var lastFailureKey: Option<string>, repeatCount: nat := None, 0;
    ghost var log: seq<Executed> := [];
    for iteration := 0 to cfg.maxIterations
      invariant exit == Stay && |turns| == iteration
      invariant AreTurns(cfg, world, first, turns) && LeavesWith(first, turns, history, log)
      invariant events == TurnEvents(turns) && requests == Requests(turns)
      invariant Tracks(cfg, log, lastFailureKey, repeatCount)
    {
      var request, sent;
      ghost var turn;
      request, sent, exit, history, lastFailureKey, repeatCount, log, turn :=
        Iterate(cfg, world, iteration, history, lastFailureKey, repeatCount, log);
      AreTurnsSnoc(cfg, world, first, turns, turn);
      TurnsSnoc(turns, turn);
      turns := turns + [turn];
      events := events + sent;
      if request.Some? {
        requests := requests + [request.value];
      }
      if exit != Stay {
        assert Iterated(cfg, world, first, turns, events, requests, exit);
        return;
      }
    }
    assert Iterated(cfg, world, first, turns, events, requests, exit);
  }

  /** The loop of these turns sends its own done event, or returns the error that becomes it. */
  ghost predicate Driven(
    cfg: Config, world: World, first: History, turns: seq<Turn>,
    events: seq<Event>, requests: seq<History>, error: Option<AgentError>)
  {
    && IsRun(cfg, world, first, turns)
    && requests == Requests(turns)
    && match error
       case None => events == TurnEvents(turns) + [EndEvent(cfg, turns)]
       case Some(e) => events == TurnEvents(turns) && EndEvent(cfg, turns) == FailureEvent(e)
  }

  method DriveLoop(cfg: Config, world: World, system: string, chatHistory: History, task: string)
    returns (events: seq<Event>, requests: seq<History>, error: Option<AgentError>, ghost turns: seq<Turn>)
    ensures Driven(cfg, world, InitialHistory(system, chatHistory, task), turns, events, requests, error)
    ensures exists ts :: Driven(cfg, world, InitialHistory(system, chatHistory, task), ts, events, requests, error)
  {
    var history := [SystemMessage(system)];
    history := history + chatHistory;
    history := history + [UserMessage(task)];
    var exit;
    events, requests, exit, turns := Iterations(cfg, world, history);
    error := match exit
      case Stay => Some(MaxIterationsReached(cfg.maxIterations))
      case ReturnOk => None
      case ReturnError(e) => Some(e);
    assert Driven(cfg, world, InitialHistory(system, chatHistory, task), turns, events, requests, error);
  }

  /** What is sent in a run of these turns: their events and one last event, and their requests. */
  ghost predicate RunSends(
    cfg: Config, world: World, first: History, turns: seq<Turn>, events: seq<Event>, requests: seq<History>)
  {
    IsRun(cfg, world, first, turns) && events == TurnEvents(turns) + [EndEvent(cfg, turns)] && requests == Requests(turns)
  }

  /** The spawned task: runs the loop and turns its error, if any, into a last event. */
  method Run(cfg: Config, world: World, system: string, chatHistory: History, task: string)
    returns (events: seq<Event>, requests: seq<History>, ghost turns: seq<Turn>)
    ensures RunSends(cfg, world, InitialHistory(system, chatHistory, task), turns, events, requests)
    ensures exists ts :: RunSends(cfg, world, InitialHistory(system, chatHistory, task), ts, events, requests)
  {
    var error;
    events, requests, error, turns := DriveLoop(cfg, world, system, chatHistory, task);
    if error.Some? {
      events := events + [FailureEvent(error.value)];
    }
    assert RunSends(cfg, world, InitialHistory(system, chatHistory, task), turns, events, requests);
  }
}
