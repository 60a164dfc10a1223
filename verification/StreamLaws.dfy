// What a stream of chunks is read as, chunk by chunk: its text, its calls, the events sent meanwhile,
// where reading stops and with which error.
module StreamLaws {
  import opened Text
  import opened Context
  import opened AgentLoop

  // ---------------------------------------------------------------- text, calls and events

  lemma {:induction false} ReadingConcat(a: seq<Chunk>, b: seq<Chunk>)
    ensures TextOf(a + b) == TextOf(a) + TextOf(b)
    ensures CallsIn(a + b) == CallsIn(a) + CallsIn(b)
    ensures StreamEvents(a + b) == StreamEvents(a) + StreamEvents(b)
  {
    if b == [] {
      assert a + b == a;
    } else {
      var front, last := b[..|b| - 1], [b[|b| - 1]];
      ReadingConcat(a, front);
      assert b == front + last && a + b == (a + front) + last;
      ReadingSnoc(a + front, last[0]);
      ReadingSnoc(front, last[0]);
      Associates(TextOf(a), TextOf(front), TextOf(last));
      Associates(CallsIn(a), CallsIn(front), CallsIn(last));
      Associates(StreamEvents(a), StreamEvents(front), StreamEvents(last));
    }
  }

  lemma ReadingSnoc(chunks: seq<Chunk>, c: Chunk)
    ensures TextOf(chunks + [c]) == TextOf(chunks) + TextOf([c])
    ensures CallsIn(chunks + [c]) == CallsIn(chunks) + CallsIn([c])
    ensures StreamEvents(chunks + [c]) == StreamEvents(chunks) + StreamEvents([c])
  {
    assert (chunks + [c])[..|chunks|] == chunks && [c][..0] == [];
  }

  lemma ReadingAround(a: seq<Chunk>, c: Chunk, b: seq<Chunk>)
    ensures TextOf(a + [c] + b) == TextOf(a) + TextOf([c]) + TextOf(b)
    ensures CallsIn(a + [c] + b) == CallsIn(a) + CallsIn([c]) + CallsIn(b)
    ensures StreamEvents(a + [c] + b) == StreamEvents(a) + StreamEvents([c]) + StreamEvents(b)
  {
    ReadingConcat(a, [c]);
    ReadingConcat(a + [c], b);
  }

  /** A text chunk adds its text where it stands, and is sent on unless it is empty. */
  lemma TextIsRead(a: seq<Chunk>, delta: string, b: seq<Chunk>)
    ensures var chunks := a + [TextChunk(delta)] + b;
      && TextOf(chunks) == TextOf(a) + delta + TextOf(b)
      && CallsIn(chunks) == CallsIn(a) + CallsIn(b)
      && StreamEvents(chunks) == StreamEvents(a) + (if delta == "" then [] else [TextDelta(delta)]) + StreamEvents(b)
  {
    ReadingAround(a, TextChunk(delta), b);
    assert [TextChunk(delta)][..0] == [];
    assert TextOf([]) == "" && CallsIn([TextChunk(delta)]) == [];
    assert CallsIn(a) + [] == CallsIn(a);
  }

  /** A tool call is announced and collected where it stands. */
  lemma CallIsRead(a: seq<Chunk>, call: ToolCall, b: seq<Chunk>)
    ensures var chunks := a + [ToolUseChunk(call)] + b;
      && TextOf(chunks) == TextOf(a) + TextOf(b)
      && CallsIn(chunks) == CallsIn(a) + [call] + CallsIn(b)
      && StreamEvents(chunks) == StreamEvents(a) + [ToolStarted(call)] + StreamEvents(b)
  {
    ReadingAround(a, ToolUseChunk(call), b);
    assert [ToolUseChunk(call)][..0] == [];
    assert TextOf([ToolUseChunk(call)]) == "";
    assert TextOf(a) + "" == TextOf(a);
  }

  // ---------------------------------------------------------------- what subscribers can tell

  /** The calls that are announced. */
  function StartedCalls(events: seq<Event>): seq<ToolCall> {
    if events == [] then []
    else StartedCalls(events[..|events| - 1]) + match events[|events| - 1]
      case ToolStarted(call) => [call]
      case _ => []
  }

  lemma {:induction false} SentConcat(a: seq<Event>, b: seq<Event>)
    ensures AllText(a + b) == AllText(a) + AllText(b)
    ensures StartedCalls(a + b) == StartedCalls(a) + StartedCalls(b)
  {
    if b == [] {
      assert a + b == a;
    } else {
      var front, last := b[..|b| - 1], b[|b| - 1];
      SentConcat(a, front);
      assert b == front + [last] && a + b == (a + front) + [last];
      SentSnoc(a + front, last);
      SentSnoc(front, last);
      Associates(AllText(a), AllText(front), AllText([last]));
      Associates(StartedCalls(a), StartedCalls(front), StartedCalls([last]));
    }
  }

  lemma SentSnoc(events: seq<Event>, e: Event)
    ensures AllText(events + [e]) == AllText(events) + AllText([e])
    ensures StartedCalls(events + [e]) == StartedCalls(events) + StartedCalls([e])
  {
    assert (events + [e])[..|events|] == events && [e][..0] == [];
  }

  /** A delta adds its text where it stands; nothing else does. */
  lemma DeltaIsText(a: seq<Event>, e: Event, b: seq<Event>)
    ensures AllText(a + [e] + b) == AllText(a) + (if e.TextDelta? then e.delta else "") + AllText(b)
    ensures StartedCalls(a + [e] + b)
      == StartedCalls(a) + (if e.ToolStarted? then [e.call] else []) + StartedCalls(b)
  {
    SentConcat(a, [e]);
    SentConcat(a + [e], b);
    assert [e][..0] == [];
  }

  /** The text read is the text of the deltas sent, and the calls are those announced. */
  lemma {:induction false} StreamIsSent(chunks: seq<Chunk>)
    ensures AllText(StreamEvents(chunks)) == TextOf(chunks)
    ensures StartedCalls(StreamEvents(chunks)) == CallsIn(chunks)
  {
    if chunks != [] {
      var front, c := chunks[..|chunks| - 1], chunks[|chunks| - 1];
      StreamIsSent(front);
      SentConcat(StreamEvents(front), StreamEvents([c]));
      ReadingSnoc(front, c);
      assert chunks == front + [c];
      ChunkIsSent(c);
    }
  }

  lemma ChunkIsSent(c: Chunk)
    ensures AllText(StreamEvents([c])) == TextOf([c])
    ensures StartedCalls(StreamEvents([c])) == CallsIn([c])
  {
    assert [c][..0] == [];
    assert forall e: Event :: [e][..0] == [];
  }

  lemma {:induction false} ResultsSendNoText(events: seq<Event>)
    requires forall k :: 0 <= k < |events| ==> events[k].ToolFinished?
    ensures AllText(events) == "" && StartedCalls(events) == []
  {
    if events != [] {
      ResultsSendNoText(events[..|events| - 1]);
    }
  }

  lemma {:induction false} ExecutionFinishes(
    cfg: Config, world: World, t: nat, calls: seq<ToolCall>, k: nat, log: seq<Executed>)
    requires k <= |calls|
    ensures forall i :: 0 <= i < |Execute(cfg, world, t, calls, k, log).events| ==>
      Execute(cfg, world, t, calls, k, log).events[i].ToolFinished?
  {
    if k > 0 {
      ExecutionFinishes(cfg, world, t, calls, k - 1, log);
    }
  }

  /** The text of a turn is that of the deltas it sends, and its calls are those it announces. */
  lemma TurnIsSent(cfg: Config, world: World, t: nat, history: History, log: seq<Executed>)
    ensures var turn := TakeTurn(cfg, world, t, history, log);
      turn.text == AllText(turn.events) && turn.calls == StartedCalls(turn.events)
  {
    var turn := TakeTurn(cfg, world, t, history, log);
    if turn.request.Some? && (world.provider)(t).Streaming? {
      var chunks := (world.provider)(t).chunks;
      var read := chunks[..TurnLength(chunks)];
      StreamIsSent(read);
      if StreamError(chunks).None? && turn.calls != [] {
        var finished := Execute(cfg, world, t, turn.calls, |turn.calls|, log).events;
        ExecutionFinishes(cfg, world, t, turn.calls, |turn.calls|, log);
        ResultsSendNoText(finished);
        SentConcat(StreamEvents(read), finished);
      }
    }
  }

  // ---------------------------------------------------------------- where reading stops

  predicate StopsReading(c: Chunk) {
    c.DoneChunk? || c.BrokenChunk?
  }

  /** Reading stops before the first end marker or error, or at the end of the stream. */
  lemma {:induction false} TurnLengthIsFirstStop(chunks: seq<Chunk>)
    ensures forall k :: 0 <= k < TurnLength(chunks) ==> !StopsReading(chunks[k])
    ensures TurnLength(chunks) < |chunks| ==> StopsReading(chunks[TurnLength(chunks)])
  {
    if chunks != [] && !StopsReading(chunks[0]) {
      TurnLengthIsFirstStop(chunks[1..]);
      assert forall k :: 1 <= k < TurnLength(chunks) ==> chunks[k] == chunks[1..][k - 1];
    }
  }

  predicate FailsAt(chunks: seq<Chunk>, n: nat, error: string) {
    n < |chunks| && chunks[n] == BrokenChunk(error) && forall k :: 0 <= k < n ==> !StopsReading(chunks[k])
  }

  /** A stream fails with the first error, unless it ends before. */
  lemma StreamFailsIff(chunks: seq<Chunk>, error: string)
    ensures StreamError(chunks) == Some(error) <==> exists n: nat :: FailsAt(chunks, n, error)
  {
    TurnLengthIsFirstStop(chunks);
    if StreamError(chunks) == Some(error) {
      assert FailsAt(chunks, TurnLength(chunks), error);
    }
    if n: nat :| FailsAt(chunks, n, error) {
      assert StopsReading(chunks[n]);
      assert n == TurnLength(chunks);
    }
  }
}
