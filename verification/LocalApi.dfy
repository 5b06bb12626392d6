/** The agent's Local_API: framing of the named pipe and the life of one connection's
    subscription (apps/agent/src/local-api.ts). */
module LocalApi {
  import opened JsText
  import opened Protocol

  // ----- Newline-delimited frames -----

  predicate Blank(line: string) {
    Trim(line) == ""
  }

  /** The frames among complete lines: the blank ones are skipped. */
  function Frames(lines: seq<string>): seq<string> {
    if lines == [] then []
    else
      var last := lines[|lines| - 1];
      Frames(lines[..|lines| - 1]) + if Blank(last) then [] else [last]
  }

  /** Each line followed by its newline. */
  function Terminated(lines: seq<string>): string {
    if lines == [] then "" else lines[0] + "\n" + Terminated(lines[1..])
  }

  /** `text` is these complete lines and then this unterminated rest. */
  ghost predicate Splits(text: string, lines: seq<string>, rest: string) {
    && text == Terminated(lines) + rest
    && (forall line :: line in lines ==> '\n' !in line)
    && '\n' !in rest
  }

  lemma {:induction false} TerminatedAppend(lines: seq<string>, line: string)
    ensures Terminated(lines + [line]) == Terminated(lines) + line + "\n"
  {
    if lines == [] {
      assert [] + [line] == [line];
      assert Terminated([line]) == line + "\n" + Terminated([]);
    } else {
      assert (lines + [line])[1..] == lines[1..] + [line];
      TerminatedAppend(lines[1..], line);
      assert lines[0] + "\n" + (Terminated(lines[1..]) + line + "\n")
          == (lines[0] + "\n" + Terminated(lines[1..])) + line + "\n";
    }
  }

  /** The length of the text before its first newline. */
  function HeadLength(text: string): (n: nat)
    ensures n <= |text| && '\n' !in text[..n]
    ensures n < |text| ==> text[n] == '\n'
  {
    if text == "" || text[0] == '\n' then 0
    else
      var n := 1 + HeadLength(text[1..]);
      assert text[..n] == [text[0]] + text[1..][..n - 1];
      n
  }

  lemma {:induction false} HeadLengthOf(line: string, rest: string)
    requires '\n' !in line
    ensures HeadLength(line) == |line|
    ensures HeadLength(line + "\n" + rest) == |line|
  {
    if line == "" {
      assert line + "\n" + rest == "\n" + rest;
    } else {
      assert (line + "\n" + rest)[1..] == line[1..] + "\n" + rest;
      HeadLengthOf(line[1..], rest);
    }
  }

  lemma SplitHead(text: string, lines: seq<string>, rest: string)
    requires Splits(text, lines, rest)
    ensures lines == [] <==> HeadLength(text) == |text|
    ensures lines == [] ==> rest == text
    ensures lines != [] ==>
              lines[0] == text[..HeadLength(text)] && Splits(text[HeadLength(text) + 1..], lines[1..], rest)
  {
    if lines == [] {
      HeadLengthOf(rest, "");
    } else {
      var tail := Terminated(lines[1..]) + rest;
      assert text == lines[0] + "\n" + tail;
      HeadLengthOf(lines[0], tail);
      assert text[|lines[0]| + 1..] == tail;
    }
  }

  /** A text splits in one way only. */
  lemma {:induction false} SplitIsUnique(text: string, lines1: seq<string>, rest1: string,
                                         lines2: seq<string>, rest2: string)
    requires Splits(text, lines1, rest1) && Splits(text, lines2, rest2)
    ensures lines1 == lines2 && rest1 == rest2
    decreases |lines1|
  {
    hide Splits, HeadLength;
    SplitHead(text, lines1, rest1);
    SplitHead(text, lines2, rest2);
    if lines1 != [] {
      SplitIsUnique(text[HeadLength(text) + 1..], lines1[1..], rest1, lines2[1..], rest2);
      assert lines1 == [lines1[0]] + lines1[1..] && lines2 == [lines2[0]] + lines2[1..];
    }
  }

  /** The position of the first newline. */
  method IndexOfNewline(text: string) returns (idx: Option<nat>)
    ensures idx.None? ==> '\n' !in text
    ensures idx.Some? ==> idx.value < |text| && text[idx.value] == '\n' && '\n' !in text[..idx.value]
  {
    for i := 0 to |text|
      invariant '\n' !in text[..i]
    {
      if text[i] == '\n' {
        return Some(i);
      }
    }
    return None;
  }

  /** One pipe connection. `received` is everything read so far, `lines` its complete
      lines. */
  class PipeReader {
    var buffer: string
    var dispatched: seq<string>
    ghost var received: string
    ghost var lines: seq<string>

    ghost predicate Valid()
      reads this
    {
      Splits(received, lines, buffer) && dispatched == Frames(lines)
    }

    constructor ()
      ensures Valid() && received == ""
    {
      buffer, dispatched := "", [];
      received, lines := "", [];
    }

    /** Reads one chunk. */
    method OnData(chunk: string)
      requires Valid()
      modifies this
      ensures Valid() && received == old(received) + chunk
    {
      hide Frames, Terminated, Blank;
      received := received + chunk;
      buffer := buffer + chunk;
      assert received == Terminated(lines) + buffer;
      var idx := IndexOfNewline(buffer);
      while idx.Some?
        invariant received == old(received) + chunk
        invariant received == Terminated(lines) + buffer && dispatched == Frames(lines)
        invariant forall line :: line in lines ==> '\n' !in line
        invariant idx.None? ==> '\n' !in buffer
        invariant idx.Some? ==> 0 <= idx.value < |buffer|
        invariant idx.Some? ==> '\n' !in buffer[..idx.value] && buffer[idx.value] == '\n'
        decreases |buffer|
      {
        var line := buffer[..idx.value];
        NextLine(lines, buffer, idx.value);
        buffer := buffer[idx.value + 1..];
        if !Blank(line) {
          dispatched := dispatched + [line];
        }
        lines := lines + [line];
        idx := IndexOfNewline(buffer);
      }
    }
  }

  lemma NextLine(lines: seq<string>, buffer: string, idx: nat)
    requires idx < |buffer| && buffer[idx] == '\n'
    ensures Terminated(lines + [buffer[..idx]]) + buffer[idx + 1..] == Terminated(lines) + buffer
    ensures Frames(lines + [buffer[..idx]]) == Frames(lines) + if Blank(buffer[..idx]) then [] else [buffer[..idx]]
  {
    var line := buffer[..idx];
    var rest := buffer[idx + 1..];
    assert buffer == line + "\n" + rest;
    TerminatedAppend(lines, line);
    assert (Terminated(lines) + line + "\n") + rest == Terminated(lines) + (line + "\n" + rest);
    assert (lines + [line])[..|lines|] == lines;
  }

  function Concat(chunks: seq<string>): string {
    if chunks == [] then "" else Concat(chunks[..|chunks| - 1]) + chunks[|chunks| - 1]
  }

  /** Concatenation joins what the parts give, and one chunk is itself. */
  lemma {:induction false} ConcatJoins(left: seq<string>, right: seq<string>)
    ensures Concat(left + right) == Concat(left) + Concat(right)
    ensures forall chunk :: Concat([chunk]) == chunk
  {
    if right == [] {
      assert left + right == left;
    } else {
      var init, last := right[..|right| - 1], right[|right| - 1];
      assert (left + right)[..|left + right| - 1] == left + init;
      ConcatJoins(left, init);
    }
  }

  lemma {:induction false} FramesJoin(left: seq<string>, right: seq<string>)
    ensures Frames(left + right) == Frames(left) + Frames(right)
  {
    hide Blank;
    if right == [] {
      assert left + right == left;
    } else {
      var init, last := right[..|right| - 1], right[|right| - 1];
      assert (left + right)[..|left + right| - 1] == left + init;
      FramesJoin(left, init);
      var more := if Blank(last) then [] else [last];
      assert Frames(left) + (Frames(init) + more) == (Frames(left) + Frames(init)) + more;
    }
  }

  /** A line is a frame unless it is all white space. */
  lemma FrameIff(line: string)
    ensures Frames([line]) == if AllSpace(line) then [] else [line]
  {
    TrimmedAwayIff(line);
    assert Frames([]) == [];
  }

  /** Reads a whole series of chunks: what is dispatched depends only on the concatenation. */
  method ReadChunks(chunks: seq<string>, ghost lines: seq<string>, ghost rest: string)
    returns (dispatched: seq<string>, buffered: string)
    requires Splits(Concat(chunks), lines, rest)
    ensures dispatched == Frames(lines) && buffered == rest
  {
    var reader := new PipeReader();
    for i := 0 to |chunks|
      invariant reader.Valid() && reader.received == Concat(chunks[..i])
      invariant fresh(reader)
    {
      assert chunks[..i + 1][..i] == chunks[..i];
      reader.OnData(chunks[i]);
    }
    assert chunks[..|chunks|] == chunks;
    SplitIsUnique(Concat(chunks), reader.lines, reader.buffer, lines, rest);
    return reader.dispatched, reader.buffer;
  }

  /** Every text splits. */
  lemma {:induction false} EveryTextSplits(text: string) returns (lines: seq<string>, rest: string)
    ensures Splits(text, lines, rest)
  {
    if text == "" {
      lines, rest := [], "";
    } else {
      lines, rest := EveryTextSplits(text[1..]);
      assert text == [text[0]] + text[1..];
      if text[0] == '\n' {
        assert Terminated([""] + lines) == "\n" + Terminated(lines) by {
          assert ([""] + lines)[1..] == lines;
        }
        assert "\n" + (Terminated(lines) + rest) == ("\n" + Terminated(lines)) + rest;
        lines := [""] + lines;
      } else if lines == [] {
        rest := [text[0]] + rest;
      } else {
        var longer := [[text[0]] + lines[0]] + lines[1..];
        assert longer[1..] == lines[1..];
        assert Terminated(longer) == [text[0]] + Terminated(lines);
        assert [text[0]] + (Terminated(lines) + rest) == ([text[0]] + Terminated(lines)) + rest;
        lines := longer;
      }
    }
  }

  // ----- One connection's subscription -----

  datatype Subscription = Subscription(subscriptionId: string, response: string)

  /** The one registration under way: waiting for the handler, or answered but not yet
      cleared. */
  datatype Flight = Idle | Waiting | Answered

  datatype ClientState = ClientState(
    closed: bool,
    subscription: Option<Subscription>,
    flight: Flight,
    registered: seq<string>,
    disposed: seq<string>
  )

  /** What can happen to a connection, in any order: a subscribe frame, the handler's answer
      (with the id it registered, if any) or failure, the clearing of the finished
      registration, and a close or error of the socket. */
  datatype ClientEvent =
    | SubscribeFrame
    | HandlerAnswers(subscriptionId: Option<string>, response: string)
    | HandlerFails
    | FlightCleared
    | SocketCloses

  const FRESH_CLIENT := ClientState(false, None, Idle, [], [])

  /** Whether the event can happen now. */
  predicate Enabled(state: ClientState, event: ClientEvent) {
    match event
    case HandlerAnswers(_, _) => state.flight == Waiting
    case HandlerFails => state.flight == Waiting
    case FlightCleared => state.flight == Answered
    case _ => true
  }

  function Next(state: ClientState, event: ClientEvent): ClientState {
    match event
    case SubscribeFrame =>
      if state.subscription.Some? || state.flight != Idle then state else state.(flight := Waiting)
    case HandlerAnswers(subscriptionId, response) =>
      if subscriptionId.None? then state.(flight := Answered)
      else if state.closed then
        state.(flight := Answered,
               registered := state.registered + [subscriptionId.value],
               disposed := state.disposed + [subscriptionId.value])
      else
        state.(flight := Answered,
               registered := state.registered + [subscriptionId.value],
               subscription := Some(Subscription(subscriptionId.value, response)))
    case HandlerFails => state.(flight := Answered)
    case FlightCleared => state.(flight := Idle)
    case SocketCloses =>
      if state.closed then state
      else
        state.(closed := true,
               subscription := None,
               disposed := state.disposed + if state.subscription.Some?
                                            then [state.subscription.value.subscriptionId] else [])
  }

  predicate Possible(state: ClientState, events: seq<ClientEvent>)
    decreases events
  {
    events == [] || (Enabled(state, events[0]) && Possible(Next(state, events[0]), events[1..]))
  }

  function After(state: ClientState, events: seq<ClientEvent>): ClientState
    decreases events
  {
    if events == [] then state else After(Next(state, events[0]), events[1..])
  }

  /** The registration the connection holds. */
  function Live(state: ClientState): seq<string> {
    if state.subscription.Some? then [state.subscription.value.subscriptionId] else []
  }

  ghost predicate Accounted(state: ClientState) {
    && state.registered == state.disposed + Live(state)
    && (state.flight == Waiting ==> state.subscription.None?)
    && (state.closed ==> state.subscription.None?)
    && (!state.closed ==> state.disposed == [])
  }

  lemma NextAccounted(state: ClientState, event: ClientEvent)
    requires Accounted(state) && Enabled(state, event)
    ensures Accounted(Next(state, event))
  {
  }

  /** In every interleaving: an open connection has disposed of nothing and holds at most one
      registration; a closed one has disposed of every registration exactly once, in the order
      they were made. */
  lemma {:induction false} EveryRegistrationIsDisposedOnce(state: ClientState, events: seq<ClientEvent>)
    requires Accounted(state) && Possible(state, events)
    ensures var end := After(state, events);
            && (!end.closed ==> end.disposed == [] && end.registered == Live(end) && |end.registered| <= 1)
            && (end.closed ==> end.disposed == end.registered)
    decreases events
  {
    if events != [] {
      hide Next, Accounted;
      NextAccounted(state, events[0]);
      EveryRegistrationIsDisposedOnce(Next(state, events[0]), events[1..]);
    } else {
      assert state.disposed + [] == state.disposed;
      assert [] + Live(state) == Live(state);
    }
  }

  /** From the close on, no registration is ever kept. */
  lemma {:induction false} ClosedKeepsNothing(state: ClientState, events: seq<ClientEvent>)
    requires Accounted(state) && Possible(state, events) && state.closed
    ensures After(state, events).closed && After(state, events).subscription.None?
    ensures state.disposed <= After(state, events).disposed
    decreases events
  {
    if events != [] {
      NextAccounted(state, events[0]);
      ClosedKeepsNothing(Next(state, events[0]), events[1..]);
    }
  }

  /** A registration starts waiting only for a frame that finds none live and none under way, is
      answered by the handler's answer or failure, and ends when it is cleared. */
  lemma FlightMoves(state: ClientState, event: ClientEvent)
    requires Enabled(state, event)
    ensures var next := Next(state, event);
            && (next.flight == Waiting && state.flight != Waiting
                <==> event.SubscribeFrame? && state.flight == Idle && state.subscription.None?)
            && (next.flight == Answered && state.flight != Answered
                <==> state.flight == Waiting && (event.HandlerAnswers? || event.HandlerFails?))
            && (next.flight == Idle && state.flight != Idle <==> state.flight == Answered && event.FlightCleared?)
  {
  }

  function AnswerOf(event: ClientEvent): seq<Subscription> {
    if event.HandlerAnswers? && event.subscriptionId.Some?
    then [Subscription(event.subscriptionId.value, event.response)] else []
  }

  /** The registrations that the handler answered with. */
  function Answers(events: seq<ClientEvent>): seq<Subscription>
    decreases events
  {
    if events == [] then [] else AnswerOf(events[0]) + Answers(events[1..])
  }

  function Ids(answers: seq<Subscription>): seq<string> {
    seq(|answers|, i requires 0 <= i < |answers| => answers[i].subscriptionId)
  }

  lemma EventTells(state: ClientState, event: ClientEvent)
    ensures var next := Next(state, event); var answer := AnswerOf(event);
            && (next.closed <==> state.closed || event == SocketCloses)
            && next.registered == state.registered + Ids(answer)
            && (!next.closed ==> next.subscription == if answer == [] then state.subscription else Some(answer[0]))
  {
    assert state.registered + Ids([]) == state.registered;
  }

  /** What the events tell of the connection: it is closed when the socket closed, it registered what
      the handler answered with, in order, and an open one holds the last answer. */
  lemma {:induction false} EventsTell(state: ClientState, events: seq<ClientEvent>)
    ensures var end := After(state, events); var answers := Answers(events);
            && (end.closed <==> state.closed || SocketCloses in events)
            && end.registered == state.registered + Ids(answers)
            && (!end.closed ==>
                  end.subscription == if answers == [] then state.subscription else Some(answers[|answers| - 1]))
    decreases events
  {
    hide Next, AnswerOf;
    if events != [] {
      var next := Next(state, events[0]);
      EventTells(state, events[0]);
      EventsTell(next, events[1..]);
      var first, rest := AnswerOf(events[0]), Answers(events[1..]);
      assert SocketCloses in events <==> events[0] == SocketCloses || SocketCloses in events[1..];
      assert state.registered + Ids(first + rest) == (state.registered + Ids(first)) + Ids(rest);
      assert rest == [] ==> first + rest == first;
      AtMostOne(events[0]);
    } else {
      assert state.registered + Ids([]) == state.registered;
    }
  }

  lemma AtMostOne(event: ClientEvent)
    ensures |AnswerOf(event)| <= 1
  {
  }

  /** One authenticated connection. */
  class LocalApiClient {
    var closed: bool
    var subscription: Option<Subscription>
    var flight: Flight
    var disposeStarted: bool
    ghost var registered: seq<string>
    var disposed: seq<string>

    ghost function State(): ClientState
      reads this
    {
      ClientState(closed, subscription, flight, registered, disposed)
    }

    ghost predicate Valid()
      reads this
    {
      Accounted(State()) && disposeStarted == closed
    }

    constructor ()
      ensures Valid() && State() == FRESH_CLIENT
    {
      closed, subscription, flight, disposeStarted := false, None, Idle, false;
      registered, disposed := [], [];
    }

    /** `answer` is the response of the live registration, if there is one already. */
    method SubscribeClient() returns (answer: Option<string>, handlerCalled: bool)
      requires Valid()
      modifies this
      ensures Valid() && State() == Next(old(State()), SubscribeFrame)
      ensures answer.Some? <==> old(subscription).Some?
      ensures answer.Some? ==> answer.value == old(subscription).value.response
      ensures handlerCalled <==> flight == Waiting && old(flight) == Idle
    {
      hide Accounted;
      NextAccounted(State(), SubscribeFrame);
      if subscription.Some? {
        return Some(subscription.value.response), false;
      }
      if flight != Idle {
        return None, false;
      }
      flight := Waiting;
      return None, true;
    }

    method OnAnswer(subscriptionId: Option<string>, response: string)
      requires Valid() && flight == Waiting
      modifies this
      ensures Valid() && State() == Next(old(State()), HandlerAnswers(subscriptionId, response))
    {
      hide Accounted;
      NextAccounted(State(), HandlerAnswers(subscriptionId, response));
      flight := Answered;
      if subscriptionId.Some? {
        var added := Subscription(subscriptionId.value, response);
        registered := registered + [subscriptionId.value];
        if closed {
          DisposeSubscription(Some(added));
        } else {
          subscription := Some(added);
        }
      }
    }

    method OnFailure()
      requires Valid() && flight == Waiting
      modifies this
      ensures Valid() && State() == Next(old(State()), HandlerFails)
    {
      hide Accounted;
      NextAccounted(State(), HandlerFails);
      flight := Answered;
    }

    method ClearFlight()
      requires Valid() && flight == Answered
      modifies this
      ensures Valid() && State() == Next(old(State()), FlightCleared)
    {
      hide Accounted;
      NextAccounted(State(), FlightCleared);
      flight := Idle;
    }

    method DisposeClient()
      requires Valid()
      modifies this
      ensures Valid() && State() == Next(old(State()), SocketCloses)
    {
      hide Accounted;
      NextAccounted(State(), SocketCloses);
      if disposeStarted {
        return;
      }
      closed := true;
      var live := subscription;
      subscription := None;
      DisposeSubscription(live);
      disposeStarted := true;
    }

    method DisposeSubscription(gone: Option<Subscription>)
      modifies this`disposed
      ensures disposed == old(disposed) + if gone.Some? then [gone.value.subscriptionId] else []
    {
      if gone.Some? {
        disposed := disposed + [gone.value.subscriptionId];
      }
    }
  }
}
