/** The MCP bridge's table of pending Local_API requests (apps/cli/src/mcp-bridge.ts). */
module McpRequests {
  import opened Protocol

  datatype Outcome = Resolved(body: string) | Rejected(reason: string) | TimedOut

  /** One call of a request's resolve or reject. */
  datatype Settlement = Settlement(id: nat, outcome: Outcome)

  /** `pending` lists the table's keys in insertion order, `armed` the ids whose timer is
      still set, and `settled` every settlement so far. */
  datatype Client = Client(
    nextId: nat,
    pending: seq<nat>,
    armed: set<nat>,
    authenticationAsked: bool,
    authenticated: bool,
    terminalError: Option<string>,
    closed: bool,
    settled: seq<Settlement>
  )

  const FRESH := Client(1, [], {}, false, false, None, false, [])

  /** What a client meets, in any order. `socketOpen` and `sendThrows` say how the socket
      behaves; `SendReported` is the socket's later report on a frame. */
  datatype Event =
    | Authenticate
    | Request(socketOpen: bool, sendThrows: bool)
    | SendReported(id: nat, failed: bool)
    | TimerFires(id: nat)
    | AuthOk
    | AuthError(message: string)
    | Response(responseTo: int, body: string)
    | ErrorFrame(about: Option<int>, message: string)
    | UpdateFrame
    | UnreadableFrame
    | SocketError(message: string)
    | SocketClosed
    | CloseCalled

  function Without(ids: seq<nat>, id: nat): seq<nat> {
    if ids == [] then []
    else if ids[0] == id then Without(ids[1..], id)
    else [ids[0]] + Without(ids[1..], id)
  }

  function Settled(client: Client, id: nat, outcome: Outcome): Client {
    client.(pending := Without(client.pending, id),
            armed := client.armed - {id},
            settled := client.settled + [Settlement(id, outcome)])
  }

  function RejectedOne(client: Client, id: int, reason: string): Client {
    if id < 0 || id !in client.pending then client else Settled(client, id, Rejected(reason))
  }

  /** Rejects the listed requests in order. */
  function RejectedListed(client: Client, listed: seq<nat>, reason: string): Client {
    if listed == [] then client
    else
      Settled(RejectedListed(client, listed[..|listed| - 1], reason), listed[|listed| - 1], Rejected(reason))
  }

  function RejectedPending(client: Client, reason: string): Client {
    RejectedListed(client, client.pending, reason)
  }

  function Failed(client: Client, error: string): Client {
    if client.terminalError.Some? then client
    else RejectedPending(client.(terminalError := Some(error)), error)
  }

  predicate Ready(client: Client, socketOpen: bool) {
    client.terminalError.None? && !client.closed && socketOpen && client.authenticated
  }

  function Send(client: Client, sendThrows: bool): Client {
    var id := client.nextId;
    var added := client.(nextId := id + 1, pending := client.pending + [id], armed := client.armed + {id});
    if sendThrows then RejectedOne(added, id, "send") else added
  }

  predicate Enabled(client: Client, event: Event) {
    match event
    case TimerFires(id) => id in client.armed
    case SendReported(id, _) => 1 <= id < client.nextId
    case _ => true
  }

  function Next(client: Client, event: Event): Client {
    match event
    case Authenticate => client.(authenticationAsked := client.authenticationAsked || !client.authenticated)
    case Request(socketOpen, sendThrows) => if Ready(client, socketOpen) then Send(client, sendThrows) else client
    case SendReported(id, failed) => if failed then RejectedOne(client, id, "send") else client
    case TimerFires(id) => Settled(client, id, TimedOut)
    case AuthOk =>
      if client.authenticationAsked then client.(authenticated := true) else Failed(client, "unexpected auth_ok")
    case AuthError(message) => Failed(client, message)
    case Response(id, body) =>
      if id < 0 || id !in client.pending then client else Settled(client, id, Resolved(body))
    case ErrorFrame(id, message) =>
      if id.Some? then RejectedOne(client, id.value, message) else Failed(client, message)
    case UpdateFrame => client
    case UnreadableFrame => Failed(client, "unreadable frame")
    case SocketError(message) => Failed(client, message)
    case SocketClosed => Failed(client.(closed := true), "closed")
    case CloseCalled => RejectedPending(client.(closed := true), "closed")
  }

  predicate Possible(client: Client, events: seq<Event>)
    decreases events
  {
    events == [] || (Enabled(client, events[0]) && Possible(Next(client, events[0]), events[1..]))
  }

  function After(client: Client, events: seq<Event>): Client
    decreases events
  {
    if events == [] then client else After(Next(client, events[0]), events[1..])
  }

  // ----- The invariant -----

  function Ids(settled: seq<Settlement>): seq<nat> {
    seq(|settled|, i requires 0 <= i < |settled| => settled[i].id)
  }

  ghost predicate NoRepeats(ids: seq<nat>) {
    forall i, j :: 0 <= i < j < |ids| ==> ids[i] != ids[j]
  }

  /** Every issued id is either pending, with its timer set, or settled once. */
  ghost predicate Booked(client: Client) {
    && client.nextId >= 1
    && NoRepeats(client.pending)
    && NoRepeats(Ids(client.settled))
    && (forall id :: id in client.pending ==> id !in Ids(client.settled))
    && (forall id :: 1 <= id < client.nextId <==> id in client.pending || id in Ids(client.settled))
    && (forall id :: id in client.armed <==> id in client.pending)
  }

  ghost predicate Done(client: Client) {
    client.closed || client.terminalError.Some?
  }

  ghost predicate Sound(client: Client) {
    Booked(client) && (Done(client) ==> client.pending == [])
  }

  lemma {:induction false} WithoutOne(ids: seq<nat>, id: nat)
    requires NoRepeats(ids)
    ensures NoRepeats(Without(ids, id))
    ensures forall other :: other in Without(ids, id) <==> other in ids && other != id
  {
    if ids != [] {
      WithoutOne(ids[1..], id);
      assert forall other :: other in ids <==> other == ids[0] || other in ids[1..];
      assert ids[0] !in ids[1..];
    }
  }

  lemma IdsAppend(settled: seq<Settlement>, last: Settlement)
    ensures Ids(settled + [last]) == Ids(settled) + [last.id]
  {
  }

  lemma SettleBooked(client: Client, id: nat, outcome: Outcome)
    requires Booked(client) && id in client.pending
    ensures Booked(Settled(client, id, outcome))
    ensures forall other :: other in Settled(client, id, outcome).pending <==> other in client.pending && other != id
  {
    WithoutOne(client.pending, id);
    IdsAppend(client.settled, Settlement(id, outcome));
  }

  lemma {:induction false} RejectListedBooked(client: Client, listed: seq<nat>, reason: string)
    requires Booked(client) && NoRepeats(listed)
    requires forall id :: id in listed ==> id in client.pending
    ensures Booked(RejectedListed(client, listed, reason))
    ensures forall id :: id in RejectedListed(client, listed, reason).pending <==> id in client.pending && id !in listed
    ensures RejectedListed(client, listed, reason).closed == client.closed
    ensures RejectedListed(client, listed, reason).terminalError == client.terminalError
    ensures RejectedListed(client, listed, reason).nextId == client.nextId
  {
    hide Booked;
    if listed != [] {
      var shorter := listed[..|listed| - 1];
      var last := listed[|listed| - 1];
      assert forall id :: id in listed <==> id in shorter || id == last;
      RejectListedBooked(client, shorter, reason);
      SettleBooked(RejectedListed(client, shorter, reason), last, Rejected(reason));
    }
  }

  lemma RejectPendingSound(client: Client, reason: string)
    requires Booked(client)
    ensures Sound(RejectedPending(client, reason)) && RejectedPending(client, reason).pending == []
    ensures Done(RejectedPending(client, reason)) == Done(client)
    ensures RejectedPending(client, reason).nextId == client.nextId
  {
    hide RejectedListed;
    RejectListedBooked(client, client.pending, reason);
    var rejected := RejectedListed(client, client.pending, reason);
    if rejected.pending != [] {
      FirstIsMember(rejected.pending);
    }
  }

  lemma FirstIsMember(ids: seq<nat>)
    requires ids != []
    ensures exists id :: id in ids
  {
    assert ids[0] in ids;
  }

  lemma FailSound(client: Client, error: string)
    requires Booked(client) && (client.terminalError.Some? ==> client.pending == [])
    ensures Sound(Failed(client, error)) && Done(Failed(client, error))
    ensures Failed(client, error).nextId == client.nextId
  {
    hide RejectedPending;
    if client.terminalError.None? {
      RejectPendingSound(client.(terminalError := Some(error)), error);
    }
  }

  lemma RejectOneSound(client: Client, id: int, reason: string)
    requires Sound(client)
    ensures Sound(RejectedOne(client, id, reason)) && RejectedOne(client, id, reason).nextId == client.nextId
  {
    if id >= 0 && id in client.pending {
      SettleBooked(client, id, Rejected(reason));
    }
  }

  lemma SendSound(client: Client, sendThrows: bool)
    requires Sound(client) && !Done(client)
    ensures Sound(Send(client, sendThrows))
  {
    var id := client.nextId;
    var added := client.(nextId := id + 1, pending := client.pending + [id], armed := client.armed + {id});
    assert id !in client.pending && id !in Ids(client.settled);
    assert forall other :: other in added.pending <==> other in client.pending || other == id;
    if sendThrows {
      RejectOneSound(added, id, "send");
    }
  }

  lemma NextSound(client: Client, event: Event)
    requires Sound(client) && Enabled(client, event)
    ensures Sound(Next(client, event))
    ensures Done(client) ==> Done(Next(client, event)) && Next(client, event).nextId == client.nextId
  {
    hide Send, Settled, RejectedOne, RejectedPending, Failed, Ids, NoRepeats;
    match event
    case Request(socketOpen, sendThrows) =>
      if Ready(client, socketOpen) { SendSound(client, sendThrows); }
    case SendReported(id, failed) => RejectOneKeeps(client, id, "send");
    case TimerFires(id) => SettleSound(client, id, TimedOut);
    case Response(id, body) =>
      if id >= 0 && id in client.pending { SettleSound(client, id, Resolved(body)); }
    case AuthError(message) => FailSound(client, message);
    case AuthOk => FailSound(client, "unexpected auth_ok");
    case ErrorFrame(id, message) =>
      if id.Some? { RejectOneKeeps(client, id.value, message); } else { FailSound(client, message); }
    case UnreadableFrame => FailSound(client, "unreadable frame");
    case SocketError(message) => FailSound(client, message);
    case SocketClosed => FailSound(client.(closed := true), "closed");
    case CloseCalled => RejectPendingSound(client.(closed := true), "closed");
    case _ =>
  }

  lemma SettleSound(client: Client, id: nat, outcome: Outcome)
    requires Sound(client) && id in client.pending
    ensures Sound(Settled(client, id, outcome)) && !Done(client) && !Done(Settled(client, id, outcome))
    ensures Settled(client, id, outcome).nextId == client.nextId
  {
    SettleBooked(client, id, outcome);
  }

  lemma RejectOneKeeps(client: Client, id: int, reason: string)
    requires Sound(client)
    ensures Sound(RejectedOne(client, id, reason)) && RejectedOne(client, id, reason).nextId == client.nextId
    ensures Done(RejectedOne(client, id, reason)) == Done(client)
  {
    RejectOneSound(client, id, reason);
  }

  // ----- Over every run -----

  /** Every id is issued once and settled at most once, and a pending request always still
      has a timer that will settle it. */
  lemma {:induction false} EachRequestSettlesOnce(client: Client, events: seq<Event>)
    requires Sound(client) && Possible(client, events)
    ensures var end := After(client, events);
            && NoRepeats(Ids(end.settled))
            && (forall id :: id in end.pending ==> id !in Ids(end.settled) && id in end.armed)
            && (forall id :: 1 <= id < end.nextId <==> id in end.pending || id in Ids(end.settled))
            && (Done(end) ==> end.pending == [] && end.armed == {})
    decreases events
  {
    if events != [] {
      hide Sound, Next;
      NextSound(client, events[0]);
      EachRequestSettlesOnce(Next(client, events[0]), events[1..]);
    } else {
      if Done(client) {
        assert forall id :: id !in client.armed;
      }
    }
  }

  /** Once failed or closed, a client issues nothing more and holds nothing pending. */
  lemma {:induction false} DoneStaysDone(client: Client, events: seq<Event>)
    requires Sound(client) && Possible(client, events) && Done(client)
    ensures var end := After(client, events); Done(end) && end.nextId == client.nextId && end.pending == []
    decreases events
  {
    if events != [] {
      hide Sound, Next;
      NextSound(client, events[0]);
      DoneStaysDone(Next(client, events[0]), events[1..]);
    }
  }

  /** A request resolves only with the body of a response frame that carries its own id. */
  lemma {:induction false} ResolvedByItsOwnResponse(client: Client, events: seq<Event>, settlement: Settlement)
    requires Sound(client) && Possible(client, events)
    requires settlement in After(client, events).settled && settlement !in client.settled
    requires settlement.outcome.Resolved?
    ensures Response(settlement.id, settlement.outcome.body) in events
    decreases events
  {
    hide Sound, Next;
    var first := Next(client, events[0]);
    NextSound(client, events[0]);
    if settlement in first.settled {
      ResolvedNow(client, events[0], settlement);
    } else {
      ResolvedByItsOwnResponse(first, events[1..], settlement);
    }
  }

  lemma ResolvedNow(client: Client, event: Event, settlement: Settlement)
    requires settlement in Next(client, event).settled && settlement !in client.settled
    requires settlement.outcome.Resolved?
    ensures event == Response(settlement.id, settlement.outcome.body)
  {
    match event
    case AuthOk => FailNeverResolves(client, "unexpected auth_ok", settlement);
    case AuthError(message) => FailNeverResolves(client, message, settlement);
    case ErrorFrame(id, message) => FailNeverResolves(client, message, settlement);
    case UnreadableFrame => FailNeverResolves(client, "unreadable frame", settlement);
    case SocketError(message) => FailNeverResolves(client, message, settlement);
    case SocketClosed => FailNeverResolves(client.(closed := true), "closed", settlement);
    case CloseCalled => RejectListedNeverResolves(client.(closed := true), client.pending, "closed");
    case _ =>
  }

  lemma {:induction false} RejectListedNeverResolves(client: Client, listed: seq<nat>, reason: string)
    ensures forall settlement :: settlement in RejectedListed(client, listed, reason).settled
              ==> settlement in client.settled || settlement.outcome.Rejected?
  {
    if listed != [] {
      RejectListedNeverResolves(client, listed[..|listed| - 1], reason);
    }
  }

  lemma FailNeverResolves(client: Client, error: string, settlement: Settlement)
    requires settlement in Failed(client, error).settled && settlement.outcome.Resolved?
    ensures settlement in client.settled
  {
    RejectListedNeverResolves(client.(terminalError := Some(error)), client.pending, error);
  }

  // ----- What every event does to the table -----

  /** The request of one id leaves the table with its timer and is settled; no other request, and
      nothing else of the client, changes. */
  ghost predicate SettlesOne(before: Client, after: Client, id: nat, outcome: Outcome) {
    && after.settled == before.settled + [Settlement(id, outcome)]
    && (exists i :: 0 <= i < |before.pending| && before.pending[i] == id && after.pending == CutAt(before.pending, i))
    && (forall other :: other in after.armed <==> other in before.armed && other != id)
    && after.nextId == before.nextId && after.closed == before.closed && after.terminalError == before.terminalError
    && after.authenticationAsked == before.authenticationAsked && after.authenticated == before.authenticated
  }

  function CutAt(ids: seq<nat>, i: nat): seq<nat>
    requires i < |ids|
  {
    ids[..i] + ids[i + 1..]
  }

  /** How the event settles the request of an id that is pending, if it is about one. */
  function VerdictOf(event: Event, id: nat): Option<Outcome> {
    match event
    case Response(about, body) => if about == id then Some(Resolved(body)) else None
    case ErrorFrame(Some(about), message) => if about == id then Some(Rejected(message)) else None
    case TimerFires(about) => if about == id then Some(TimedOut) else None
    case SendReported(about, failed) => if about == id && failed then Some(Rejected("send")) else None
    case _ => None
  }

  /** The events that are about the request of one id. */
  predicate AboutOne(event: Event) {
    event.Response? || (event.ErrorFrame? && event.about.Some?) || event.TimerFires? || event.SendReported?
  }

  /** Whatever else is pending, an answer, an error, a timer or a failed send settles exactly the
      pending request that it is about, and changes nothing if there is none. */
  lemma EachEventSettlesItsOwn(client: Client, event: Event)
    requires Sound(client) && Enabled(client, event) && AboutOne(event)
    ensures forall id :: id in client.pending && VerdictOf(event, id).Some? ==>
              SettlesOne(client, Next(client, event), id, VerdictOf(event, id).value)
    ensures (forall id :: id in client.pending ==> VerdictOf(event, id).None?) ==> Next(client, event) == client
  {
    forall id | id in client.pending && VerdictOf(event, id).Some?
      ensures SettlesOne(client, Next(client, event), id, VerdictOf(event, id).value)
    {
      WithoutCuts(client.pending, id);
      assert Next(client, event) == Settled(client, id, VerdictOf(event, id).value);
    }
  }

  lemma {:induction false} WithoutCuts(ids: seq<nat>, id: nat)
    requires NoRepeats(ids) && id in ids
    ensures exists i :: 0 <= i < |ids| && ids[i] == id && Without(ids, id) == CutAt(ids, i)
  {
    if ids[0] == id {
      WithoutAbsent(ids[1..], id);
      assert CutAt(ids, 0) == ids[1..];
    } else {
      WithoutCuts(ids[1..], id);
      var i :| 0 <= i < |ids| - 1 && ids[1..][i] == id && Without(ids[1..], id) == CutAt(ids[1..], i);
      assert ids[i + 1] == id && CutAt(ids, i + 1) == [ids[0]] + CutAt(ids[1..], i);
    }
  }

  lemma {:induction false} WithoutAbsent(ids: seq<nat>, id: nat)
    requires id !in ids
    ensures Without(ids, id) == ids
  {
    if ids != [] {
      WithoutAbsent(ids[1..], id);
    }
  }

  /** A request is issued under a fresh id exactly by a client that is open, authenticated and has
      not failed; if the send throws, it is settled at once. */
  lemma RequestIsIssued(client: Client, socketOpen: bool, sendThrows: bool)
    requires Sound(client)
    ensures var after := Next(client, Request(socketOpen, sendThrows)); var id := client.nextId;
            if client.terminalError.None? && !client.closed && socketOpen && client.authenticated then
              && after.nextId == id + 1 && after.closed == client.closed && after.terminalError == client.terminalError
              && after.authenticated == client.authenticated && id !in client.pending
              && after.authenticationAsked == client.authenticationAsked
              && (if sendThrows then
                    after.pending == client.pending && after.armed == client.armed
                    && after.settled == client.settled + [Settlement(id, Rejected("send"))]
                  else
                    after.pending == client.pending + [id] && after.armed == client.armed + {id}
                    && after.settled == client.settled)
            else after == client
  {
    var id := client.nextId;
    assert id !in client.pending;
    WithoutLast(client.pending, id);
    assert client.armed + {id} - {id} == client.armed;
  }

  lemma {:induction false} WithoutLast(ids: seq<nat>, id: nat)
    requires id !in ids
    ensures Without(ids + [id], id) == ids
  {
    if ids == [] {
      assert [id][1..] == [];
      assert Without([id], id) == Without([], id);
    } else {
      assert (ids + [id])[1..] == ids[1..] + [id];
      WithoutLast(ids[1..], id);
    }
  }

  function Rejections(ids: seq<nat>, reason: string): seq<Settlement> {
    seq(|ids|, i requires 0 <= i < |ids| => Settlement(ids[i], Rejected(reason)))
  }

  /** Why the event makes the client unusable, if it does: an error, an answer to an authentication
      that was not asked for, or the end of the connection. */
  function ReasonOf(client: Client, event: Event): Option<string> {
    match event
    case AuthOk => if client.authenticationAsked then None else Some("unexpected auth_ok")
    case AuthError(message) => Some(message)
    case ErrorFrame(None, message) => Some(message)
    case UnreadableFrame => Some("unreadable frame")
    case SocketError(message) => Some(message)
    case SocketClosed => Some("closed")
    case CloseCalled => Some("closed")
    case _ => None
  }

  /** A failure rejects everything that is pending, in order and with its own reason; the first
      error stays, and a close is no error. */
  lemma FailureRejectsAll(client: Client, event: Event)
    requires Sound(client) && ReasonOf(client, event).Some?
    ensures var after := Next(client, event); var reason := ReasonOf(client, event).value;
            && after.settled == client.settled + Rejections(client.pending, reason)
            && after.pending == [] && after.armed == {} && after.nextId == client.nextId
            && after.closed == (client.closed || event.SocketClosed? || event.CloseCalled?)
            && after.terminalError == (if client.terminalError.Some? || event.CloseCalled? then client.terminalError
                                       else Some(reason))
            && after.authenticated == client.authenticated && after.authenticationAsked == client.authenticationAsked
  {
    hide Settled, Without;
    var reason := ReasonOf(client, event).value;
    if client.terminalError.Some? && !event.CloseCalled? {
      assert client.pending == [] && Rejections([], reason) == [];
      assert forall id :: id !in client.armed;
    } else {
      var begun := client.(closed := client.closed || event.SocketClosed? || event.CloseCalled?,
                           terminalError := if event.CloseCalled? then client.terminalError else Some(reason));
      assert Next(client, event) == RejectedPending(begun, reason);
      AllRejected(begun, reason);
    }
  }

  lemma AllRejected(client: Client, reason: string)
    requires Booked(client)
    ensures var after := RejectedPending(client, reason);
            && after.settled == client.settled + Rejections(client.pending, reason)
            && after.pending == [] && after.armed == {} && after.nextId == client.nextId
            && after.closed == client.closed && after.terminalError == client.terminalError
            && after.authenticated == client.authenticated && after.authenticationAsked == client.authenticationAsked
  {
    RejectListedBooked(client, client.pending, reason);
    RejectedInOrder(client, client.pending, reason);
    var after := RejectedPending(client, reason);
    if after.pending != [] { FirstIsMember(after.pending); }
    assert forall id :: id !in after.armed;
  }

  lemma {:induction false} RejectedInOrder(client: Client, listed: seq<nat>, reason: string)
    ensures var after := RejectedListed(client, listed, reason);
            && after.settled == client.settled + Rejections(listed, reason)
            && after.authenticated == client.authenticated && after.authenticationAsked == client.authenticationAsked
  {
    if listed != [] {
      var shorter, last := listed[..|listed| - 1], listed[|listed| - 1];
      RejectedInOrder(client, shorter, reason);
      assert Rejections(listed, reason) == Rejections(shorter, reason) + [Settlement(last, Rejected(reason))];
    }
  }

  /** The other events: authentication that was asked for succeeds, and updates settle nothing. */
  lemma OthersSettleNothing(client: Client, event: Event)
    requires !AboutOne(event) && !event.Request? && ReasonOf(client, event).None?
    ensures var after := Next(client, event);
            && after.authenticated == (client.authenticated || event.AuthOk?)
            && after.authenticationAsked ==
               (client.authenticationAsked || (event.Authenticate? && !client.authenticated))
            && after == client.(authenticated := after.authenticated, authenticationAsked := after.authenticationAsked)
  {
  }

  // ----- The client -----

  class LocalApiWebSocketClient {
    var nextId: nat
    var pending: seq<nat>
    var armed: set<nat>
    var authenticationAsked: bool
    var authenticated: bool
    var terminalError: Option<string>
    var closed: bool
    var settled: seq<Settlement>

    function State(): Client
      reads this
    {
      Client(nextId, pending, armed, authenticationAsked, authenticated, terminalError, closed, settled)
    }

    ghost predicate Valid()
      reads this
    {
      Sound(State())
    }

    constructor ()
      ensures State() == FRESH && Valid()
    {
      nextId, pending, armed := 1, [], {};
      authenticationAsked, authenticated, terminalError, closed := false, false, None, false;
      settled := [];
    }

    /** `None` is the error thrown by an unusable client. */
    method SendRequest(socketOpen: bool, sendThrows: bool) returns (issued: Option<nat>)
      requires Valid()
      modifies this
      ensures Valid() && State() == Next(old(State()), Request(socketOpen, sendThrows))
      ensures issued == if Ready(old(State()), socketOpen) then Some(old(nextId)) else None
      ensures issued.Some? ==> nextId == issued.value + 1
    {
      hide Sound, Without;
      NextSound(State(), Request(socketOpen, sendThrows));
      if terminalError.Some? || closed || !socketOpen || !authenticated {
        return None;
      }
      var id := nextId;
      nextId := nextId + 1;
      armed := armed + {id};
      pending := pending + [id];
      if sendThrows {
        RejectOne(id, "send");
      }
      return Some(id);
    }

    method OnTimer(id: nat)
      requires Valid() && id in armed
      modifies this
      ensures Valid() && State() == Next(old(State()), TimerFires(id))
    {
      hide Sound;
      NextSound(State(), TimerFires(id));
      Settle(id, TimedOut);
    }

    method OnSent(id: nat, failed: bool)
      requires Valid() && 1 <= id < nextId
      modifies this
      ensures Valid() && State() == Next(old(State()), SendReported(id, failed))
    {
      hide Sound;
      NextSound(State(), SendReported(id, failed));
      if failed {
        RejectOne(id, "send");
      }
    }

    /** A frame from the agent: authentication, a response, an error or something unreadable. */
    method OnMessage(frame: Event)
      requires Valid()
      requires frame.AuthOk? || frame.AuthError? || frame.Response? || frame.ErrorFrame? || frame.UpdateFrame?
            || frame.UnreadableFrame?
      modifies this
      ensures Valid() && State() == Next(old(State()), frame)
    {
      hide Sound, Without, RejectedListed;
      NextSound(State(), frame);
      match frame {
        case AuthOk =>
          if !authenticationAsked {
            Fail("unexpected auth_ok");
            return;
          }
          authenticated := true;
        case AuthError(message) =>
          Fail(message);
        case Response(id, body) =>
          if id < 0 || id !in pending {
            return;
          }
          Settle(id, Resolved(body));
        case ErrorFrame(id, message) =>
          if id.Some? {
            RejectOne(id.value, message);
          } else {
            Fail(message);
          }
        case UnreadableFrame =>
          Fail("unreadable frame");
        case _ =>
      }
    }

    method OnSocketError(message: string)
      requires Valid()
      modifies this
      ensures Valid() && State() == Next(old(State()), SocketError(message))
    {
      hide Sound;
      NextSound(State(), SocketError(message));
      Fail(message);
    }

    method OnSocketClosed()
      requires Valid()
      modifies this
      ensures Valid() && State() == Next(old(State()), SocketClosed)
    {
      hide Sound;
      NextSound(State(), SocketClosed);
      closed := true;
      Fail("closed");
    }

    method Close()
      requires Valid()
      modifies this
      ensures Valid() && State() == Next(old(State()), CloseCalled)
    {
      hide Sound;
      NextSound(State(), CloseCalled);
      closed := true;
      RejectPending("closed");
    }

    method Settle(id: nat, outcome: Outcome)
      modifies this
      ensures State() == Settled(old(State()), id, outcome)
    {
      pending := Without(pending, id);
      armed := armed - {id};
      settled := settled + [Settlement(id, outcome)];
    }

    method RejectOne(id: int, reason: string)
      modifies this
      ensures State() == RejectedOne(old(State()), id, reason)
    {
      if id >= 0 && id in pending {
        Settle(id, Rejected(reason));
      }
    }

    method RejectPending(reason: string)
      modifies this
      ensures State() == RejectedPending(old(State()), reason)
    {
      hide Settled;
      var listed := pending;
      for i := 0 to |listed|
        invariant State() == RejectedListed(old(State()), listed[..i], reason)
      {
        assert listed[..i + 1][..i] == listed[..i];
        Settle(listed[i], Rejected(reason));
      }
      assert listed[..|listed|] == listed;
    }

    method Fail(error: string)
      modifies this
      ensures State() == Failed(old(State()), error)
    {
      hide RejectedPending;
      if terminalError.Some? {
        return;
      }
      terminalError := Some(error);
      RejectPending(error);
    }
  }
}
