/** The agent's replay counter, persisted before each send (apps/agent/src/connection.ts,
    apps/agent/src/cache.ts), and the host's guard that receives it. */
module AgentReplay {
  import opened Protocol
  import Host

  // ----- One send -----

  /** What becomes of the durable write: it succeeds, fails, or fails after the record
      was already replaced. */
  datatype WriteFate = Written | NotWritten | WrittenThenFailed

  /** The counter file (none on a new device), and the running process. */
  datatype Agent = Agent(stored: Option<nat>, process: Option<Process>)

  datatype Process = Process(online: bool, replayCounter: nat)

  datatype SendResult = Sent(counter: nat) | OfflineQueued

  function LoadReplayCounter(stored: Option<nat>): nat {
    stored.GetOr(0)
  }

  /** The durable counter never goes down; a lower one is not written at all. */
  function SaveReplayCounter(stored: Option<nat>, counter: nat, fate: WriteFate): Option<nat> {
    if counter <= LoadReplayCounter(stored) || fate.NotWritten? then stored else Some(counter)
  }

  /** Whether saving returns normally. */
  predicate Saved(stored: Option<nat>, counter: nat, fate: WriteFate) {
    counter <= LoadReplayCounter(stored) || fate.Written?
  }

  datatype AfterSend = AfterSend(agent: Agent, result: SendResult, wire: seq<nat>)

  /** One `send`: persist the next counter, then use it. `socketTakes` says whether the
      socket accepts the frame. */
  function SendOnce(agent: Agent, fate: WriteFate, socketTakes: bool): AfterSend {
    if agent.process.None? || !agent.process.value.online then AfterSend(agent, OfflineQueued, [])
    else
      var next := agent.process.value.replayCounter + 1;
      if next > MAX_SAFE_INTEGER then AfterSend(agent, OfflineQueued, [])
      else
        var stored := SaveReplayCounter(agent.stored, next, fate);
        if !Saved(agent.stored, next, fate) then AfterSend(agent.(stored := stored), OfflineQueued, [])
        else
          var sent := Agent(stored, Some(agent.process.value.(replayCounter := next)));
          if socketTakes then AfterSend(sent, Sent(next), [next]) else AfterSend(sent, OfflineQueued, [])
  }

  class CounterFile {
    var stored: Option<nat>

    constructor (stored: Option<nat>)
      ensures this.stored == stored
    {
      this.stored := stored;
    }

    method Load() returns (counter: nat)
      ensures counter == LoadReplayCounter(stored)
    {
      if stored.None? {
        return 0;
      }
      return stored.value;
    }

    /** `false` stands for an exception of the write. */
    method Save(counter: nat, fate: WriteFate) returns (ok: bool)
      modifies this
      ensures stored == SaveReplayCounter(old(stored), counter, fate) && ok == Saved(old(stored), counter, fate)
    {
      var current := Load();
      if counter <= current {
        return true;
      }
      if fate.NotWritten? {
        return false;
      }
      stored := Some(counter);
      return fate.Written?;
    }
  }

  class HostConnection {
    const file: CounterFile
    var online: bool
    var replayCounter: nat
    ghost var wire: seq<nat>

    constructor (file: CounterFile)
      ensures this.file == file && !online && replayCounter == LoadReplayCounter(file.stored) && wire == []
    {
      var initial := file.Load();
      this.file := file;
      online, replayCounter, wire := false, initial, [];
    }

    function State(): Agent
      reads this, file
    {
      Agent(file.stored, Some(Process(online, replayCounter)))
    }

    /** A handshake completed; the counter is kept across reconnects. */
    method GoOnline()
      modifies `online
      ensures online
    {
      online := true;
    }

    method OnClose()
      modifies `online
      ensures !online
    {
      online := false;
    }

    method Send(fate: WriteFate, socketTakes: bool) returns (result: SendResult)
      modifies this, file
      ensures old(wire) <= wire
      ensures AfterSend(State(), result, wire[|old(wire)|..]) == SendOnce(old(State()), fate, socketTakes)
    {
      if !online {
        return OfflineQueued;
      }
      var next := replayCounter + 1;
      if next > MAX_SAFE_INTEGER {
        return OfflineQueued;
      }
      var saved := file.Save(next, fate);
      if !saved {
        return OfflineQueued;
      }
      replayCounter := next;
      if !socketTakes {
        return OfflineQueued;
      }
      wire := wire + [next];
      assert wire[|old(wire)|..] == [next];
      return Sent(next);
    }
  }

  // ----- Whole runs -----

  datatype Step = SendStep(fate: WriteFate, socketTakes: bool) | Online | Offline | Crash | Start

  datatype Run = Run(agent: Agent, wire: seq<nat>)

  function Next(run: Run, step: Step): Run {
    var agent := run.agent;
    match step
    case SendStep(fate, socketTakes) =>
      var after := SendOnce(agent, fate, socketTakes);
      Run(after.agent, run.wire + after.wire)
    case Online =>
      if agent.process.None? then run
      else run.(agent := agent.(process := Some(agent.process.value.(online := true))))
    case Offline =>
      if agent.process.None? then run
      else run.(agent := agent.(process := Some(agent.process.value.(online := false))))
    case Crash => run.(agent := agent.(process := None))
    case Start =>
      if agent.process.Some? then run
      else run.(agent := agent.(process := Some(Process(false, LoadReplayCounter(agent.stored)))))
  }

  function After(start: Run, steps: seq<Step>): Run {
    if steps == [] then start else Next(After(start, steps[..|steps| - 1]), steps[|steps| - 1])
  }

  const NEW_DEVICE := Run(Agent(None, None), [])

  ghost predicate Increasing(wire: seq<nat>) {
    forall i, j :: 0 <= i < j < |wire| ==> wire[i] < wire[j]
  }

  /** The process is never ahead of the file, and the wire never ahead of the process. */
  ghost predicate Ordered(run: Run) {
    var stored := LoadReplayCounter(run.agent.stored);
    && Increasing(run.wire)
    && (forall c :: c in run.wire ==> 0 < c <= stored && c <= MAX_SAFE_INTEGER)
    && (run.agent.process.Some? ==>
          run.agent.process.value.replayCounter <= stored
          && forall c :: c in run.wire ==> c <= run.agent.process.value.replayCounter)
  }

  lemma AppendsInOrder(wire: seq<nat>, next: nat)
    requires Increasing(wire) && forall c :: c in wire ==> c < next
    ensures Increasing(wire + [next])
  {
    var all := wire + [next];
    forall i, j | 0 <= i < j < |all| ensures all[i] < all[j] {
      assert all[i] in wire;
    }
  }

  lemma StepKeepsOrder(run: Run, step: Step)
    requires Ordered(run)
    ensures Ordered(Next(run, step))
  {
    hide Increasing;
    if step.SendStep? && run.agent.process.Some? {
      var next := run.agent.process.value.replayCounter + 1;
      AppendsInOrder(run.wire, next);
      assert run.wire + [] == run.wire;
    }
    assert run.wire + [] == run.wire;
  }

  /** Over any interleaving of sends, failed writes, socket failures, reconnections,
      crashes and restarts, the counters on the wire strictly increase and never exceed
      the durable counter. */
  lemma {:induction false} CountersIncrease(steps: seq<Step>)
    ensures var run := After(NEW_DEVICE, steps);
            && Increasing(run.wire) && (forall c :: c in run.wire ==> c <= LoadReplayCounter(run.agent.stored))
            && Ordered(run)
  {
    hide Next;
    if steps != [] {
      CountersIncrease(steps[..|steps| - 1]);
      StepKeepsOrder(After(NEW_DEVICE, steps[..|steps| - 1]), steps[|steps| - 1]);
    }
  }

  /** The process was started and has not crashed since. */
  ghost predicate Up(steps: seq<Step>) {
    exists i :: 0 <= i < |steps| && steps[i] == Start && Crash !in steps[i..]
  }

  /** A handshake completed while the process was up, and no close or crash came after it. */
  ghost predicate Connected(steps: seq<Step>) {
    exists i :: 0 <= i < |steps| && steps[i] == Online && Up(steps[..i])
                && Offline !in steps[i..] && Crash !in steps[i..]
  }

  lemma UpAppend(steps: seq<Step>, last: Step)
    ensures Up(steps + [last]) <==> last == Start || (Up(steps) && last != Crash)
  {
    var more := steps + [last];
    if last == Start {
      assert more[|steps|] == Start && more[|steps|..] == [Start];
    } else {
      if i :| 0 <= i < |steps| && steps[i] == Start && Crash !in steps[i..] {
        assert more[i..] == steps[i..] + [last] && more[i] == Start;
      }
      if i :| 0 <= i < |more| && more[i] == Start && Crash !in more[i..] {
        assert i < |steps| && more[i..] == steps[i..] + [last];
        assert last in more[i..];
      }
    }
  }

  lemma ConnectedAppend(steps: seq<Step>, last: Step)
    ensures Connected(steps + [last])
       <==> (last == Online && Up(steps)) || (Connected(steps) && last != Offline && last != Crash)
  {
    hide Up;
    var more := steps + [last];
    if last == Online && Up(steps) {
      assert more[|steps|] == Online && more[|steps|..] == [Online] && more[..|steps|] == steps;
    }
    if i :| 0 <= i < |steps| && steps[i] == Online && Up(steps[..i]) && Offline !in steps[i..] && Crash !in steps[i..] {
      assert more[i..] == steps[i..] + [last] && more[i] == Online && more[..i] == steps[..i];
    }
    if i :| 0 <= i < |more| && more[i] == Online && Up(more[..i]) && Offline !in more[i..] && Crash !in more[i..] {
      if i < |steps| {
        assert more[i..] == steps[i..] + [last] && more[..i] == steps[..i];
        assert last in more[i..];
      } else {
        assert more[..i] == steps;
      }
    }
  }

  /** Whether there is a process, and whether it is connected, after any run. */
  lemma {:induction false} ProcessIff(steps: seq<Step>)
    ensures var process := After(NEW_DEVICE, steps).agent.process;
            && (process.Some? <==> Up(steps))
            && (process.Some? && process.value.online <==> Connected(steps))
  {
    if steps != [] {
      var init, last := steps[..|steps| - 1], steps[|steps| - 1];
      assert steps == init + [last];
      ProcessIff(init);
      UpAppend(init, last);
      ConnectedAppend(init, last);
      hide Up, Connected;
    }
  }

  /** What a send does. Connected and below the limit, it uses the next counter, unless that had to
      be written and the write failed; the frame is on the wire if the socket takes it as well. */
  lemma SendTells(run: Run, fate: WriteFate, socketTakes: bool)
    ensures var next := Next(run, SendStep(fate, socketTakes));
            if run.agent.process.None? || !run.agent.process.value.online
               || run.agent.process.value.replayCounter >= MAX_SAFE_INTEGER
            then next == run
            else
              var counter := run.agent.process.value.replayCounter + 1;
              var durable := LoadReplayCounter(run.agent.stored);
              var uses := counter <= durable || fate == Written;
              && next.wire == run.wire + (if uses && socketTakes then [counter] else [])
              && next.agent.process == Some(Process(true, if uses then counter else counter - 1))
              && LoadReplayCounter(next.agent.stored) ==
                 if counter <= durable || fate == NotWritten then durable else counter
  {
    assert run.wire + [] == run.wire;
  }

  /** The sends made while connected. */
  ghost function Sends(steps: seq<Step>): nat {
    if steps == [] then 0
    else
      var init, last := steps[..|steps| - 1], steps[|steps| - 1];
      Sends(init) + if last.SendStep? && Connected(init) then 1 else 0
  }

  /** The first `n` counters are on the wire, and the file and the process have reached the last. */
  ghost predicate AllSent(run: Run, n: nat) {
    && |run.wire| == n && (forall i :: 0 <= i < n ==> run.wire[i] == i + 1)
    && LoadReplayCounter(run.agent.stored) == n
    && (run.agent.process.Some? ==> run.agent.process.value.replayCounter == n)
  }

  lemma StepSends(run: Run, step: Step, n: nat)
    requires AllSent(run, n) && n < MAX_SAFE_INTEGER && (step.SendStep? ==> step == SendStep(Written, true))
    ensures var process := run.agent.process;
            AllSent(Next(run, step), if step.SendStep? && process.Some? && process.value.online then n + 1 else n)
  {
    if step.SendStep? {
      SendTells(run, Written, true);
    }
  }

  lemma StepSendsNothing(run: Run, step: Step, n: nat)
    requires AllSent(run, n) && !step.SendStep?
    ensures AllSent(Next(run, step), n)
  {
  }

  /** While writes succeed and the socket takes the frames, every send made while connected is on the
      wire, and the counters are 1, 2, 3 and so on, across any closes, crashes and restarts. */
  lemma {:induction false} NothingIsLost(steps: seq<Step>)
    requires forall step :: step in steps && step.SendStep? ==> step == SendStep(Written, true)
    requires Sends(steps) <= MAX_SAFE_INTEGER
    ensures AllSent(After(NEW_DEVICE, steps), Sends(steps))
  {
    if steps != [] {
      hide Connected, Up, AllSent, Next;
      var init, last := steps[..|steps| - 1], steps[|steps| - 1];
      assert forall step :: step in init ==> step in steps;
      NothingIsLost(init);
      ProcessIff(init);
      if !last.SendStep? {
        StepSendsNothing(After(NEW_DEVICE, init), last, Sends(init));
      } else if Connected(init) || Sends(init) < MAX_SAFE_INTEGER {
        StepSends(After(NEW_DEVICE, init), last, Sends(init));
      } else {
        SendTells(After(NEW_DEVICE, init), Written, true);
      }
    }
  }

  // ----- The host at the other end -----

  /** The deliveries, as positions on the wire: some frames are lost, none is reordered. */
  ghost predicate InOrder(delivered: seq<nat>, wire: seq<nat>) {
    (forall i, j :: 0 <= i < j < |delivered| ==> delivered[i] < delivered[j]) && OnWire(delivered, wire)
  }

  ghost predicate OnWire(delivered: seq<nat>, wire: seq<nat>) {
    forall i :: 0 <= i < |delivered| ==> delivered[i] < |wire|
  }

  /** The guard after some deliveries, each with the nonce of its frame. */
  ghost function Received(guard: Host.ReplayGuard, deviceId: string, wire: seq<nat>, nonces: seq<string>,
                          delivered: seq<nat>): Option<Host.ReplayGuard>
    requires |nonces| == |wire| && OnWire(delivered, wire)
  {
    if delivered == [] then Some(guard)
    else
      var last := delivered[|delivered| - 1];
      var before := Received(guard, deviceId, wire, nonces, delivered[..|delivered| - 1]);
      if before.None? then None else Host.AcceptReplay(before.value, deviceId, wire[last], nonces[last])
  }

  ghost predicate Knows(guard: Host.ReplayGuard, deviceId: string, wire: seq<nat>, nonces: seq<string>,
                        delivered: seq<nat>)
    requires |nonces| == |wire| && OnWire(delivered, wire)
  {
    var record := if deviceId in guard then guard[deviceId] else Host.NOT_SEEN;
    && record.highestCounter == (if delivered == [] then 0 else wire[delivered[|delivered| - 1]])
    && record.usedNonces == set i | 0 <= i < |delivered| :: nonces[delivered[i]]
  }

  /** A host that has not seen the device accepts every frame that reaches it in order:
      restarts of the agent and lost frames never make an event look like a replay. */
  lemma {:induction false} EveryDeliveryIsAccepted(deviceId: string, wire: seq<nat>, nonces: seq<string>,
                                                   delivered: seq<nat>)
    requires Increasing(wire) && |nonces| == |wire| && InOrder(delivered, wire) && (forall c :: c in wire ==> c > 0)
    requires forall i, j :: 0 <= i < j < |nonces| ==> nonces[i] != nonces[j]
    ensures var guard := Received(map[], deviceId, wire, nonces, delivered);
            guard.Some? && Knows(guard.value, deviceId, wire, nonces, delivered)
  {
    if delivered != [] {
      var init, last := delivered[..|delivered| - 1], delivered[|delivered| - 1];
      hide Knows, Host.AcceptReplay;
      EveryDeliveryIsAccepted(deviceId, wire, nonces, init);
      NextIsAccepted(deviceId, wire, nonces, delivered, Received(map[], deviceId, wire, nonces, init).value);
    }
  }

  lemma NextIsAccepted(deviceId: string, wire: seq<nat>, nonces: seq<string>, delivered: seq<nat>,
                       guard: Host.ReplayGuard)
    requires Increasing(wire) && |nonces| == |wire| && InOrder(delivered, wire) && (forall c :: c in wire ==> c > 0)
    requires forall i, j :: 0 <= i < j < |nonces| ==> nonces[i] != nonces[j]
    requires delivered != [] && Knows(guard, deviceId, wire, nonces, delivered[..|delivered| - 1])
    ensures var last := delivered[|delivered| - 1];
            var next := Host.AcceptReplay(guard, deviceId, wire[last], nonces[last]);
            next.Some? && Knows(next.value, deviceId, wire, nonces, delivered)
  {
    var init, last := delivered[..|delivered| - 1], delivered[|delivered| - 1];
    assert wire[last] in wire;
    assert init != [] ==> init[|init| - 1] == delivered[|delivered| - 2] < last;
    forall i | 0 <= i < |init| ensures nonces[init[i]] != nonces[last] {
      assert init[i] == delivered[i] < last;
    }
    assert (set i | 0 <= i < |delivered| :: nonces[delivered[i]]) == (set i | 0 <= i < |init| :: nonces[init[i]])
           + {nonces[last]};
  }

  /** The two ends together: every frame of every run that arrives in order is accepted. */
  lemma AgentAndHost(steps: seq<Step>, deviceId: string, nonces: seq<string>, delivered: seq<nat>)
    requires var wire := After(NEW_DEVICE, steps).wire; |nonces| == |wire| && InOrder(delivered, wire)
    requires forall i, j :: 0 <= i < j < |nonces| ==> nonces[i] != nonces[j]
    ensures Received(map[], deviceId, After(NEW_DEVICE, steps).wire, nonces, delivered).Some?
  {
    CountersIncrease(steps);
    EveryDeliveryIsAccepted(deviceId, After(NEW_DEVICE, steps).wire, nonces, delivered);
  }
}
