/** Short runs from a fresh start that reach the inputs on which a promise fails. Paths and
    members are arbitrary up to what the failure needs. */
module FailingRuns {
  import opened Protocol
  import opened JsMaps
  import opened Paths
  import opened Locks
  import opened Intents
  import opened Presences
  import opened Cache
  import opened Registries
  import opened States
  import opened Convergence
  import opened SweepConvergence
  import opened EventConvergence
  import opened Host
  import opened HostProofs
  import opened SilentSweeps
  import opened Runs
  import opened ClientRuns

  const PASSES := Checks(true, true, true)

  function Submitted(event: Event, now: int): Step {
    Submit(event, PASSES, now, Works)
  }

  // ----- One step at the end of a run -----

  lemma RunMore(steps: seq<Step>, step: Step, sp: Spelling)
    ensures Run(START, steps + [step], sp) == Next(Run(START, steps, sp), step, sp)
  {
    assert (steps + [step])[..|steps|] == steps;
  }

  lemma FollowableMore(steps: seq<Step>, step: Step, sp: Spelling)
    requires AllHostFollowable(steps, sp) && HostFollowable(Run(START, steps, sp), step, sp)
    ensures AllHostFollowable(steps + [step], sp)
  {
    hide HostFollowable;
    assert (steps + [step])[..|steps|] == steps;
  }

  /** The host is up and will take the event: neither its id, nor its counter, nor its nonce was used. */
  ghost predicate Takes(w: World, event: Event) {
    && w.memory.Some? && !w.memory.value.faulted
    && event.eventId !in w.memory.value.gate.applied
    && AcceptReplay(w.memory.value.gate.guard, event.member.deviceId, event.counter, event.nonce).Some?
    && forall row :: row in w.store.events ==> row.eventId != event.eventId
  }

  lemma TakesStays(w: World, after: World, event: Event)
    requires Takes(w, event) && after.memory == w.memory && after.store == w.store
    ensures Takes(after, event)
  {
  }

  /** A later event of its own id and nonce. */
  predicate Follower(event: Event, later: Event) {
    event.eventId != later.eventId && event.nonce != later.nonce && event.counter < later.counter
  }

  lemma Started(sp: Spelling)
    requires sp.Lawful()
    ensures var w := Run(START, [Restart], sp);
            && w.memory.Some? && w.memory.value.regs == NO_STATE && w.memory.value.counter == 0
            && w.memory.value.log == Log([], 0) && w.history == [] && w.client == START.client
            && forall event: Event :: event.counter > 0 ==> Takes(w, event)
    ensures AllHostFollowable([Restart], sp)
  {
    RunMore([], Restart, sp);
    assert [] + [Restart] == [Restart];
    FollowableMore([], Restart, sp);
  }

  /** An accepted event: the host's new state, what it announces, and which events it takes next. */
  ghost predicate AcceptedAs(w: World, after: World, event: Event, done: Outcome)
    requires w.memory.Some? && done.Applied?
  {
    var updates := Stamp(done.changes, w.memory.value.counter + 1);
    && after.memory.Some? && !after.memory.value.faulted && after.memory.value.regs == done.regs
    && after.memory.value.counter == LastRevision(w.memory.value.counter + 1, done.changes, done.furtherRevisions)
    && after.history == w.history + updates && after.client == w.client
    && after.memory.value.log == Log(w.memory.value.log.updates + updates, w.memory.value.log.compactedThrough)
    && forall later: Event :: Follower(event, later) && Takes(w, later) ==> Takes(after, later)
  }

  function OutcomeOf(w: World, event: Event, now: int, sp: Spelling): Outcome
    requires w.memory.Some?
  {
    Apply(w.memory.value.regs, event, w.memory.value.counter + 1, now, sp)
  }

  lemma Accepts(steps: seq<Step>, event: Event, now: int, sp: Spelling)
    requires sp.Lawful() && Takes(Run(START, steps, sp), event) && Run(START, steps, sp).memory.Some?
    requires OutcomeOf(Run(START, steps, sp), event, now, sp).Applied?
    ensures var w := Run(START, steps, sp);
            AcceptedAs(w, Run(START, steps + [Submitted(event, now)], sp), event, OutcomeOf(w, event, now, sp))
  {
    hide Safe, Apply, Run, Running, Ingest, AcceptReplay, AcceptedAs, Next;
    RunMore(steps, Submitted(event, now), sp);
    RunIsSafe(steps, sp);
    var w := Run(START, steps, sp);
    SafeRunning(w, sp);
    RowsAreBelow(w.memory.value, w.store, sp);
    StepAccepts(w, event, now, sp);
  }

  lemma StepAccepts(w: World, event: Event, now: int, sp: Spelling)
    requires Takes(w, event)
    requires forall row :: row in w.store.events ==> row.eventRevision <= w.memory.value.counter
    requires OutcomeOf(w, event, now, sp).Applied?
    ensures AcceptedAs(w, Next(w, Submitted(event, now), sp), event, OutcomeOf(w, event, now, sp))
    ensures Ingest(w.memory.value, w.store, event, PASSES, true, now, sp).reply.Accepted?
  {
    hide Apply, LastRevision, Ingest, AcceptReplay, Stamp;
    IngestAccepts(w.memory.value, w.store, event, now, sp);
    var after := Next(w, Submitted(event, now), sp);
    forall later: Event | Follower(event, later) && Takes(w, later) ensures Takes(after, later) {
      GuardTakes(w.memory.value.gate.guard, event, later);
    }
  }

  /** The guard that has passed an event passes the later ones it would have passed before. */
  lemma GuardTakes(guard: ReplayGuard, event: Event, later: Event)
    requires Follower(event, later)
    requires AcceptReplay(guard, event.member.deviceId, event.counter, event.nonce).Some?
    requires AcceptReplay(guard, later.member.deviceId, later.counter, later.nonce).Some?
    ensures var after := AcceptReplay(guard, event.member.deviceId, event.counter, event.nonce).value;
            AcceptReplay(after, later.member.deviceId, later.counter, later.nonce).Some?
  {
  }

  lemma IngestAccepts(memory: Memory, store: Durable, event: Event, now: int, sp: Spelling)
    requires !memory.faulted && event.eventId !in memory.gate.applied
    requires AcceptReplay(memory.gate.guard, event.member.deviceId, event.counter, event.nonce).Some?
    requires forall row :: row in store.events ==> row.eventId != event.eventId && row.eventRevision <= memory.counter
    requires Apply(memory.regs, event, memory.counter + 1, now, sp).Applied?
    ensures var r := Ingest(memory, store, event, PASSES, true, now, sp);
            var done := Apply(memory.regs, event, memory.counter + 1, now, sp);
            var updates := Stamp(done.changes, memory.counter + 1);
            && r.reply.Accepted? && r.reply.broadcasts == updates && !r.memory.faulted && r.memory.regs == done.regs
            && r.memory.counter == LastRevision(memory.counter + 1, done.changes, done.furtherRevisions)
            && r.memory.log == Log(memory.log.updates + updates, memory.log.compactedThrough)
            && r.memory.gate.applied == memory.gate.applied[event.eventId := memory.counter + 1]
            && Option.Some(r.memory.gate.guard) ==
               AcceptReplay(memory.gate.guard, event.member.deviceId, event.counter, event.nonce)
            && r.store.events == store.events + [RowOf(event, memory.counter + 1)]
  {
    hide Apply, Serialize, Restore, LastRevision, AcceptReplay, RecordApplied;
  }

  /** The run ends with the host up, and replaying all it announced shows some slot differently. */
  ghost predicate Diverged(steps: seq<Step>, sp: Spelling) {
    var w := Run(START, steps, sp);
    w.memory.Some? && !Projects(w.history, w.memory.value.regs, sp)
  }

  lemma Diverges(steps: seq<Step>, event: Event, now: int, sp: Spelling)
    requires sp.Lawful() && AllHostFollowable(steps, sp) && HasSlots(event)
    requires Takes(Run(START, steps, sp), event) && Run(START, steps, sp).memory.Some?
    requires OutcomeOf(Run(START, steps, sp), event, now, sp).Applied?
             && !Announced(Run(START, steps, sp).memory.value.regs, event, sp)
    ensures Diverged(steps + [Submitted(event, now)], sp)
  {
    hide Run, Next, Apply, Projects, Announced, Ingest, AcceptReplay, AllHostFollowable;
    RunIsSafe(steps, sp);
    SafeRunning(Run(START, steps, sp), sp);
    RowsAreBelow(Run(START, steps, sp).memory.value, Run(START, steps, sp).store, sp);
    StepAccepts(Run(START, steps, sp), event, now, sp);
    EventFollowedIff(steps, event, PASSES, now, sp);
    RunMore(steps, Submitted(event, now), sp);
  }

  /** The first event of a run. */
  lemma First(event: Event, now: int, sp: Spelling)
    requires sp.Lawful() && event.counter > 0 && HasSlots(event)
    requires Apply(NO_STATE, event, 1, now, sp).Applied? && Announced(NO_STATE, event, sp)
    ensures FirstTaken(Run(START, [Restart, Submitted(event, now)], sp), event, Apply(NO_STATE, event, 1, now, sp))
    ensures AllHostFollowable([Restart, Submitted(event, now)], sp)
  {
    hide Run, Next, Takes, Apply, Announced, LastRevision;
    Started(sp);
    assert [Restart] + [Submitted(event, now)] == [Restart, Submitted(event, now)];
    assert [] + Stamp(Apply(NO_STATE, event, 1, now, sp).changes, 1) ==
           Stamp(Apply(NO_STATE, event, 1, now, sp).changes, 1);
    Accepts([Restart], event, now, sp);
    FollowableMore([Restart], Submitted(event, now), sp);
  }

  ghost predicate FirstTaken(w: World, event: Event, done: Outcome)
    requires done.Applied?
  {
    && w.memory.Some? && w.memory.value.regs == done.regs
    && w.memory.value.counter == LastRevision(1, done.changes, done.furtherRevisions)
    && w.history == Stamp(done.changes, 1) && w.client == START.client
    && w.memory.value.log == Log(Stamp(done.changes, 1), 0)
    && forall later: Event :: Follower(event, later) ==> Takes(w, later)
  }

  /** One member reports one path twice, from another device or, on a host that folds the two
      spellings, under another spelling. */
  lemma SecondReport(first: Member, second: Member, path: string, other: string, sp: Spelling)
    requires sp.Lawful() && first.memberId == second.memberId && sp.Key(path) == sp.Key(other)
    requires first.deviceId != second.deviceId || sp.normalize(path) != sp.normalize(other)
    ensures Diverged([Restart, Submitted(Event("e1", first, 1, "n1", PresenceReport(path, Editing)), 0),
                      Submitted(Event("e2", second, 2, "n2", PresenceReport(other, Editing)), 0)], sp)
  {
    hide Run, Next, Takes, Diverged, Apply, SameSlot;
    var report := Event("e1", first, 1, "n1", PresenceReport(path, Editing));
    var again := Event("e2", second, 2, "n2", PresenceReport(other, Editing));
    var steps := [Restart, Submitted(report, 0)];
    FirstReport(report, again, path, other, sp);
    First(report, 0, sp);
    Diverges(steps, again, 0, sp);
    assert steps + [Submitted(again, 0)] == [Restart, Submitted(report, 0), Submitted(again, 0)];
  }

  /** The event takes one revision, its own. */
  predicate OneChange(done: Outcome) {
    done.Applied? && |done.changes| == 1 && done.furtherRevisions == 0
  }

  lemma FirstReport(event: Event, again: Event, path: string, other: string, sp: Spelling)
    requires event.payload == PresenceReport(path, Editing) && again.payload == PresenceReport(other, Editing)
             && sp.Lawful()
    requires event.member.memberId == again.member.memberId && sp.Key(path) == sp.Key(other)
    requires event.member.deviceId != again.member.deviceId || sp.normalize(path) != sp.normalize(other)
    ensures OneChange(Apply(NO_STATE, event, 1, 0, sp)) && Announced(NO_STATE, event, sp)
    ensures var regs := Apply(NO_STATE, event, 1, 0, sp).regs;
            !SameSlot(regs.presence, again.member, other, sp) && Apply(regs, again, 2, 0, sp).Applied?
  {
  }

  function Acquires(id: string, nonce: string, member: Member, counter: int, path: string): Event {
    Event(id, member, counter, nonce, LockAcquire(path, File, Soft))
  }

  /** On a host that folds two spellings of a path: renaming a sole lock between them. */
  lemma RespellingRename(member: Member, path: string, other: string, sp: Spelling)
    requires sp.Lawful() && sp.Key(path) == sp.Key(other) && sp.normalize(path) != sp.normalize(other)
    ensures Diverged([Restart, Submitted(Acquires("e1", "n1", member, 1, path), 0),
                      Submitted(Event("e2", member, 2, "n2", PathRenamed(path, other)), 0)], sp)
  {
    hide Run, Next, Takes, Diverged, Apply, RespelledByRename;
    var acquire := Acquires("e1", "n1", member, 1, path);
    var rename := Event("e2", member, 2, "n2", PathRenamed(path, other));
    var steps := [Restart, Submitted(acquire, 0)];
    FirstClaim(path, acquire, 0, sp);
    First(acquire, 0, sp);
    ClaimRespelled(path, other, ClaimOn(path, "e1", member, 1, 0), rename, sp);
    Diverges(steps, rename, 0, sp);
    assert steps + [Submitted(rename, 0)] == [Restart, Submitted(acquire, 0), Submitted(rename, 0)];
  }

  lemma ClaimRespelled(path: string, other: string, claim: Lock, event: Event, sp: Spelling)
    requires sp.Key(path) == sp.Key(other) && sp.normalize(path) != sp.normalize(other) && claim.scope == path
    requires event.member == claim.holder && event.payload == PathRenamed(path, other)
    ensures RespelledByRename(OneGroup(path, claim, sp), claim.holder.memberId, path, other, sp)
    ensures Apply(NO_STATE.(locks := OneGroup(path, claim, sp)), event, 2, 0, sp).Applied?
  {
    assert ClaimOf([claim], claim.holder.memberId) == Option.Some(0);
  }

  /** What happens to the file of an intent, reported under another spelling: its deletion, its
      renaming to a third path, its creation. */
  predicate OtherSpelling(payload: Payload, path: string, sp: Spelling) {
    match payload
    case PathDeleted(other) => sp.Key(path) == sp.Key(other) && sp.normalize(path) != sp.normalize(other)
    case PathRenamed(other, third) =>
      && sp.Key(path) == sp.Key(other) && sp.normalize(path) != sp.normalize(other)
      && sp.normalize(path) != sp.normalize(third)
    case FileCreated(other) => sp.Key(path) == sp.Key(other) && sp.normalize(path) != sp.normalize(other)
    case _ => false
  }

  /** Declare the file as planned for creation or for modification. */
  function DeclareFor(payload: Payload, path: string): Payload {
    if payload.FileCreated? then IntentDeclare([], [path], "") else IntentDeclare([path], [], "")
  }

  lemma IntentUnderOtherSpelling(member: Member, path: string, payload: Payload, sp: Spelling)
    requires sp.Lawful() && OtherSpelling(payload, path, sp) && |path| <= MAX_PATH_LENGTH
    ensures Diverged([Restart, Submitted(Event("e1", member, 1, "n1", DeclareFor(payload, path)), 0),
                      Submitted(Event("e2", member, 2, "n2", payload), 0)], sp)
  {
    hide Run, Next, Takes, Diverged, Apply, Announced, OtherSpelling;
    var declare := Event("e1", member, 1, "n1", DeclareFor(payload, path));
    var event := Event("e2", member, 2, "n2", payload);
    var steps := [Restart, Submitted(declare, 0)];
    if payload.FileCreated? {
      DeclaredCreation(declare, path, sp);
    } else {
      DeclaredEdit(declare, path, sp);
    }
    First(declare, 0, sp);
    SpellingsDisagree(member, path, event, sp);
    Diverges(steps, event, 0, sp);
    assert steps + [Submitted(event, 0)] == [Restart, Submitted(declare, 0), Submitted(event, 0)];
  }

  function Edited(member: Member, path: string, sp: Spelling): Registries {
    NO_STATE.(intents := JsMap(["e1"], map["e1" := Intent("e1", member, [sp.normalize(path)], [], "", 1)]))
  }

  lemma DeclaredEdit(event: Event, path: string, sp: Spelling)
    requires event.eventId == "e1" && event.payload == IntentDeclare([path], [], "") && |path| <= MAX_PATH_LENGTH
    ensures OneChange(Apply(NO_STATE, event, 1, 0, sp))
            && Apply(NO_STATE, event, 1, 0, sp).regs == Edited(event.member, path, sp)
    ensures Announced(NO_STATE, event, sp)
  {
    assert Acceptable([path], []);
    assert NormalizeAll([path], sp) == [sp.normalize(path)];
    assert [] + ["e1"] == ["e1"];
  }

  lemma SpellingsDisagree(member: Member, path: string, event: Event, sp: Spelling)
    requires sp.Lawful() && event.member == member && OtherSpelling(event.payload, path, sp)
    ensures var regs := if event.payload.FileCreated? then Planned(member, path, sp) else Edited(member, path, sp);
            Apply(regs, event, 2, 0, sp).Applied? && !Announced(regs, event, sp)
    ensures !AsksForGlob(event.payload)
  {
    var regs := if event.payload.FileCreated? then Planned(member, path, sp) else Edited(member, path, sp);
    var spelled := sp.normalize(path);
    assert spelled in [spelled] && sp.Key(spelled) == sp.Key(path);
    assert "e1" in regs.intents.data;
    match event.payload
    case PathDeleted(other) => assert !DropAgrees([spelled], other, sp);
    case PathRenamed(other, third) => assert !MoveAgrees([spelled], other, third, sp);
    case FileCreated(other) => assert !DropAgrees([spelled], other, sp);
  }

  // ----- The age pass -----

  function ClaimOn(path: string, lockId: string, member: Member, revision: nat, now: int): Lock {
    Lock(lockId, path, File, Soft, member, revision, now, false)
  }

  function OneGroup(path: string, claim: Lock, sp: Spelling): Groups {
    JsMap([PathGroup(sp.Key(path))], map[PathGroup(sp.Key(path)) := [claim]])
  }

  lemma FirstClaim(path: string, event: Event, now: int, sp: Spelling)
    requires event.payload == LockAcquire(path, File, Soft)
    ensures var claim := ClaimOn(path, event.eventId, event.member, 1, now);
            Apply(NO_STATE, event, 1, now, sp) ==
            Applied(NO_STATE.(locks := OneGroup(path, claim, sp)), [LockChange(claim, Added)], 0, [], None)
  {
    var claim := ClaimOn(path, event.eventId, event.member, 1, now);
    assert [] + [claim] == [claim];
    assert Resolved([claim]) == [claim];
    assert [] + [LockChange(claim, Added)] == [LockChange(claim, Added)];
  }

  lemma SecondClaim(path: string, other: string, first: Event, event: Event, now: int, sp: Spelling)
    requires event.payload == LockAcquire(other, File, Soft) && sp.Key(path) != sp.Key(other)
    ensures var claim := ClaimOn(path, first.eventId, first.member, 1, 0);
            var second := ClaimOn(other, event.eventId, event.member, 2, now);
            var regs := NO_STATE.(locks := OneGroup(path, claim, sp));
            Apply(regs, event, 2, now, sp) ==
            Applied(regs.(locks := regs.locks.Set(PathGroup(sp.Key(other)), [second])), [LockChange(second, Added)], 0,
                    [], None)
  {
    var second := ClaimOn(other, event.eventId, event.member, 2, now);
    assert [] + [second] == [second];
    assert Resolved([second]) == [second];
    assert [] + [LockChange(second, Added)] == [LockChange(second, Added)];
  }

  /** Renaming the older claim onto the path of the younger: both stand in one group, where the
      older one loses, because the rename gave it a later revision. */
  lemma ClaimsMeet(path: string, other: string, member: Member, sp: Spelling)
    requires sp.Key(path) != sp.Key(other)
    ensures var claim, second := ClaimOn(path, "e1", member, 1, 0), ClaimOn(other, "e2", member, 2, 10);
            var locks := OneGroup(path, claim, sp).Set(PathGroup(sp.Key(other)), [second]);
            var after := TransferPath(locks, member, path, other, 3, sp);
            && after.Some? && PathGroup(sp.Key(other)) in after.value.data
            && after.value.data[PathGroup(sp.Key(other))] ==
               [second, claim.(scope := other, eventRevision := 3, concurrent := true)]
  {
    var claim, second := ClaimOn(path, "e1", member, 1, 0), ClaimOn(other, "e2", member, 2, 10);
    var locks := OneGroup(path, claim, sp).Set(PathGroup(sp.Key(other)), [second]);
    var moved := claim.(scope := other, eventRevision := 3);
    assert ClaimOf([claim], member.memberId) == Option.Some(0);
    assert DropClaim(locks, PathGroup(sp.Key(path)), member.memberId).Get(PathGroup(sp.Key(other)), []) == [second];
    assert [second] + [moved] == [second, moved];
    assert [second, moved][..1] == [second];
    assert WinnerIndex([second, moved]) == 0;
    assert Resolved([second, moved]) == [second, moved.(concurrent := true)];
  }

  function TwoClaims(path: string, other: string, member: Member): seq<Step> {
    [Restart, Submitted(Acquires("e1", "n1", member, 1, path), 0),
     Submitted(Acquires("e2", "n2", member, 2, other), 10)]
  }

  lemma OneClaimHeld(path: string, member: Member, sp: Spelling)
    requires sp.Lawful()
    ensures var event := Acquires("e1", "n1", member, 1, path); var w := Run(START, [Restart, Submitted(event, 0)], sp);
            && w.memory.Some? && w.memory.value.counter == 1
            && w.memory.value.regs == NO_STATE.(locks := OneGroup(path, ClaimOn(path, "e1", member, 1, 0), sp))
            && forall later: Event :: Follower(event, later) ==> Takes(w, later)
    ensures AllHostFollowable([Restart, Submitted(Acquires("e1", "n1", member, 1, path), 0)], sp)
  {
    hide Run, Next, Takes, Apply, Follower, AllHostFollowable;
    FirstClaim(path, Acquires("e1", "n1", member, 1, path), 0, sp);
    First(Acquires("e1", "n1", member, 1, path), 0, sp);
  }

  lemma TwoClaimsHeld(path: string, other: string, member: Member, sp: Spelling)
    requires sp.Lawful() && sp.Key(path) != sp.Key(other)
    ensures var w := Run(START, TwoClaims(path, other, member), sp);
            var claim, second := ClaimOn(path, "e1", member, 1, 0), ClaimOn(other, "e2", member, 2, 10);
            && w.memory.Some? && w.memory.value.counter == 2
            && w.memory.value.regs ==
               NO_STATE.(locks := OneGroup(path, claim, sp).Set(PathGroup(sp.Key(other)), [second]))
            && forall later: Event ::
                 (Follower(Acquires("e1", "n1", member, 1, path), later)
                  && Follower(Acquires("e2", "n2", member, 2, other), later))
                 ==> Takes(w, later)
    ensures AllHostFollowable(TwoClaims(path, other, member), sp)
  {
    assert Follower(Acquires("e1", "n1", member, 1, path), Acquires("e2", "n2", member, 2, other));
    hide Run, Next, Takes, Apply, HostFollowable, AllHostFollowable, Follower;
    var first, second := Acquires("e1", "n1", member, 1, path), Acquires("e2", "n2", member, 2, other);
    var steps := [Restart, Submitted(first, 0)];
    OneClaimHeld(path, member, sp);
    SecondClaim(path, other, first, second, 10, sp);
    Accepts(steps, second, 10, sp);
    AcquireFollowable(Run(START, steps, sp), second, 10, other, sp);
    FollowableMore(steps, Submitted(second, 10), sp);
    assert steps + [Submitted(second, 10)] == TwoClaims(path, other, member);
  }

  lemma AcquireFollowable(w: World, event: Event, now: int, path: string, sp: Spelling)
    requires event.payload == LockAcquire(path, File, Soft) && event.eventId != ""
    ensures HostFollowable(w, Submitted(event, now), sp)
  {
    hide Ingest;
  }

  /** A claim renamed onto a path that the member holds already ages out there. */
  lemma AgedRename(path: string, other: string, member: Member, sp: Spelling)
    requires sp.Lawful() && sp.Key(path) != sp.Key(other)
    ensures Diverged(TwoClaims(path, other, member)
                     + [Submitted(Event("e3", member, 3, "n3", PathRenamed(path, other)), 11), SweepStep([], 5, Works)],
                     sp)
  {
    hide Run, Next, Takes, Apply, Projects, AllHostFollowable, TransferPath, AgePassSafe, HidesWinner, Announced,
         LastRevision;
    var rename := Event("e3", member, 3, "n3", PathRenamed(path, other));
    var steps := TwoClaims(path, other, member);
    TwoClaimsHeld(path, other, member, sp);
    ClaimsMeet(path, other, member, sp);
    var w := Run(START, steps, sp);
    RenameApplies(w.memory.value.regs, rename, path, other, 3, 11, sp);
    Accepts(steps, rename, 11, sp);
    FollowableMore(steps, Submitted(rename, 11), sp);
    var renamed := steps + [Submitted(rename, 11)];
    WinnerHidden(Run(START, renamed, sp).memory.value.regs.locks, other, member, sp);
    SweepFollowedIff(renamed, [], 5, sp);
    RunMore(renamed, SweepStep([], 5, Works), sp);
    assert renamed + [SweepStep([], 5, Works)] == steps + [Submitted(rename, 11), SweepStep([], 5, Works)];
  }

  lemma WinnerHidden(locks: Groups, path: string, member: Member, sp: Spelling)
    requires PathGroup(sp.Key(path)) in locks.data
    requires locks.data[PathGroup(sp.Key(path))] ==
             [ClaimOn(path, "e2", member, 2, 10), ClaimOn(path, "e1", member, 3, 0).(concurrent := true)]
    ensures !AgePassSafe(locks, 5, sp)
  {
    var claims := locks.data[PathGroup(sp.Key(path))];
    assert claims[1] in claims && HidesWinner(locks, PathGroup(sp.Key(path)), claims[1], 5, sp);
  }

  lemma RenameApplies(regs: Registries, event: Event, path: string, other: string, revision: nat, now: int,
                      sp: Spelling)
    requires event.payload == PathRenamed(path, other)
             && TransferPath(regs.locks, event.member, path, other, revision, sp).Some?
    requires regs.intents == Empty() && sp.Key(path) != sp.Key(other)
    ensures Apply(regs, event, revision, now, sp).Applied?
    ensures Apply(regs, event, revision, now, sp).regs.locks ==
            TransferPath(regs.locks, event.member, path, other, revision, sp).value
    ensures Announced(regs, event, sp)
  {
    hide TransferPath;
  }

  // ----- A silent sweep -----

  function Emptied(member: Member, path: string): seq<Step> {
    [Restart, Submitted(Event("e1", member, 1, "n1", IntentDeclare([], [path], "")), 0),
     Submitted(Event("e2", member, 2, "n2", FileCreated(path)), 0)]
  }

  /** The planned creation happens, so the intent has no path left. */
  lemma IntentEmptied(member: Member, path: string, sp: Spelling)
    requires sp.Lawful() && |path| <= MAX_PATH_LENGTH
    ensures var w := Run(START, Emptied(member, path), sp);
            && w.memory.Some? && !w.memory.value.faulted
            && w.memory.value.regs.intents == JsMap(["e1"], map["e1" := Intent("e1", member, [], [], "", 1)])
            && w.memory.value.regs.locks == Empty() && w.memory.value.regs.presence == Empty()
  {
    hide Run, Next, Takes, Apply, Announced;
    var declare := Event("e1", member, 1, "n1", IntentDeclare([], [path], ""));
    var create := Event("e2", member, 2, "n2", FileCreated(path));
    var steps := [Restart, Submitted(declare, 0)];
    DeclaredCreation(declare, path, sp);
    First(declare, 0, sp);
    CreationDone(member, path, create, sp);
    Accepts(steps, create, 0, sp);
    assert steps + [Submitted(create, 0)] == Emptied(member, path);
  }

  function Planned(member: Member, path: string, sp: Spelling): Registries {
    NO_STATE.(intents := JsMap(["e1"], map["e1" := Intent("e1", member, [], [sp.normalize(path)], "", 1)]))
  }

  lemma DeclaredCreation(event: Event, path: string, sp: Spelling)
    requires event.eventId == "e1" && event.payload == IntentDeclare([], [path], "") && |path| <= MAX_PATH_LENGTH
    ensures OneChange(Apply(NO_STATE, event, 1, 0, sp))
            && Apply(NO_STATE, event, 1, 0, sp).regs == Planned(event.member, path, sp)
    ensures Announced(NO_STATE, event, sp)
  {
    assert Acceptable([], [path]);
    assert [path][1..] == [] && NormalizeAll([], sp) == [];
    assert [sp.normalize(path)] + [] == [sp.normalize(path)];
    assert Reclassify({}, [], [path], sp) == ([], [sp.normalize(path)]);
    assert [] + ["e1"] == ["e1"];
  }

  lemma CreationDone(member: Member, path: string, event: Event, sp: Spelling)
    requires sp.Lawful() && event.payload == FileCreated(path)
    ensures Apply(Planned(member, path, sp), event, 2, 0, sp).Applied?
    ensures var regs := Apply(Planned(member, path, sp), event, 2, 0, sp).regs;
            && regs.intents == JsMap(["e1"], map["e1" := Intent("e1", member, [], [], "", 1)])
            && regs.locks == Empty() && regs.presence == Empty()
  {
    var intent := Intent("e1", member, [], [sp.normalize(path)], "", 1);
    var created := sp.normalize(path);
    assert created in [created] && sp.Key(created) == sp.Key(path) && [created][1..] == [];
    assert DropPath([created], sp.Key(path), sp) == [];
    assert AfterEvent(intent, Created(path), sp) == intent.(createPaths := []);
    assert AllAfter(Planned(member, path, sp).intents, Created(path), sp).data ==
           map["e1" := intent.(createPaths := [])];
  }

  /** The sweep of its device drops the intent and tells nobody; after a crash it is back. */
  lemma SweptAndBack(member: Member, path: string, sp: Spelling)
    requires sp.Lawful() && |path| <= MAX_PATH_LENGTH
    ensures var sweep := SweepStep([member.deviceId], 0, Works);
            var w := Run(START, Emptied(member, path), sp);
                var swept := Run(START, Emptied(member, path) + [sweep], sp);
            var back := Run(START, Emptied(member, path) + [sweep] + [Crash] + [Restart], sp);
            && swept.memory.Some? && "e1" !in swept.memory.value.regs.intents.data && swept.published == w.published
            && back.memory.Some? && "e1" in back.memory.value.regs.intents.data
  {
    hide Run, Safe, Running, SweepExpiry, Recovered, NothingToAnnounce;
    var sweep := SweepStep([member.deviceId], 0, Works);
    var steps := Emptied(member, path);
    var w := Run(START, steps, sp);
    IntentEmptied(member, path, sp);
    RunIsSafe(steps, sp);
    SafeRunning(w, sp);
    NothingLeft(w.memory.value.regs, member, sp);
    SilentSweepIsForgotten(w.memory.value, w.store, [member.deviceId], 0, true, sp);
    RunMore(steps, sweep, sp);
    RunMore(steps + [sweep], Crash, sp);
    RunMore(steps + [sweep] + [Crash], Restart, sp);
    assert w.published + [] == w.published;
  }

  lemma NothingLeft(regs: Registries, member: Member, sp: Spelling)
    requires regs.intents == JsMap(["e1"], map["e1" := Intent("e1", member, [], [], "", 1)])
    requires regs.locks == Empty() && regs.presence == Empty()
    ensures NothingToAnnounce(regs, [member.deviceId], 0)
    ensures "e1" !in Spared(regs.intents.data, [member.deviceId])
  {
  }

  // ----- A rejected event id -----

  /** A withdrawal of an unknown intent is rejected; its retry with a fresh counter finds the row
      of the first try and fences the host although the storage works. */
  lemma RetryFences(member: Member, sp: Spelling)
    requires sp.Lawful()
    ensures var withdrawal := Event("e1", member, 1, "n1", IntentWithdraw("none"));
            var retry := withdrawal.(counter := 2, nonce := "n2");
            var w := Run(START, [Restart] + [Submitted(withdrawal, 0)], sp);
            var after := Run(START, [Restart] + [Submitted(withdrawal, 0)] + [Submitted(retry, 0)], sp);
            && w.memory.Some? && !w.memory.value.faulted
            && after.memory.Some? && after.memory.value.faulted
  {
    hide Run, Safe, Running, Apply, AcceptReplay, Ingest, Serialize, Restore;
    var withdrawal := Event("e1", member, 1, "n1", IntentWithdraw("none"));
    var retry := withdrawal.(counter := 2, nonce := "n2");
    var start := Run(START, [Restart], sp);
    Started(sp);
    RunIsSafe([Restart], sp);
    SafeRunning(start, sp);
    RowsAreBelow(start.memory.value, start.store, sp);
    Unknown(withdrawal, sp);
    IngestRejects(start.memory.value, start.store, withdrawal, 0, sp);
    RunMore([Restart], Submitted(withdrawal, 0), sp);
    var steps := [Restart] + [Submitted(withdrawal, 0)];
    var w := Run(START, steps, sp);
    RunIsSafe(steps, sp);
    SafeRunning(w, sp);
    GuardTakes(start.memory.value.gate.guard, withdrawal, retry.(eventId := "e2"));
    assert Takes(start, retry);
    assert RowOf(withdrawal, 1) in w.store.events;
    RetryOfRejectedFences(w.memory.value, w.store, retry, PASSES, 0, sp);
    RunMore(steps, Submitted(retry, 0), sp);
  }

  lemma Unknown(event: Event, sp: Spelling)
    requires event.payload == IntentWithdraw("none")
    ensures Apply(NO_STATE, event, 1, 0, sp).Refused?
  {
  }

  lemma IngestRejects(memory: Memory, store: Durable, event: Event, now: int, sp: Spelling)
    requires !memory.faulted && event.eventId !in memory.gate.applied
    requires AcceptReplay(memory.gate.guard, event.member.deviceId, event.counter, event.nonce).Some?
    requires forall row :: row in store.events ==> row.eventId != event.eventId && row.eventRevision <= memory.counter
    requires Apply(memory.regs, event, memory.counter + 1, now, sp).Refused?
    ensures var r := Ingest(memory, store, event, PASSES, true, now, sp);
            && r.reply.RuleRejection? && !r.memory.faulted && r.memory.gate.applied == memory.gate.applied
            && Option.Some(r.memory.gate.guard) ==
               AcceptReplay(memory.gate.guard, event.member.deviceId, event.counter, event.nonce)
            && r.store.events == store.events + [RowOf(event, memory.counter + 1)]
  {
    hide Apply, Serialize, Restore, AcceptReplay, RecordApplied;
  }

  // ----- An overtaken answer -----

  function Overtaking(path: string, other: string, member: Member): seq<Step> {
    [Restart, Submitted(Acquires("e1", "n1", member, 1, path), 0)] + [Connect]
    + [Submitted(Acquires("e2", "n2", member, 2, other), 10)] + [ServeSync] + [Deliver] + [Deliver]
  }

  /** The client asks for everything, a broadcast arrives first, then the answer: the client is
      synced and has received every broadcast, but does not show the first lock. */
  lemma OvertakenRun(path: string, other: string, member: Member, sp: Spelling)
    requires sp.Lawful() && sp.Key(path) != sp.Key(other)
    ensures var w := Run(START, Overtaking(path, other, member), sp);
            && w.memory.Some? && w.client.link.Up? && w.client.link.sync.Received? && w.client.link.next == |w.history|
            && exists key :: Shown(w.memory.value.regs, key, sp) == Some("") && Seen(w.client.cache, key) == None
  {
    hide Run, Takes, Apply, Shown, ApplyEvents, SyncFrom, Delivered;
    var first, second := Acquires("e1", "n1", member, 1, path), Acquires("e2", "n2", member, 2, other);
    var claim, later := ClaimOn(path, "e1", member, 1, 0), ClaimOn(other, "e2", member, 2, 10);
    var begun := [Restart, Submitted(first, 0)];
    FirstClaim(path, first, 0, sp);
    SecondClaim(path, other, first, second, 10, sp);
    First(first, 0, sp);
    var connected := begun + [Connect];
    RunMore(begun, Connect, sp);
    TakesStays(Run(START, begun, sp), Run(START, connected, sp), second);
    Accepts(connected, second, 10, sp);
    var both := connected + [Submitted(second, 10)];
    RunMore(both, ServeSync, sp);
    RunMore(both + [ServeSync], Deliver, sp);
    RunMore(both + [ServeSync] + [Deliver], Deliver, sp);
    var one, two := Protocol.Update(LockChange(claim, Added), 1), Protocol.Update(LockChange(later, Added), 2);
    assert [one] + [two] == [one, two];
    AnswerIgnored(Run(START, both, sp), one, two, sp);
    FirstShown(path, other, claim, later, Run(START, both, sp).memory.value.regs, sp);
    assert KeyOf(two.change, sp) != LockSlot(claim, sp);
  }

  /** The broadcast comes before the answer, so the answer finds the cursor past both updates. */
  lemma AnswerIgnored(w: World, one: Update, two: Update, sp: Spelling)
    requires one.eventRevision == 1 && two.eventRevision == 2 && !two.change.op.Removed?
    requires w.memory.Some? && w.memory.value.log == Log([one, two], 0) && w.history == [one, two]
    requires w.client == Client(NOTHING, Up(1, 1, 0, Awaited))
    ensures var after := Next(Next(Next(w, ServeSync, sp), Deliver, sp), Deliver, sp);
            && after.memory == w.memory && after.history == w.history
            && after.client.link.Up? && after.client.link.sync.Received? && after.client.link.next == 2
            && after.client.cache.slots == map[KeyOf(two.change, sp) := two]
  {
    hide Serialize, ApplyEvents, Since;
    OldIgnored(one, two, sp);
    var served := Next(w, ServeSync, sp);
    assert served.client.link == Up(1, 1, 0, Served(2, SyncEvents([one, two])));
    var overtaken := Next(served, Deliver, sp);
    assert overtaken.client == Client(ApplyUpdate(NOTHING, two, sp), Up(2, 1, 0, Served(2, SyncEvents([one, two]))));
  }

  lemma OldIgnored(one: Update, two: Update, sp: Spelling)
    requires one.eventRevision == 1 && two.eventRevision == 2
    ensures Since([one, two], 0) == [one, two]
    ensures ApplyEvents(NOTHING, [two], sp) == ApplyUpdate(NOTHING, two, sp)
    ensures ApplyEvents(ApplyUpdate(NOTHING, two, sp), [one, two], sp) == ApplyUpdate(NOTHING, two, sp)
  {
    AllSince([one, two], 0);
    SortedAlready([two]);
    SortedAlready([one, two]);
    assert [two][1..] == [];
    ApplyAllStale(ApplyUpdate(NOTHING, two, sp), [one, two], sp);
  }

  lemma FirstShown(path: string, other: string, claim: Lock, later: Lock, regs: Registries, sp: Spelling)
    requires sp.Lawful() && sp.Key(path) != sp.Key(other) && claim.scope == path && claim.kind.File?
             && !claim.concurrent
    requires regs.locks == OneGroup(path, claim, sp).Set(PathGroup(sp.Key(other)), [later])
    ensures Shown(regs, LockSlot(claim, sp), sp) == Some("")
  {
    assert FirstUnflagged([claim]) == Option.Some(claim);
  }

  // ----- Such paths exist -----

  /** Two paths with different keys on every host, and two spellings of one key on a host that
      folds letter case. */
  lemma PathsExist(platform: Platform)
    ensures HostSpelling(platform).Lawful()
    ensures HostSpelling(platform).Key("a") != HostSpelling(platform).Key("b")
    ensures HostSpelling(CaseInsensitive).Key("a") == HostSpelling(CaseInsensitive).Key("A")
    ensures HostSpelling(CaseInsensitive).normalize("a") != HostSpelling(CaseInsensitive).normalize("A")
  {
    HostSpellingIsLawful(platform);
    OneSegment("a");
    OneSegment("b");
    OneSegment("A");
    assert ToLowerCase("a") == "a" && ToLowerCase("b") == "b" && ToLowerCase("A") == "a";
  }

  lemma OneSegment(path: string)
    requires path != "" && path != "." && path != ".." && Plain(path)
    ensures NormalizePath(path) == path
  {
    SegmentsOfPlain(path, "");
    assert [path][..0] == [];
    assert Resolve([path]) == [path];
  }
}
