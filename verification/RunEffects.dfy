/** What the host admits, and what becomes of intents, claims, known files and audits over whole
    runs, with crashes, failed commits and restarts. */
module RunEffects {
  import opened Protocol
  import opened JsText
  import opened Paths
  import opened Locks
  import opened Intents
  import opened Presences
  import opened Cache
  import opened Registries
  import opened States
  import opened Host
  import opened HostProofs
  import opened Runs
  import opened ClientRuns
  import opened ClaimOrder
  import opened ClaimEffects
  import opened EntryEffects

  // ----- What is admitted -----

  /** Everything that is asked of an event before the rules are: it is genuine, well formed and
      permitted, the host is not fenced, and the event is neither a duplicate nor replayed. */
  ghost predicate Admissible(memory: Memory, store: Durable, event: Event, checks: Checks) {
    && checks.authentic && checks.wellFormed && checks.permitted && !memory.faulted
    && event.eventId !in AppliedIndex(store.applied)
    && event.counter > 0
    && (forall row :: row in store.events && row.deviceId == event.member.deviceId ==>
          row.replayCounter < event.counter)
    && (event.member.deviceId in memory.gate.guard ==>
          event.nonce !in memory.gate.guard[event.member.deviceId].usedNonces)
  }

  lemma {:induction false} HighestIsReached(events: seq<EventRow>, deviceId: string)
    ensures forall row :: row in events && row.deviceId == deviceId ==>
              row.replayCounter <= HighestFor(DeviceCounters(events), deviceId)
    ensures HighestFor(DeviceCounters(events), deviceId) == 0
            || exists row :: row in events && row.deviceId == deviceId
                             && row.replayCounter == HighestFor(DeviceCounters(events), deviceId)
  {
    if events != [] {
      var init, last := events[..|events| - 1], events[|events| - 1];
      HighestIsReached(init, deviceId);
      assert events == init + [last];
      assert last in events;
    }
  }

  lemma GuardAdmits(memory: Memory, store: Durable, event: Event, sp: Spelling)
    requires Running(memory, store, sp) && !memory.faulted
    ensures AcceptReplay(memory.gate.guard, event.member.deviceId, event.counter, event.nonce).Some? <==>
            && event.counter > 0
            && (forall row :: row in store.events && row.deviceId == event.member.deviceId ==>
                  row.replayCounter < event.counter)
            && (event.member.deviceId in memory.gate.guard ==>
                  event.nonce !in memory.gate.guard[event.member.deviceId].usedNonces)
  {
    hide StoreSound, InStep, DeviceCounters;
    var device := event.member.deviceId;
    HighestIsReached(store.events, device);
    assert HighestFor(memory.gate.guard, device) == HighestFor(DeviceCounters(store.events), device);
  }

  /** When the rules refuse an event: an override without a reason, a release of what the member does
      not hold, an event about an intent that it may not touch or with impossible paths, or another
      event that is refused. */
  lemma RulesRefuseIff(regs: Registries, event: Event, revision: nat, now: int, sp: Spelling)
    requires LocksValid(regs.locks, sp)
    ensures Apply(regs, event, revision, now, sp).Refused? <==>
            match event.payload
            case LockOverride(_, _, _, reason) => AllSpace(reason)
            case LockRelease(target) =>
              forall group :: Names(regs.locks, target, sp, group) ==>
                Holder(regs.locks, group) == None
                || Holder(regs.locks, group).value.holder.memberId != event.member.memberId
            case Other(refused, _) => refused
            case _ => WhyRefused(regs.intents, event) != None
  {
    hide LocksValid, Acquire, Release, RenameLocks, DeleteLock, AllEventChanges, AllAfter, Reclassify, IntentChanges,
         Transition, Report, Names, Holder, WhyRefused;
    if AboutIntents(event.payload) {
      IntentEventRefusedIff(regs, event, revision, now, sp);
    } else {
      match event.payload
      case LockOverride(_, _, _, reason) => TrimmedAwayIff(reason);
      case LockRelease(target) => ReleaseRefusedIff(regs.locks, event.member, target, sp);
      case _ => NotRefused(regs.intents, event);
    }
  }

  lemma NotRefused(intents: IntentMap, event: Event)
    requires !AboutIntents(event.payload)
    ensures WhyRefused(intents, event) == None
  {
  }

  lemma ReleaseRefusedIff(groups: Groups, requester: Member, target: ReleaseTarget, sp: Spelling)
    requires LocksValid(groups, sp)
    ensures Release(groups, requester, target, sp).ReleaseFailed? <==>
            forall group :: Names(groups, target, sp, group) ==>
              Holder(groups, group) == None || Holder(groups, group).value.holder.memberId != requester.memberId
  {
    hide LocksValid, Names, Holder;
    var found := FindGroup(groups.keys, groups.data, target, sp);
    forall group ensures Names(groups, target, sp, group) <==> found == Option.Some(group) {
      NamesIff(groups, target, sp, group);
    }
    if found.Some? { WinnerHeld(groups, found.value, sp); }
  }

  /** An event is accepted if and only if it is admissible, the rules allow it, no rejected event had
      its id, and the storage works. */
  lemma AcceptedIff(memory: Memory, store: Durable, event: Event, checks: Checks, storageWorks: bool, now: int,
                    sp: Spelling)
    requires Running(memory, store, sp)
    ensures Ingest(memory, store, event, checks, storageWorks, now, sp).reply.Accepted? <==>
            && Admissible(memory, store, event, checks) && storageWorks
            && Apply(memory.regs, event, memory.counter + 1, now, sp).Applied?
            && forall row :: row in store.events ==> row.eventId != event.eventId
  {
    hide StoreSound, InStep, AcceptReplay, Apply, Serialize, Restore, AppliedIndex, GuardCovers, CommitMutation;
    if !memory.faulted {
      GuardAdmits(memory, store, event, sp);
      InsertedIff(memory, store, event, sp);
      CommittedIff(store, RowOf(event, memory.counter + 1));
    }
  }

  lemma InsertedIff(memory: Memory, store: Durable, event: Event, sp: Spelling)
    requires Running(memory, store, sp)
    ensures Insertable(store.events, RowOf(event, memory.counter + 1)) <==>
            forall row :: row in store.events ==> row.eventId != event.eventId
  {
    hide StoreSound, InStep, GateInStep;
    RowsAreBelow(memory, store, sp);
  }

  lemma CommittedIff(store: Durable, row: EventRow)
    ensures forall recordApplied, audits, snapshot ::
              CommitMutation(store, row, recordApplied, audits, snapshot).Some? <==> Insertable(store.events, row)
  {
  }

  /** An inadmissible event changes nothing, and is told why: the first of these reasons. */
  lemma InadmissibleChangesNothing(memory: Memory, store: Durable, event: Event, checks: Checks, storageWorks: bool,
                                   now: int,
                                   sp: Spelling)
    requires Running(memory, store, sp) && !Admissible(memory, store, event, checks)
    ensures var r := Ingest(memory, store, event, checks, storageWorks, now, sp);
            && r.memory == memory && r.store == store && !r.reply.Accepted? && !r.reply.RuleRejection?
            && (r.reply == (if !checks.authentic then NotAuthentic
                            else if memory.faulted then StorageError
                            else if !checks.wellFormed then Reply.FormatError
                            else if !checks.permitted then NotPermitted
                            else if event.eventId in AppliedIndex(store.applied) then
                              DuplicateOf(AppliedIndex(store.applied)[event.eventId],
                                          CurrentConflict(memory.regs, event, sp))
                            else Reply.FormatError))
  {
    hide StoreSound, InStep, AcceptReplay, Apply, ApplyAndCommit, AppliedIndex, GuardCovers;
    if !memory.faulted {
      GuardAdmits(memory, store, event, sp);
    }
  }

  /** What was admitted once is never admitted again, nor is another event of the device with its
      nonce or with a counter that is not above its own. */
  lemma NonceAndCounterServeOnce(memory: Memory, store: Durable, event: Event, checks: Checks, now: int, later: Event,
                                 laterChecks: Checks, sp: Spelling)
    requires Running(memory, store, sp) && later.member.deviceId == event.member.deviceId
    requires later.nonce == event.nonce || later.counter <= event.counter || later.eventId == event.eventId
    requires var r := Ingest(memory, store, event, checks, true, now, sp); r.reply.Accepted? || r.reply.RuleRejection?
    ensures var r := Ingest(memory, store, event, checks, true, now, sp);
            Admissible(r.memory, r.store, later, laterChecks) ==>
              later.eventId == event.eventId && r.reply.RuleRejection? && later.counter > event.counter
              && later.nonce != event.nonce
  {
    hide StoreSound, InStep, Apply, Serialize, Restore, AppliedIndex, RecordApplied, GuardCovers;
    var r := Ingest(memory, store, event, checks, true, now, sp);
    IngestAdds(memory, store, event, checks, true, now, sp);
    assert RowOf(event, memory.counter + 1) in r.store.events;
  }

  // ----- Intents over runs -----

  /** The step takes the intent from its owner: the owner withdraws it, or its device is swept. */
  predicate TakesIntent(step: Step, id: string, owner: Member) {
    match step
    case Submit(event, _, _, _) => event.payload == IntentWithdraw(id) && event.member.memberId == owner.memberId
    case SweepStep(stale, _, _) => owner.deviceId in stale
    case _ => false
  }

  ghost predicate HoldsIntent(regs: Registries, id: string, owner: Member) {
    id in regs.intents.data && regs.intents.data[id].owner == owner
  }

  lemma EventKeepsIntent(regs: Registries, event: Event, revision: nat, now: int, sp: Spelling, ids: set<string>,
                         id: string,
                         owner: Member)
    requires Incoming(regs, event, revision, ids, sp) && HoldsIntent(regs, id, owner)
    requires Apply(regs, event, revision, now, sp).Applied?
    requires !(event.payload == IntentWithdraw(id) && event.member.memberId == owner.memberId)
    ensures HoldsIntent(Apply(regs, event, revision, now, sp).regs, id, owner)
  {
    hide Apply, LocksValid, PresenceValid, IntentsValid, EntryEffects.Recorded;
    EventIntents(regs, event, revision, now, sp);
    if AboutIntents(event.payload) {
      IntentEventRefusedIff(regs, event, revision, now, sp);
    }
    assert id != event.eventId;
  }

  lemma IngestKeepsIntent(memory: Memory, store: Durable, event: Event, checks: Checks, storageWorks: bool, now: int,
                          sp: Spelling,
                          id: string, owner: Member)
    requires Running(memory, store, sp) && HoldsIntent(memory.regs, id, owner)
    requires !(event.payload == IntentWithdraw(id) && event.member.memberId == owner.memberId)
    ensures HoldsIntent(Ingest(memory, store, event, checks, storageWorks, now, sp).memory.regs, id, owner)
  {
    hide Running, Apply, AcceptReplay, Serialize, Restore;
    var r := Ingest(memory, store, event, checks, storageWorks, now, sp);
    if !memory.faulted {
      FencedSubmission(memory, store, event, checks, storageWorks, now, sp);
      if r.reply.Accepted? {
        RunningIncoming(memory, store, event, sp);
        EventKeepsIntent(memory.regs, event, memory.counter + 1, now, sp, AppliedIds(store), id, owner);
      }
    }
  }

  lemma SoundPresence(memory: Memory, store: Durable, sp: Spelling)
    requires Running(memory, store, sp)
    ensures sp.Lawful() && PresenceValid(memory.regs.presence, sp)
            && PresenceBounded(memory.regs.presence, memory.counter)
            && LocksValid(memory.regs.locks, sp) && Bounded(memory.regs.locks, memory.counter, AppliedIds(store))
  {
    hide StoreSound, Mirrors, GateInStep, RestoredRegistries, LocksValid, Bounded;
  }

  lemma SweepKeepsIntent(memory: Memory, store: Durable, stale: seq<string>, cutoff: int, storageWorks: bool,
                         sp: Spelling,
                         id: string, owner: Member)
    requires Running(memory, store, sp) && HoldsIntent(memory.regs, id, owner) && owner.deviceId !in stale
    ensures HoldsIntent(SweepExpiry(memory, store, stale, cutoff, storageWorks, sp).memory.regs, id, owner)
  {
    hide Running, Sweep, Serialize, Restore, CommitExpiry, PresenceValid, PresenceBounded;
    SweepExpiryKeeps(memory, store, stale, cutoff, storageWorks, sp);
    SoundPresence(memory, store, sp);
    SweepEntries(memory.regs, stale, cutoff, memory.counter + 1, sp);
  }

  lemma StoredToo(memory: Memory, store: Durable, sp: Spelling, id: string, owner: Member)
    requires Running(memory, store, sp) && HoldsIntent(memory.regs, id, owner)
    ensures HoldsIntent(RestoredRegistries(store, sp), id, owner)
  {
    hide StoreSound, Sound, GateInStep, RestoredRegistries;
  }

  /** Tables and, while the host is up, memory hold the intent. */
  ghost predicate Held(w: World, sp: Spelling, id: string, owner: Member) {
    && HoldsIntent(RestoredRegistries(w.store, sp), id, owner)
    && (w.memory.Some? ==> HoldsIntent(w.memory.value.regs, id, owner))
  }

  lemma StepKeepsIntent(w: World, step: Step, sp: Spelling, id: string, owner: Member)
    requires Safe(w, sp) && Held(w, sp, id, owner) && !TakesIntent(step, id, owner)
    ensures Held(Next(w, step, sp), sp, id, owner)
  {
    hide Running, RestoredRegistries, Ingest, SweepExpiry, LogHolds, AcksHold, Increasing, StoreSound, UpdatesBelow,
         HoldsIntent;
    match step
    case Submit(event, checks, now, fate) =>
      if w.memory.Some? {
        var r := Ingest(w.memory.value, w.store, event, checks, Commits(fate), now, sp);
        IngestKeepsIntent(w.memory.value, w.store, event, checks, Commits(fate), now, sp, id, owner);
        IngestKeeps(w.memory.value, w.store, event, checks, Commits(fate), now, sp);
        StoredToo(r.memory, r.store, sp, id, owner);
      }
    case SweepStep(stale, cutoff, fate) =>
      if w.memory.Some? {
        var r := SweepExpiry(w.memory.value, w.store, stale, cutoff, Commits(fate), sp);
        SweepKeepsIntent(w.memory.value, w.store, stale, cutoff, Commits(fate), sp, id, owner);
        SweepExpiryKeeps(w.memory.value, w.store, stale, cutoff, Commits(fate), sp);
        StoredToo(r.memory, r.store, sp, id, owner);
      }
    case _ =>
  }

  lemma {:induction false} IntentStays(w: World, later: seq<Step>, sp: Spelling, id: string, owner: Member)
    requires Safe(w, sp) && Held(w, sp, id, owner) && forall step :: step in later ==> !TakesIntent(step, id, owner)
    ensures Safe(Run(w, later, sp), sp) && Held(Run(w, later, sp), sp, id, owner)
  {
    hide Safe, Next, Held, TakesIntent;
    if later != [] {
      var init, last := later[..|later| - 1], later[|later| - 1];
      assert last in later && forall step :: step in init ==> step in later;
      IntentStays(w, init, sp, id, owner);
      StepIsSafe(Run(w, init, sp), last, sp);
      StepKeepsIntent(Run(w, init, sp), last, sp, id, owner);
    }
  }

  /** Over every run an intent leaves only by a withdrawal of its owner or a sweep of its owner's
      device, and it never changes its owner: not by the events of other members, not by failed
      commits, not by crashes and restarts. */
  lemma IntentsLeaveByTheirOwners(steps: seq<Step>, later: seq<Step>, sp: Spelling, id: string)
    requires sp.Lawful() && Run(START, steps, sp).memory.Some?
             && id in Run(START, steps, sp).memory.value.regs.intents.data
    requires Run(Run(START, steps, sp), later, sp).memory.Some?
    ensures var owner := Run(START, steps, sp).memory.value.regs.intents.data[id].owner;
            var after := Run(Run(START, steps, sp), later, sp).memory.value.regs.intents.data;
            (id in after && after[id].owner == owner) || exists step :: step in later && TakesIntent(step, id, owner)
  {
    hide Safe, Running, TakesIntent, RestoredRegistries;
    RunIsSafe(steps, sp);
    var w := Run(START, steps, sp);
    var owner := w.memory.value.regs.intents.data[id].owner;
    SafeRunning(w, sp);
    StoredToo(w.memory.value, w.store, sp, id, owner);
    if forall step :: step in later ==> !TakesIntent(step, id, owner) {
      IntentStays(w, later, sp, id, owner);
    }
  }

  /** The owner's withdrawal is accepted and takes exactly that intent; the same request, and an
      update, of another member is rejected as not the owner's and changes nothing. */
  lemma OnlyTheOwnerWithdraws(memory: Memory, store: Durable, event: Event, checks: Checks, now: int, sp: Spelling,
                              id: string)
    requires Running(memory, store, sp) && Admissible(memory, store, event, checks) && id in memory.regs.intents.data
    requires forall row :: row in store.events ==> row.eventId != event.eventId
    ensures var r := Ingest(memory, store, event, checks, true, now, sp);
            var owner := memory.regs.intents.data[id].owner;
            && (event.payload == IntentWithdraw(id) && event.member.memberId == owner.memberId ==>
                  && r.reply.Accepted? && r.memory.regs.intents.data == memory.regs.intents.data - {id}
                  && r.memory.regs == memory.regs.(intents := r.memory.regs.intents))
            && ((event.payload == IntentWithdraw(id) || (event.payload.IntentUpdate? && event.payload.intentId == id))
                && event.member.memberId != owner.memberId ==>
                  r.reply == RuleRejection(IntentRejection(IntentError.NotOwner), memory.counter + 1)
                  && r.memory.regs == memory.regs)
  {
    hide Running, AcceptReplay, Serialize, Restore, Apply, AppliedIndex;
    AcceptedIff(memory, store, event, checks, true, now, sp);
    if AboutIntents(event.payload) {
      IntentEventRefusedIff(memory.regs, event, memory.counter + 1, now, sp);
      RejectedReply(memory, store, event, checks, now, sp);
      AcceptedState(memory, store, event, checks, now, sp);
      if event.payload == IntentWithdraw(id) && event.member.memberId == memory.regs.intents.data[id].owner.memberId {
        WithdrawnRegs(memory.regs, event, memory.counter + 1, now, sp, id);
      }
    }
  }

  lemma WithdrawnRegs(regs: Registries, event: Event, revision: nat, now: int, sp: Spelling, id: string)
    requires event.payload == IntentWithdraw(id) && Apply(regs, event, revision, now, sp).Applied?
    ensures var after := Apply(regs, event, revision, now, sp).regs;
            after == regs.(intents := after.intents) && after.intents.data == regs.intents.data - {id}
  {
  }

  lemma AcceptedState(memory: Memory, store: Durable, event: Event, checks: Checks, now: int, sp: Spelling)
    ensures var r := Ingest(memory, store, event, checks, true, now, sp);
            r.reply.Accepted? ==>
              && Apply(memory.regs, event, memory.counter + 1, now, sp).Applied?
              && r.memory.regs == Apply(memory.regs, event, memory.counter + 1, now, sp).regs
  {
    hide Apply, AcceptReplay, Serialize, Restore, CommitMutation;
  }

  /** An admissible event that the rules refuse is recorded, told why, and leaves the state alone. */
  lemma RejectedReply(memory: Memory, store: Durable, event: Event, checks: Checks, now: int, sp: Spelling)
    requires Running(memory, store, sp) && Admissible(memory, store, event, checks)
    requires forall row :: row in store.events ==> row.eventId != event.eventId
    ensures var r := Ingest(memory, store, event, checks, true, now, sp);
            var outcome := Apply(memory.regs, event, memory.counter + 1, now, sp);
            outcome.Refused? ==>
              && r.reply == RuleRejection(outcome.rejection, memory.counter + 1) && r.memory.regs == memory.regs
              && r.store.events == store.events
                 + [EventRow(memory.counter + 1, event.eventId, event.member.deviceId, event.counter)]
              && r.store.audits == store.audits && r.store.applied == store.applied
  {
    hide StoreSound, InStep, AcceptReplay, Apply, Serialize, Restore, AppliedIndex, GuardCovers;
    GuardAdmits(memory, store, event, sp);
    InsertedIff(memory, store, event, sp);
  }

  // ----- Claims over runs -----

  /** At the end of any run: exactly the claims of stale devices and the soft claims from before the
      cutoff leave with a sweep; a failed one takes nothing. */
  lemma SweepTakesExactly(steps: seq<Step>, stale: seq<string>, cutoff: int, fate: Fate, sp: Spelling, group: GroupKey,
                          bare: Lock)
    requires sp.Lawful() && Run(START, steps, sp).memory.Some? && !Run(START, steps, sp).memory.value.faulted
    ensures var before := Run(START, steps, sp).memory.value.regs.locks;
            var after := Next(Run(START, steps, sp), SweepStep(stale, cutoff, fate), sp);
            && (after.memory.Some? && !after.memory.value.faulted ==>
                  (Claimed(after.memory.value.regs.locks, group, bare) <==>
                   Claimed(before, group, bare) && !Stale(bare, stale) && !Aged(bare, cutoff)))
            && (after.memory.Some? && after.memory.value.faulted ==> after.memory.value.regs.locks == before)
            && (Claimed(before, group, bare) && !Stale(bare, stale) && !Aged(bare, cutoff) ==>
                  Claimed(RestoredRegistries(after.store, sp).locks, group, bare))
  {
    hide Run, Safe, Running, Sweep, Claimed, Stale, Aged, RestoredRegistries, Serialize, Restore, CommitExpiry,
         LocksValid, Bounded,
         PresenceValid, PresenceBounded;
    RunIsSafe(steps, sp);
    var w := Run(START, steps, sp);
    var memory := w.memory.value;
    SafeRunning(w, sp);
    SoundPresence(memory, w.store, sp);
    var r := SweepExpiry(memory, w.store, stale, cutoff, Commits(fate), sp);
    SweepExpiryKeeps(memory, w.store, stale, cutoff, Commits(fate), sp);
    SweepClaims(memory.regs, stale, cutoff, memory.counter + 1, sp, memory.counter, AppliedIds(w.store), group, bare);
    SameLocks(r.memory, r.store, sp);
  }

  /** So a hard or coordination-required claim of a device that is not stale survives every sweep, in
      memory and in the tables, whatever the cutoff and whatever fails. */
  lemma FirmClaimsSurvive(steps: seq<Step>, stale: seq<string>, cutoff: int, fate: Fate, sp: Spelling, group: GroupKey,
                          bare: Lock)
    requires sp.Lawful() && Run(START, steps, sp).memory.Some? && !Run(START, steps, sp).memory.value.faulted
    requires Claimed(Run(START, steps, sp).memory.value.regs.locks, group, bare)
    requires (bare.mode == Hard || bare.mode == CoordinationRequired) && bare.holder.deviceId !in stale
    ensures var after := Next(Run(START, steps, sp), SweepStep(stale, cutoff, fate), sp);
            && (after.memory.Some? ==> Claimed(after.memory.value.regs.locks, group, bare))
            && Claimed(RestoredRegistries(after.store, sp).locks, group, bare)
  {
    hide Run, Next, Claimed, RestoredRegistries;
    SweepTakesExactly(steps, stale, cutoff, fate, sp, group, bare);
  }

  /** At the end of any run an accepted event adds and takes exactly the claims that are its own. */
  lemma AcceptedClaims(steps: seq<Step>, event: Event, checks: Checks, now: int, sp: Spelling, group: GroupKey,
                       bare: Lock)
    requires sp.Lawful() && Run(START, steps, sp).memory.Some?
    requires var w := Run(START, steps, sp);
             Ingest(w.memory.value, w.store, event, checks, true, now, sp).reply.Accepted?
    ensures var w := Run(START, steps, sp); var before := w.memory.value.regs.locks;
            var after := Ingest(w.memory.value, w.store, event, checks, true, now, sp).memory.regs.locks;
            Claimed(after, group, bare) <==>
            || (Claimed(before, group, bare) && !Takes(before, event, sp, group, bare))
            || Adds(before, event, w.memory.value.counter + 1, now, sp, group, bare)
  {
    hide Run, Safe, Running, Apply, Claimed, Takes, Adds, AllInOrder, LocksValid, Bounded, Ingest, PresenceValid,
         PresenceBounded;
    RunIsSafe(steps, sp);
    ClaimsStayInOrder(steps, sp);
    var w := Run(START, steps, sp);
    SafeRunning(w, sp);
    SoundPresence(w.memory.value, w.store, sp);
    AcceptedState(w.memory.value, w.store, event, checks, now, sp);
    EventClaims(w.memory.value.regs, event, w.memory.value.counter + 1, now, sp, group, bare);
  }

  // ----- Known files over runs -----

  /** The step may end what is known of a file: it reports its deletion or its renaming, or the
      process ends. */
  ghost predicate Forgets(step: Step, key: string, sp: Spelling) {
    || EndsProcess(step)
    || (step.Submit? && match step.event.payload
                        case PathDeleted(path) => sp.Key(path) == key
                        case PathRenamed(fromPath, _) => sp.Key(fromPath) == key
                        case _ => false)
  }

  ghost predicate Reports(step: Step, key: string, sp: Spelling) {
    step.Submit? && match step.event.payload
                    case FileCreated(path) => sp.Key(path) == key
                    case PathRenamed(_, toPath) => sp.Key(toPath) == key
                    case _ => false
  }

  lemma IngestFiles(memory: Memory, store: Durable, event: Event, checks: Checks, storageWorks: bool, now: int,
                    sp: Spelling)
    ensures var after := Ingest(memory, store, event, checks, storageWorks, now, sp).memory.regs.tracked;
            || after == memory.regs.tracked
            || (Apply(memory.regs, event, memory.counter + 1, now, sp).Applied?
                && after == Apply(memory.regs, event, memory.counter + 1, now, sp).regs.tracked)
  {
    hide Apply, AcceptReplay, CommitMutation, Serialize, RestoreLocks, RestoreIntents, RestorePresence;
  }

  lemma StepFiles(w: World, step: Step, sp: Spelling, key: string)
    requires w.memory.Some? && Next(w, step, sp).memory.Some?
    ensures key in w.memory.value.regs.tracked && !Forgets(step, key, sp) ==>
              key in Next(w, step, sp).memory.value.regs.tracked
    ensures key in Next(w, step, sp).memory.value.regs.tracked ==>
              key in w.memory.value.regs.tracked || Reports(step, key, sp)
  {
    hide Ingest, Apply, Sweep, Serialize, RestoreLocks, RestoreIntents, RestorePresence;
    match step
    case Submit(event, checks, now, fate) =>
      IngestFiles(w.memory.value, w.store, event, checks, Commits(fate), now, sp);
      if Apply(w.memory.value.regs, event, w.memory.value.counter + 1, now, sp).Applied? {
        EventFiles(w.memory.value.regs, event, w.memory.value.counter + 1, now, sp, key);
      }
    case SweepStep(stale, cutoff, fate) =>
      SweptFiles(w.memory.value.regs, stale, cutoff, w.memory.value.counter + 1, sp);
    case _ =>
  }

  lemma SweptFiles(regs: Registries, stale: seq<string>, cutoff: int, next: nat, sp: Spelling)
    ensures Sweep(regs, stale, cutoff, next, sp).regs.tracked == regs.tracked
  {
    hide SweepDevices, ExpireLocks, Promotions;
    DevicesFiles(regs, stale, next, sp);
  }

  lemma {:induction false} DevicesFiles(regs: Registries, devices: seq<string>, next: nat, sp: Spelling)
    ensures SweepDevices(regs, devices, next, sp).regs.tracked == regs.tracked
    decreases |devices|
  {
    hide ExpireLocks, StopAll, ExpireIntents, OwnedBy, AllIntentChanges, ActiveForDevice;
    if devices != [] {
      var first := SweepDevice(regs, devices[0], next, sp);
      DevicesFiles(first.regs, devices[1..], next + |first.changes|, sp);
    }
  }

  /** While the process lives, a known file stays known until its deletion or renaming is reported. */
  lemma {:induction false} KnownFilesStay(w: World, later: seq<Step>, sp: Spelling, key: string)
    requires w.memory.Some? && key in w.memory.value.regs.tracked && forall step :: step in later ==>
               !Forgets(step, key, sp)
    ensures Run(w, later, sp).memory.Some? && key in Run(w, later, sp).memory.value.regs.tracked
  {
    hide Next, Forgets;
    if later != [] {
      var init, last := later[..|later| - 1], later[|later| - 1];
      assert last in later && forall step :: step in init ==> step in later;
      KnownFilesStay(w, init, sp, key);
      StaysUp(Run(w, init, sp), last, sp, key);
      StepFiles(Run(w, init, sp), last, sp, key);
    }
  }

  lemma StaysUp(w: World, step: Step, sp: Spelling, key: string)
    requires w.memory.Some? && !Forgets(step, key, sp)
    ensures Next(w, step, sp).memory.Some?
  {
    hide Ingest, SweepExpiry;
  }

  /** And a file is known only if its creation, or a renaming to its path, was reported. */
  lemma {:induction false} KnownFilesWereReported(steps: seq<Step>, sp: Spelling, key: string)
    requires Run(START, steps, sp).memory.Some? && key in Run(START, steps, sp).memory.value.regs.tracked
    ensures exists step :: step in steps && Reports(step, key, sp)
  {
    hide Next, Reports;
    if steps != [] {
      var init, last := steps[..|steps| - 1], steps[|steps| - 1];
      var before := Run(START, init, sp);
      assert last in steps && forall step :: step in init ==> step in steps;
      if before.memory.Some? {
        StepFiles(before, last, sp, key);
        if key in before.memory.value.regs.tracked { KnownFilesWereReported(init, sp, key); }
      } else {
        RestartKnowsNothing(before, last, sp);
      }
    }
  }

  lemma RestartKnowsNothing(w: World, step: Step, sp: Spelling)
    requires w.memory.None?
    ensures Next(w, step, sp).memory.Some? ==> Next(w, step, sp).memory.value.regs.tracked == {}
  {
    hide RestoreLocks, RestoreIntents, RestorePresence;
  }

  // ----- Audits over runs -----

  /** Whatever happens afterwards, an accepted event that is audited has its audit in the tables, in
      its member's name and under its revision, also if the process crashes right after the commit. */
  lemma AcceptedIsAudited(steps: seq<Step>, event: Event, checks: Checks, now: int, fate: Fate, later: seq<Step>,
                          sp: Spelling)
    requires sp.Lawful() && Run(START, steps, sp).memory.Some? && Commits(fate)
    requires var w := Run(START, steps, sp);
             Ingest(w.memory.value, w.store, event, checks, true, now, sp).reply.Accepted?
    ensures var w := Run(START, steps, sp); var after := Next(w, Submit(event, checks, now, fate), sp);
            var regs := Ingest(w.memory.value, w.store, event, checks, true, now, sp).memory.regs;
            var entry := AuditedAs(event, regs, w.memory.value.regs);
            entry.Some? ==>
              Audit(event.member, entry.value.0, entry.value.1, w.memory.value.counter + 1) in Run(after, later,
                      sp).store.audits
  {
    hide Run, Safe, Running, Apply, Ingest;
    RunIsSafe(steps, sp);
    var w := Run(START, steps, sp);
    var memory := w.memory.value;
    var after := Next(w, Submit(event, checks, now, fate), sp);
    StepIsSafe(w, Submit(event, checks, now, fate), sp);
    SafeRunning(w, sp);
    AcceptedState(memory, w.store, event, checks, now, sp);
    AcceptedAudits(memory, w.store, event, checks, now, sp);
    EventAudits(memory.regs, event, memory.counter + 1, now, sp);
    AuditsStay(after, later, sp);
  }

  lemma AcceptedAudits(memory: Memory, store: Durable, event: Event, checks: Checks, now: int, sp: Spelling)
    ensures var r := Ingest(memory, store, event, checks, true, now, sp);
            r.reply.Accepted? ==>
              && Apply(memory.regs, event, memory.counter + 1, now, sp).Applied?
              && r.store.audits == store.audits + Apply(memory.regs, event, memory.counter + 1, now, sp).audits
  {
    hide Apply, AcceptReplay, Serialize, Restore;
  }

  lemma StepKeepsAudits(w: World, step: Step, sp: Spelling)
    requires Safe(w, sp)
    ensures forall a :: a in w.store.audits ==> a in Next(w, step, sp).store.audits
  {
    hide Running, LogHolds, AcksHold, Increasing, StoreSound, UpdatesBelow, Ingest, Sweep, Serialize, Restore;
    if step.Submit? && w.memory.Some? {
      IngestAdds(w.memory.value, w.store, step.event, step.checks, Commits(step.fate), step.now, sp);
    }
  }

  lemma {:induction false} AuditsStay(w: World, later: seq<Step>, sp: Spelling)
    requires Safe(w, sp)
    ensures Safe(Run(w, later, sp), sp) && forall a :: a in w.store.audits ==> a in Run(w, later, sp).store.audits
  {
    hide Safe, Next;
    if later != [] {
      AuditsStay(w, later[..|later| - 1], sp);
      StepIsSafe(Run(w, later[..|later| - 1], sp), later[|later| - 1], sp);
      StepKeepsAudits(Run(w, later[..|later| - 1], sp), later[|later| - 1], sp);
    }
  }
}
