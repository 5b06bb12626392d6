/** What the host keeps between its memory and its tables. */
module HostProofs {
  import opened Protocol
  import opened JsMaps
  import opened Paths
  import opened Locks
  import opened LockProofs
  import opened Intents
  import opened Presences
  import opened Cache
  import opened Registries
  import opened States
  import opened Host

  // ----- Snapshots round trip -----

  /** Restoring a serialised state gives it back, apart from the set of existing files. */
  lemma SnapshotRoundTrip(regs: Registries, highestRevision: nat, tracked: set<string>, sp: Spelling)
    requires StateValid(regs, sp)
    ensures Restore(Serialize(regs, highestRevision), tracked, sp) == regs.(tracked := tracked)
  {
    hide LocksValid, IntentsValid, PresenceValid, RestoreLocks, RestoreIntents, RestorePresence, AllLocks;
    LocksRoundTrip(regs.locks, sp);
    IntentsRoundTrip(regs.intents, sp);
    PresenceRoundTrip(regs.presence, sp);
  }

  /** A lock request is answered with a conflict exactly when another member wins the scope, or
      the requester wins it with a later claim of its own; the conflict names the winner. A
      duplicate is told the same, except in that second case, where it is told of no conflict. */
  lemma ConflictNamesTheWinner(regs: Registries, event: Event, revision: nat, now: int, sp: Spelling, ids: set<string>)
    requires (event.payload.LockAcquire? || event.payload.LockOverride?) && Incoming(regs, event, revision, ids, sp)
    ensures var r := Apply(regs, event, revision, now, sp);
            var key := KeyOfScope(event.payload.scope, event.payload.kind, sp);
            && (r.Applied? <==> !(event.payload.LockOverride? && IsBlank(event.payload.reason)))
            && (r.Applied? ==>
                  var winner := Holder(r.regs.locks, key);
                  && winner.Some?
                  && (r.conflict.Some? <==>
                      winner.value.holder.memberId != event.member.memberId
                      || LaterClaimWins(regs.locks, key, event.member.memberId))
                  && (r.conflict.Some? ==>
                        r.conflict.value == LockConflict(event.payload.scope, winner.value.holder,
                                                         winner.value.eventRevision))
                  && CurrentConflict(r.regs, event, sp) ==
                     if LaterClaimWins(regs.locks, key, event.member.memberId) then None else r.conflict)
  {
    hide LocksValid, Bounded, Acquire, Transition, Holder, LaterClaimWins, IsBlank;
    var request := Lock(event.eventId, event.payload.scope, event.payload.kind, event.payload.mode, event.member,
                        revision, now, false);
    AcquireKeeps(regs.locks, request, sp, ids);
    ContendedIff(regs.locks, request, sp, ids);
  }

  // ----- The tables -----

  ghost predicate RowsOrdered(events: seq<EventRow>) {
    forall i, j :: 0 <= i < j < |events| ==>
      && events[i].eventRevision < events[j].eventRevision
      && events[i].eventId != events[j].eventId
      && (events[i].deviceId == events[j].deviceId ==> events[i].replayCounter < events[j].replayCounter)
  }

  ghost predicate RowsBelow(events: seq<EventRow>, watermark: nat) {
    forall e :: e in events ==> e.eventRevision <= watermark && e.replayCounter > 0
  }

  ghost predicate AppliedBelow(applied: seq<AppliedRow>, watermark: nat) {
    forall a :: a in applied ==> a.eventRevision <= watermark
  }

  ghost function AppliedIds(store: Durable): set<string> {
    AppliedIndex(store.applied).Keys
  }

  /** The tables of a session: ordered rows below the watermark, and a snapshot of a
      valid state at the watermark. */
  ghost predicate StoreSound(store: Durable, sp: Spelling) {
    && RowsOrdered(store.events) && RowsBelow(store.events, store.watermark)
       && AppliedBelow(store.applied, store.watermark)
    && Sound(RestoredRegistries(store, sp), store.watermark + 1, AppliedIds(store), sp)
    && (match store.snapshot
        case None => store.watermark == 0
        case Some(snapshot) => snapshot == Serialize(RestoredRegistries(store, sp), store.watermark))
  }

  /** The replay guard knows every persisted counter and no lower one. */
  ghost predicate GuardCovers(guard: ReplayGuard, events: seq<EventRow>) {
    forall d :: HighestFor(guard, d) == HighestFor(DeviceCounters(events), d)
  }

  function HighestFor(guard: ReplayGuard, deviceId: string): nat {
    if deviceId in guard then guard[deviceId].highestCounter else 0
  }

  // ----- Memory and tables -----

  predicate Pathless(intent: Intent) {
    intent.modifyPaths == [] && intent.createPaths == []
  }

  /** The stored state is the live one, except that it may hold intents that have no
      path left. */
  ghost predicate Mirrors(kept: Registries, live: Registries) {
    && kept.locks == live.locks && kept.presence == live.presence
    && (forall id :: id in live.intents.data ==>
          id in kept.intents.data && kept.intents.data[id] == live.intents.data[id])
    && (forall id :: id in kept.intents.data && id !in live.intents.data ==> Pathless(kept.intents.data[id]))
  }

  /** Memory and tables agree on the state and the revisions. */
  ghost predicate InStep(memory: Memory, store: Durable, sp: Spelling) {
    && memory.counter == store.watermark
    && Mirrors(RestoredRegistries(store, sp), memory.regs)
    && Sound(memory.regs, memory.counter + 1, AppliedIds(store), sp)
  }

  /** A process that may still accept events also agrees on what was received. */
  ghost predicate GateInStep(memory: Memory, store: Durable) {
    !memory.faulted ==>
      memory.gate.applied == AppliedIndex(store.applied) && GuardCovers(memory.gate.guard, store.events)
  }

  // ----- Committing -----

  lemma {:induction false} MaxAuditedBound(audits: seq<Audit>, bound: nat)
    requires forall a :: a in audits ==> a.eventRevision <= bound
    ensures MaxAudited(audits) <= bound
  {
    if audits != [] {
      assert audits[0] in audits;
      MaxAuditedBound(audits[1..], bound);
    }
  }

  lemma {:induction false} DeviceCountersBound(events: seq<EventRow>, deviceId: string)
    ensures forall e :: e in events && e.deviceId == deviceId ==>
              e.replayCounter <= HighestFor(DeviceCounters(events), deviceId)
  {
    if events != [] {
      var init, last := events[..|events| - 1], events[|events| - 1];
      DeviceCountersBound(init, deviceId);
      assert events == init + [last];
    }
  }

  lemma RowAppended(events: seq<EventRow>, row: EventRow, watermark: nat)
    requires RowsOrdered(events) && RowsBelow(events, watermark) && Insertable(events, row)
    requires row.eventRevision > watermark && row.replayCounter > HighestFor(DeviceCounters(events), row.deviceId)
    ensures RowsOrdered(events + [row]) && RowsBelow(events + [row], row.eventRevision)
  {
    DeviceCountersBound(events, row.deviceId);
    var all := events + [row];
    forall i, j | 0 <= i < j < |all|
      ensures all[i].eventRevision < all[j].eventRevision && all[i].eventId != all[j].eventId
      ensures all[i].deviceId == all[j].deviceId ==> all[i].replayCounter < all[j].replayCounter
    {
      assert all[i] == events[i] && events[i] in events;
    }
  }

  lemma GuardAdvances(guard: ReplayGuard, events: seq<EventRow>, row: EventRow, nonce: string)
    requires GuardCovers(guard, events) && AcceptReplay(guard, row.deviceId, row.replayCounter, nonce).Some?
    ensures row.replayCounter > HighestFor(DeviceCounters(events), row.deviceId)
    ensures GuardCovers(AcceptReplay(guard, row.deviceId, row.replayCounter, nonce).value, events + [row])
  {
    assert HighestFor(guard, row.deviceId) == HighestFor(DeviceCounters(events), row.deviceId);
    assert (events + [row])[..|events|] == events;
    var next := AcceptReplay(guard, row.deviceId, row.replayCounter, nonce).value;
    forall d ensures HighestFor(next, d) == HighestFor(DeviceCounters(events + [row]), d) {
      assert HighestFor(guard, d) == HighestFor(DeviceCounters(events), d);
    }
  }

  lemma {:induction false} IndexMembers(applied: seq<AppliedRow>)
    ensures forall id :: id in AppliedIndex(applied) <==> exists r :: r in applied && r.eventId == id
    ensures forall id :: id in AppliedIndex(applied) ==>
              exists r :: r in applied && r.eventId == id && r.eventRevision == AppliedIndex(applied)[id]
  {
    if applied != [] {
      var init, last := applied[..|applied| - 1], applied[|applied| - 1];
      assert applied == init + [last];
      IndexMembers(init);
    }
  }

  lemma IndexGrows(applied: seq<AppliedRow>, eventId: string, revision: nat)
    requires eventId !in AppliedIndex(applied)
    ensures AppliedIndex(RecordApplied(applied, eventId, revision)) == AppliedIndex(applied)[eventId := revision]
    ensures RecordApplied(applied, eventId, revision) == applied + [AppliedRow(eventId, revision)]
  {
    IndexMembers(applied);
    var all := applied + [AppliedRow(eventId, revision)];
    assert all[..|applied|] == applied;
  }

  lemma MirrorsItself(regs: Registries, tracked: set<string>)
    ensures Mirrors(regs.(tracked := tracked), regs)
  {
  }

  /** A snapshot taken at the watermark brings the tables in step. */
  lemma SnapshotInStep(memory: Memory, store: Durable, sp: Spelling)
    requires store.snapshot == Some(Snapshotted(memory)) && store.watermark == memory.counter
    requires Sound(memory.regs, memory.counter + 1, AppliedIds(store), sp)
    requires RowsOrdered(store.events) && RowsBelow(store.events, store.watermark)
             && AppliedBelow(store.applied, store.watermark)
    ensures StoreSound(store, sp) && InStep(memory, store, sp)
            && RestoredRegistries(store, sp) == memory.regs.(tracked := {})
  {
    hide LocksValid, Bounded, IntentsValid, IntentsBounded, PresenceValid, PresenceBounded, RowsOrdered, RowsBelow,
         AppliedBelow,
         AppliedIndex, Restore, Mirrors;
    SnapshotRoundTrip(memory.regs, memory.counter, {}, sp);
    MirrorsItself(memory.regs, {});
    assert Serialize(memory.regs.(tracked := {}), memory.counter) == Serialize(memory.regs, memory.counter);
  }

  // ----- One event -----

  /** The host as it accepts events: memory in step with sound tables. */
  ghost predicate Running(memory: Memory, store: Durable, sp: Spelling) {
    StoreSound(store, sp) && InStep(memory, store, sp) && GateInStep(memory, store)
  }

  lemma SoundLater(regs: Registries, next: nat, later: nat, ids: set<string>, sp: Spelling)
    requires Sound(regs, next, ids, sp) && next <= later
    ensures Sound(regs, later, ids, sp)
  {
    hide LocksValid, Bounded, IntentsValid, IntentsBounded, PresenceValid, PresenceBounded;
    BoundedMore(regs.locks, next - 1, ids, later - 1, ids);
    IntentsBoundedMore(regs.intents, next - 1, ids, later - 1, ids);
    PresenceBoundedMore(regs.presence, next - 1, later - 1);
  }

  /** The fence puts back registries and counter. */
  lemma FencedInStep(before: Memory, during: Memory, store: Durable, sp: Spelling)
    requires InStep(before, store, sp)
    ensures Fenced(before, during, sp).regs == before.regs.(tracked := during.regs.tracked)
    ensures Fenced(before, during, sp).counter == before.counter && Fenced(before, during, sp).faulted
    ensures InStep(Fenced(before, during, sp), store, sp) && GateInStep(Fenced(before, during, sp), store)
  {
    hide LocksValid, Bounded, IntentsValid, IntentsBounded, PresenceValid, PresenceBounded, Restore, RestoredRegistries,
         AppliedIndex;
    SnapshotRoundTrip(before.regs, before.counter, during.regs.tracked, sp);
  }

  /** The audits of an event carry its own revision and are not those of an expiry. */
  lemma AuditsOfEvent(regs: Registries, event: Event, revision: nat, now: int, sp: Spelling)
    requires Apply(regs, event, revision, now, sp).Applied?
    ensures forall a :: a in Apply(regs, event, revision, now, sp).audits ==>
              a.eventRevision == revision && !a.action.Expire?
  {
    hide RenameLocks, DeleteLock, AllEventChanges, IntentChanges, Transition, Report, Acquire, Release, Declare,
         Intents.Update, Withdraw,
         IntentsAfter;
  }

  /** A rejected event still consumes its replay counter and its revision, durably. */
  lemma RefusedCommits(memory: Memory, store: Durable, event: Event, sp: Spelling)
    requires Running(memory, store, sp) && !memory.faulted && Insertable(store.events, RowOf(event, memory.counter + 1))
    requires AcceptReplay(memory.gate.guard, event.member.deviceId, event.counter, event.nonce).Some?
    ensures var admitted :=
      Admitted(memory, AcceptReplay(memory.gate.guard, event.member.deviceId, event.counter, event.nonce).value);
            var committed := CommitMutation(store, RowOf(event, memory.counter + 1), false, [], Snapshotted(admitted));
            committed.Some? && Running(admitted, committed.value, sp)
            && committed.value.watermark == memory.counter + 1 && committed.value.applied == store.applied
            && RestoredRegistries(committed.value, sp) == memory.regs.(tracked := {})
  {
    hide Sound, RowsOrdered, RowsBelow, GuardCovers, RestoredRegistries, Mirrors, Serialize, AppliedIndex;
    var guard := AcceptReplay(memory.gate.guard, event.member.deviceId, event.counter, event.nonce).value;
    var admitted := Admitted(memory, guard);
    var row := RowOf(event, memory.counter + 1);
    var next := CommitMutation(store, row, false, [], Snapshotted(admitted)).value;
    GuardAdvances(memory.gate.guard, store.events, row, event.nonce);
    RowAppended(store.events, row, store.watermark);
    SnapshotHighest(admitted);
    SoundLater(memory.regs, memory.counter + 1, memory.counter + 2, AppliedIds(store), sp);
    SnapshotInStep(admitted, next, sp);
  }

  lemma SnapshotHighest(memory: Memory)
    ensures Snapshotted(memory).highestRevision == memory.counter
  {
  }

  /** The state after an applied event, in memory. */
  ghost function Done(memory: Memory, event: Event, now: int, sp: Spelling): Memory
    requires AcceptReplay(memory.gate.guard, event.member.deviceId, event.counter, event.nonce).Some?
    requires Apply(memory.regs, event, memory.counter + 1, now, sp).Applied?
  {
    var admitted := Admitted(memory, AcceptReplay(memory.gate.guard, event.member.deviceId, event.counter,
                                                  event.nonce).value);
    var r := Apply(memory.regs, event, memory.counter + 1, now, sp);
    admitted.(regs := r.regs, counter := LastRevision(memory.counter + 1, r.changes, r.furtherRevisions),
              gate := admitted.gate.(applied := admitted.gate.applied[event.eventId := memory.counter + 1]))
  }

  /** An applied event is committed with everything it did. */
  lemma AppliedCommits(memory: Memory, store: Durable, event: Event, now: int, sp: Spelling)
    requires Running(memory, store, sp) && !memory.faulted && Insertable(store.events, RowOf(event, memory.counter + 1))
    requires AcceptReplay(memory.gate.guard, event.member.deviceId, event.counter, event.nonce).Some?
    requires event.eventId !in memory.gate.applied && Apply(memory.regs, event, memory.counter + 1, now, sp).Applied?
    ensures var done := Done(memory, event, now, sp);
            var committed := CommitMutation(store, RowOf(event, memory.counter + 1), true,
                                            Apply(memory.regs, event, memory.counter + 1, now, sp).audits,
                                            Snapshotted(done));
            committed.Some? && Running(done, committed.value, sp)
            && committed.value.watermark == done.counter
            && AppliedIndex(committed.value.applied) == AppliedIndex(store.applied)[event.eventId := memory.counter + 1]
            && RestoredRegistries(committed.value, sp) == done.regs.(tracked := {})
  {
    hide Sound, RowsOrdered, RowsBelow, GuardCovers, RestoredRegistries, Mirrors, Serialize, AppliedIndex, Apply,
         RecordApplied;
    var revision := memory.counter + 1;
    var guard := AcceptReplay(memory.gate.guard, event.member.deviceId, event.counter, event.nonce).value;
    var row := RowOf(event, revision);
    var r := Apply(memory.regs, event, revision, now, sp);
    var done := Done(memory, event, now, sp);
    var next := CommitMutation(store, row, true, r.audits, Snapshotted(done)).value;
    GuardAdvances(memory.gate.guard, store.events, row, event.nonce);
    RowAppended(store.events, row, store.watermark);
    RowsBelowMore(next.events, revision, done.counter);
    SnapshotHighest(done);
    AuditsOfEvent(memory.regs, event, revision, now, sp);
    MaxAuditedBound(r.audits, revision);
    IndexGrows(store.applied, event.eventId, revision);
    ApplyKeeps(memory.regs, event, revision, now, sp, AppliedIds(store));
    assert AppliedIds(next) == AppliedIds(store) + {event.eventId};
    SnapshotInStep(done, next, sp);
  }

  lemma RowsBelowMore(events: seq<EventRow>, watermark: nat, later: nat)
    requires RowsBelow(events, watermark) && watermark <= later
    ensures RowsBelow(events, later)
  {
  }

  /** A commit goes through unless the storage fails or the tables already hold the event id. */
  lemma CommitsUnlessKnown(memory: Memory, store: Durable, event: Event, sp: Spelling)
    requires StoreSound(store, sp) && memory.counter == store.watermark
    ensures Insertable(store.events, RowOf(event, memory.counter + 1)) <==>
              forall e :: e in store.events ==> e.eventId != event.eventId
  {
  }

  /** Ingesting keeps memory and tables in step; afterwards the host is either ready
      for the next event or fenced with the state it had before. */
  lemma IngestKeeps(memory: Memory, store: Durable, event: Event, checks: Checks, storageWorks: bool, now: int,
                    sp: Spelling)
    requires Running(memory, store, sp)
    ensures var r := Ingest(memory, store, event, checks, storageWorks, now, sp); Running(r.memory, r.store, sp)
  {
    hide StoreSound, InStep, GateInStep, CommitMutation, AcceptReplay, Insertable;
    var guard := AcceptReplay(memory.gate.guard, event.member.deviceId, event.counter, event.nonce);
    if checks.authentic && !memory.faulted && checks.wellFormed && checks.permitted
       && event.eventId !in memory.gate.applied && guard.Some? {
      AdmittedKeeps(memory, store, event, storageWorks, now, sp);
    }
  }

  lemma AdmittedKeeps(memory: Memory, store: Durable, event: Event, storageWorks: bool, now: int, sp: Spelling)
    requires Running(memory, store, sp) && !memory.faulted && event.eventId !in memory.gate.applied
    requires AcceptReplay(memory.gate.guard, event.member.deviceId, event.counter, event.nonce).Some?
    ensures var guard := AcceptReplay(memory.gate.guard, event.member.deviceId, event.counter, event.nonce).value;
            var r := ApplyAndCommit(memory, Admitted(memory, guard), store, event, storageWorks, now, sp);
            && Running(r.memory, r.store, sp)
            && (r.reply.StorageError? ==> r.store == store && r.memory.faulted && r.memory.counter == memory.counter
                                          && r.memory.regs == memory.regs.(tracked := r.memory.regs.tracked)
                                             && r.memory.log == memory.log)
            && (!r.reply.StorageError? ==> !r.memory.faulted && r.memory.counter > memory.counter
                                           && RestoredRegistries(r.store, sp) == r.memory.regs.(tracked := {}))
  {
    hide StoreSound, InStep, GateInStep, AcceptReplay, Insertable, Apply, Serialize, Restore, RestoredRegistries;
    var guard := AcceptReplay(memory.gate.guard, event.member.deviceId, event.counter, event.nonce).value;
    var row := RowOf(event, memory.counter + 1);
    assert memory.counter == store.watermark by { CounterIsWatermark(memory, store, sp); }
    match Apply(memory.regs, event, memory.counter + 1, now, sp)
    case Refused(_) =>
      FencedInStep(memory, Admitted(memory, guard), store, sp);
      if storageWorks && Insertable(store.events, row) {
        RefusedCommits(memory, store, event, sp);
      }
    case Applied(_, _, _, _, _) =>
      var done := Done(memory, event, now, sp);
      FencedInStep(memory, done, store, sp);
      if storageWorks && Insertable(store.events, row) {
        AppliedCommits(memory, store, event, now, sp);
        LogDoesNotMatter(done, done.log.updates
                         + Stamp(Apply(memory.regs, event, memory.counter + 1, now, sp).changes, memory.counter + 1),
                         CommitMutation(store, row, true, Apply(memory.regs, event, memory.counter + 1, now, sp).audits,
                                        Snapshotted(done)).value, sp);
      }
  }

  lemma CounterIsWatermark(memory: Memory, store: Durable, sp: Spelling)
    requires InStep(memory, store, sp)
    ensures memory.counter == store.watermark
  {
  }

  lemma LogDoesNotMatter(memory: Memory, updates: seq<Update>, store: Durable, sp: Spelling)
    requires Running(memory, store, sp)
    ensures Running(memory.(log := memory.log.(updates := updates)), store, sp)
  {
    hide StoreSound, Mirrors, Sound, GuardCovers;
  }

  // ----- Sweeps -----

  lemma {:induction false} NoneExpired(keys: seq<GroupKey>, groups: Groups, expiry: Expiry)
    requires ExpireGroups(keys, groups, expiry).1 == []
    ensures ExpireGroups(keys, groups, expiry).0 == groups
    decreases |keys|
  {
    if keys != [] {
      SurvivorsCount(groups.Get(keys[0], []), expiry);
      NoneExpired(keys[1..], ExpireGroup(groups, keys[0], expiry), expiry);
    }
  }

  lemma NoneExpiredAtAll(groups: Groups, expiry: Expiry)
    requires ExpireLocks(groups, expiry).1 == []
    ensures ExpireLocks(groups, expiry).0 == groups
  {
    NoneExpired(groups.keys, groups, expiry);
  }

  lemma {:induction false} SilentIntents(intents: seq<Intent>)
    requires AllIntentChanges(intents, Removed) == []
    ensures forall i :: i in intents ==> Pathless(i)
  {
    if intents != [] {
      SilentIntents(intents[1..]);
      assert |IntentChanges(intents[0], Removed)| == |intents[0].modifyPaths| + |intents[0].createPaths|;
    }
  }

  lemma SilentDevice(regs: Registries, deviceId: string, next: nat, sp: Spelling)
    requires regs.intents.Valid() && SweepDevice(regs, deviceId, next, sp).changes == []
    ensures Mirrors(regs, SweepDevice(regs, deviceId, next, sp).regs)
    ensures SweepDevice(regs, deviceId, next, sp).regs.intents.Valid()
  {
    hide ActiveForDevice, ExpireLocks, OwnedBy, KeepKeys, AllIntentChanges, Distinct;
    var pass := ExpireLocks(regs.locks, OfDevice(deviceId));
    var gone := OwnedBy(regs.intents.keys, regs.intents.data, deviceId);
    assert |LockRemovals(pass.1)| == |pass.1|;
    NoneExpiredAtAll(regs.locks, OfDevice(deviceId));
    SilentIntents(gone);
    OwnedByMembers(regs.intents.keys, regs.intents.data, deviceId);
    KeepKeysMembers(regs.intents.keys, regs.intents.data, deviceId);
    forall id | id in regs.intents.data && regs.intents.data[id].owner.deviceId == deviceId
      ensures Pathless(regs.intents.data[id])
    {
      assert id in regs.intents.keys;
      assert regs.intents.data[id] in gone;
    }
  }

  lemma MirrorsThrough(a: Registries, b: Registries, c: Registries)
    requires Mirrors(a, b) && Mirrors(b, c)
    ensures Mirrors(a, c)
  {
  }

  lemma {:induction false} SilentDevices(regs: Registries, devices: seq<string>, next: nat, sp: Spelling)
    requires regs.intents.Valid() && SweepDevices(regs, devices, next, sp).changes == []
    ensures Mirrors(regs, SweepDevices(regs, devices, next, sp).regs)
    decreases |devices|
  {
    hide SweepDevice, Mirrors;
    if devices == [] {
      MirrorsItself(regs, regs.tracked);
    } else {
      var first := SweepDevice(regs, devices[0], next, sp);
      SilentDevice(regs, devices[0], next, sp);
      SilentDevices(first.regs, devices[1..], next + |first.changes|, sp);
      MirrorsThrough(regs, first.regs, SweepDevices(first.regs, devices[1..], next + |first.changes|, sp).regs);
    }
  }

  /** A sweep that announces nothing drops no more than intents without paths. */
  lemma SilentSweep(regs: Registries, stale: seq<string>, cutoff: int, next: nat, sp: Spelling)
    requires regs.intents.Valid() && Sweep(regs, stale, cutoff, next, sp).changes == []
    ensures Mirrors(regs, Sweep(regs, stale, cutoff, next, sp).regs)
  {
    hide SweepDevices, Promotions, Mirrors;
    var devices := SweepDevices(regs, stale, next, sp);
    var aged := ExpireLocks(devices.regs.locks, SoftBefore(cutoff));
    SilentDevices(regs, stale, next, sp);
    assert |LockRemovals(aged.1)| == |aged.1|;
    NoneExpired(devices.regs.locks.keys, devices.regs.locks, SoftBefore(cutoff));
    assert devices.regs.(locks := aged.0) == devices.regs;
  }

  lemma SoundIntents(regs: Registries, next: nat, ids: set<string>, sp: Spelling)
    requires Sound(regs, next, ids, sp)
    ensures regs.intents.Valid()
  {
  }

  lemma SilentSweepInStep(memory: Memory, store: Durable, stale: seq<string>, cutoff: int, sp: Spelling)
    requires Running(memory, store, sp) && Sweep(memory.regs, stale, cutoff, memory.counter + 1, sp).changes == []
    ensures Running(memory.(regs := Sweep(memory.regs, stale, cutoff, memory.counter + 1, sp).regs), store, sp)
  {
    hide StoreSound, Mirrors, Sound, Sweep, RestoredRegistries, GuardCovers;
    SoundIntents(memory.regs, memory.counter + 1, AppliedIds(store), sp);
    SilentSweep(memory.regs, stale, cutoff, memory.counter + 1, sp);
    MirrorsThrough(RestoredRegistries(store, sp), memory.regs,
                   Sweep(memory.regs, stale, cutoff, memory.counter + 1, sp).regs);
    SweepKeeps(memory.regs, stale, cutoff, memory.counter + 1, AppliedIds(store), sp);
  }

  lemma LoudSweepInStep(memory: Memory, store: Durable, stale: seq<string>, cutoff: int, sp: Spelling)
    requires Running(memory, store, sp) && !memory.faulted
    ensures var removals :=
      Stamp(Sweep(memory.regs, stale, cutoff, memory.counter + 1, sp).changes, memory.counter + 1);
            var done := memory.(regs := Sweep(memory.regs, stale, cutoff, memory.counter + 1, sp).regs,
                                counter := memory.counter + |removals|);
            var next := CommitExpiry(store, ExpiryAudits(removals), Snapshotted(done));
            Running(done, next, sp) && next.watermark == done.counter
            && RestoredRegistries(next, sp) == done.regs.(tracked := {})
  {
    hide Mirrors, Sound, Sweep, RestoredRegistries, GuardCovers, Serialize, RowsOrdered, RowsBelow, AppliedIndex;
    var swept := Sweep(memory.regs, stale, cutoff, memory.counter + 1, sp);
    var removals := Stamp(swept.changes, memory.counter + 1);
    var done := memory.(regs := swept.regs, counter := memory.counter + |removals|);
    var next := CommitExpiry(store, ExpiryAudits(removals), Snapshotted(done));
    SweepKeeps(memory.regs, stale, cutoff, memory.counter + 1, AppliedIds(store), sp);
    SnapshotHighest(done);
    MaxAuditedBound(ExpiryAudits(removals), done.counter);
    RowsBelowMore(store.events, store.watermark, done.counter);
    SnapshotInStep(done, next, sp);
  }

  lemma SweepExpiryKeeps(memory: Memory, store: Durable, stale: seq<string>, cutoff: int, storageWorks: bool,
                         sp: Spelling)
    requires Running(memory, store, sp)
    ensures var r := SweepExpiry(memory, store, stale, cutoff, storageWorks, sp);
            && Running(r.memory, r.store, sp)
            && (r.memory.faulted ==>
                  r.store == store && r.removals == [] && r.memory.counter == memory.counter
                  && r.memory.log == memory.log
                                     && r.memory.regs == memory.regs.(tracked := r.memory.regs.tracked))
            && (r.removals == [] && !r.memory.faulted ==>
                  r.store == store && r.memory.counter == memory.counter && r.memory.log == memory.log
                                                          && Mirrors(memory.regs, r.memory.regs))
            && (r.removals != [] ==> RestoredRegistries(r.store, sp) == r.memory.regs.(tracked := {}))
  {
    hide StoreSound, InStep, GateInStep, Sweep, Restore, RestoredRegistries, Mirrors, CommitExpiry, Serialize;
    var swept := Sweep(memory.regs, stale, cutoff, memory.counter + 1, sp);
    var removals := Stamp(swept.changes, memory.counter + 1);
    var done := memory.(regs := swept.regs, counter := memory.counter + |removals|);
    if !memory.faulted {
      if removals == [] {
        assert swept.changes == [];
        InStepIntents(memory, store, sp);
        SilentSweep(memory.regs, stale, cutoff, memory.counter + 1, sp);
        SilentSweepInStep(memory, store, stale, cutoff, sp);
      } else if storageWorks {
        LoudSweepInStep(memory, store, stale, cutoff, sp);
        LogDoesNotMatter(done, done.log.updates + removals,
                         CommitExpiry(store, ExpiryAudits(removals), Snapshotted(done)), sp);
      } else {
        FencedInStep(memory, done, store, sp);
      }
    }
  }

  lemma InStepIntents(memory: Memory, store: Durable, sp: Spelling)
    requires InStep(memory, store, sp)
    ensures memory.regs.intents.Valid()
  {
    SoundIntents(memory.regs, memory.counter + 1, AppliedIds(store), sp);
  }

  // ----- Recovery -----

  lemma {:induction false} MaxAppliedBound(applied: seq<AppliedRow>, bound: nat)
    requires AppliedBelow(applied, bound)
    ensures MaxApplied(applied) <= bound
  {
    if applied != [] {
      assert applied[0] in applied;
      MaxAppliedBound(applied[1..], bound);
    }
  }

  /** A recovered process is in step with the tables, resumes at their watermark and
      serves no older cursor incrementally. */
  lemma RecoveredRuns(store: Durable, sp: Spelling)
    requires StoreSound(store, sp)
    ensures Running(Recovered(store, sp), store, sp) && !Recovered(store, sp).faulted
    ensures Recovered(store, sp).counter == store.watermark
    ensures Recovered(store, sp).log == Log([], store.watermark)
    ensures Recovered(store, sp).regs == RestoredRegistries(store, sp)
  {
    hide RowsOrdered, RowsBelow, Sound, Serialize, RestoredRegistries, AppliedIndex;
    MaxAppliedBound(store.applied, store.watermark);
    MirrorsItself(RestoredRegistries(store, sp), RestoredRegistries(store, sp).tracked);
    if store.snapshot.Some? {
      SerializedHighest(RestoredRegistries(store, sp), store.watermark);
    }
  }

  lemma SerializedHighest(regs: Registries, highestRevision: nat)
    ensures Serialize(regs, highestRevision).highestRevision == highestRevision
  {
  }

}
