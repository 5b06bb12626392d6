/** The coordination authority itself (apps/host/src/authority.ts): registries, gate,
    log and tables updated in place, proved against the functions of Registries and Host. */
module Authority {
  import opened Protocol
  import opened JsMaps
  import opened Paths
  import opened Locks
  import opened Intents
  import opened Presences
  import opened Cache
  import opened Registries
  import opened States
  import opened Host
  import opened HostProofs
  import opened Runs
  import opened LockRegistries
  import opened IntentRegistries
  import opened HostParts

  // ----- What one event produces -----

  /** The outputs that `apply` fills, and the allocator that gives the first broadcast
      the event's own revision and every further one a new revision. */
  class Effects {
    const first: nat
    const revisions: RevisionCounter
    var used: bool
    var broadcasts: seq<Update>
    var audits: seq<Audit>
    var conflict: Option<LockConflict>
    ghost var changes: seq<Change>

    constructor (first: nat, revisions: RevisionCounter)
      requires revisions.counter == first
      ensures Numbered() && this.first == first && this.revisions == revisions
      ensures changes == [] && audits == [] && conflict == None
    {
      this.first, this.revisions := first, revisions;
      used, broadcasts, audits, conflict, changes := false, [], [], None, [];
    }

    /** The broadcasts carry consecutive revisions from the event's own on. */
    ghost predicate Numbered()
      reads this, revisions
    {
      broadcasts == Stamp(changes, first) && used == (changes != [])
      && revisions.counter == LastRevision(first, changes, 0)
    }

    method Allocate() returns (revision: nat)
      modifies `used, revisions
      ensures used
      ensures revision == (if old(used) then old(revisions.counter) + 1 else first)
      ensures revisions.counter == (if old(used) then old(revisions.counter) + 1 else old(revisions.counter))
    {
      if !used {
        used := true;
        return first;
      }
      revision := revisions.Next();
    }

    method Broadcast(change: Change)
      requires Numbered()
      modifies `used, `broadcasts, `changes, revisions
      ensures Numbered() && changes == old(changes) + [change]
    {
      var revision := Allocate();
      broadcasts := broadcasts + [Protocol.Update(change, revision)];
      StampAppend(changes, change, first);
      changes := changes + [change];
    }

    /** Retire the previous winner of a group and announce the next one, unless it is the same claim. */
    method EmitWinningLockTransition(previous: Option<Lock>, next: Option<Lock>)
      requires Numbered()
      modifies `used, `broadcasts, `changes, revisions
      ensures Numbered() && changes == old(changes) + Transition(previous, next)
    {
      if previous.Some? && next.Some? && previous.value.lockId == next.value.lockId {
        return;
      }
      if previous.Some? {
        Broadcast(LockChange(previous.value, Removed));
      }
      if next.Some? {
        Broadcast(LockChange(next.value, Added));
      }
    }

    method EmitPaths(intent: Intent, entryType: EntryType, op: Op, paths: seq<string>)
      requires Numbered()
      modifies `used, `broadcasts, `changes, revisions
      ensures Numbered() && changes == old(changes) + PathChanges(intent, entryType, op, paths)
    {
      for i := 0 to |paths|
        invariant Numbered() && changes == old(changes) + PathChanges(intent, entryType, op, paths)[..i]
      {
        Broadcast(IntentChange(intent, entryType, op, paths[i]));
      }
    }

    /** One broadcast per planned modification and per planned creation. */
    method EmitIntentBroadcasts(intent: Intent, op: Op)
      requires Numbered()
      modifies `used, `broadcasts, `changes, revisions
      ensures Numbered() && changes == old(changes) + IntentChanges(intent, op)
    {
      EmitPaths(intent, IntentEntry, op, intent.modifyPaths);
      EmitPaths(intent, CreationEntry, op, intent.createPaths);
    }

    method EmitMove(intent: Intent, entryType: EntryType, fromPath: string, toPath: string)
      requires Numbered()
      modifies `used, `broadcasts, `changes, revisions
      ensures Numbered()
      ensures changes == old(changes)
              + [IntentChange(intent, entryType, Removed, fromPath), IntentChange(intent, entryType, Added, toPath)]
    {
      Broadcast(IntentChange(intent, entryType, Removed, fromPath));
      Broadcast(IntentChange(intent, entryType, Added, toPath));
    }
  }

  /** The updates of a sweep, each with its own next revision. */
  class Removals {
    const revisions: RevisionCounter
    var updates: seq<Update>
    ghost const start: nat
    ghost var changes: seq<Change>

    constructor (revisions: RevisionCounter)
      ensures Numbered() && this.revisions == revisions && start == revisions.counter && changes == []
    {
      this.revisions, start, updates, changes := revisions, revisions.counter, [], [];
    }

    ghost predicate Numbered()
      reads this, revisions
    {
      updates == Stamp(changes, start + 1) && revisions.counter == start + |changes|
    }

    method Push(change: Change)
      requires Numbered()
      modifies `updates, `changes, revisions
      ensures Numbered() && changes == old(changes) + [change]
    {
      var revision := revisions.Next();
      updates := updates + [Protocol.Update(change, revision)];
      StampAppend(changes, change, start + 1);
      changes := changes + [change];
    }

    method PushLocks(locks: seq<Lock>)
      requires Numbered()
      modifies `updates, `changes, revisions
      ensures Numbered() && changes == old(changes) + LockRemovals(locks)
    {
      for i := 0 to |locks|
        invariant Numbered() && changes == old(changes) + LockRemovals(locks)[..i]
      {
        Push(LockChange(locks[i], Removed));
      }
    }

    method PushPaths(intent: Intent, entryType: EntryType, paths: seq<string>)
      requires Numbered()
      modifies `updates, `changes, revisions
      ensures Numbered() && changes == old(changes) + PathChanges(intent, entryType, Removed, paths)
    {
      for i := 0 to |paths|
        invariant Numbered() && changes == old(changes) + PathChanges(intent, entryType, Removed, paths)[..i]
      {
        Push(IntentChange(intent, entryType, Removed, paths[i]));
      }
    }

    method PushIntents(intents: seq<Intent>)
      requires Numbered()
      modifies `updates, `changes, revisions
      ensures Numbered() && changes == old(changes) + AllIntentChanges(intents, Removed)
    {
      for i := 0 to |intents|
        invariant Numbered()
        invariant changes + AllIntentChanges(intents[i..], Removed) == old(changes) + AllIntentChanges(intents, Removed)
      {
        assert intents[i..][1..] == intents[i + 1..];
        var intent := intents[i];
        Associates(changes, PathChanges(intent, IntentEntry, Removed, intent.modifyPaths),
                   PathChanges(intent, CreationEntry, Removed, intent.createPaths));
        Associates(changes, IntentChanges(intent, Removed), AllIntentChanges(intents[i + 1..], Removed));
        PushPaths(intent, IntentEntry, intent.modifyPaths);
        PushPaths(intent, CreationEntry, intent.createPaths);
      }
      assert intents[|intents|..] == [];
    }

    method PushPresence(records: seq<PresenceRecord>)
      requires Numbered()
      modifies `updates, `changes, revisions
      ensures Numbered() && changes == old(changes) + PresenceRemovals(records)
    {
      for i := 0 to |records|
        invariant Numbered() && changes == old(changes) + PresenceRemovals(records)[..i]
      {
        Push(PresenceChange(records[i].member, records[i].path, Removed));
      }
    }
  }

  lemma StampAppend(changes: seq<Change>, change: Change, first: nat)
    ensures Stamp(changes + [change], first) == Stamp(changes, first) + [Protocol.Update(change, first + |changes|)]
  {
  }

  // ----- What rewriting the intents announces -----

  /** The announcements for the rewritten intents, found by their ids in the state before. */
  function UpdatedChanges(updated: seq<Intent>, before: map<string, Intent>, event: PathEvent,
                          sp: Spelling): seq<Change>
  {
    if updated == [] then []
    else
      (if updated[0].intentId in before then EventChanges(before[updated[0].intentId], event, sp) else [])
      + UpdatedChanges(updated[1..], before, event, sp)
  }

  lemma RewrittenId(intent: Intent, event: PathEvent, sp: Spelling)
    ensures AfterEvent(intent, event, sp).intentId == intent.intentId
    ensures AfterEvent(intent, event, sp).owner == intent.owner
            && AfterEvent(intent, event, sp).description == intent.description
  {
  }

  lemma {:induction false} AffectedAreAnnounced(keys: seq<string>, data: map<string, Intent>, event: PathEvent,
                                                sp: Spelling)
    requires forall k :: k in keys ==> k in data && data[k].intentId == k
    ensures UpdatedChanges(Affected(keys, data, event, sp), data, event, sp) == AllEventChanges(keys, data, event, sp)
  {
    hide Affects, AfterEvent, EventChanges;
    if keys != [] {
      AffectedAreAnnounced(keys[1..], data, event, sp);
      RewrittenId(data[keys[0]], event, sp);
      var rest := Affected(keys[1..], data, event, sp);
      if Affects(data[keys[0]], event, sp) {
        var first := AfterEvent(data[keys[0]], event, sp);
        assert Affected(keys, data, event, sp) == [first] + rest && ([first] + rest)[1..] == rest;
      } else {
        assert Affected(keys, data, event, sp) == rest;
      }
    }
  }

  lemma ValidIntentIds(intents: IntentMap, sp: Spelling)
    requires IntentsValid(intents, sp)
    ensures forall k :: k in intents.keys ==> k in intents.data && intents.data[k].intentId == k
  {
    assert forall k :: k in intents.data ==> IntentValid(k, intents.data[k], sp);
  }

  // ----- The authority -----

  class CoordinationAuthority {
    const spelling: Spelling
    const locks: LockRegistry
    const intents: IntentRegistry
    const presence: PresenceRegistry
    const revisions: RevisionCounter
    const gate: IngestGate
    const eventLog: CoordinationEventLog
    const store: SqliteStore
    var storageFaulted: bool

    function Regs(): Registries
      reads locks, intents, presence
    {
      Registries(locks.groups, intents.intents, intents.tracked, presence.presence)
    }

    function State(): Memory
      reads this, locks, intents, presence, revisions, gate, eventLog
    {
      Memory(Regs(), Gate(gate.guard, gate.applied), revisions.counter, eventLog.Contents(), storageFaulted)
    }

    /** Everything it is made of uses one spelling, memory and tables are in step, and
        the log is in order below the revision counter. */
    ghost predicate Valid()
      reads this, locks, intents, presence, revisions, gate, eventLog, store
    {
      && locks.spelling == spelling && intents.spelling == spelling && presence.spelling == spelling
      && Running(State(), store.Tables(), spelling)
      && Increasing(eventLog.updates) && forall u :: u in eventLog.updates ==> u.eventRevision <= revisions.counter
    }

    // ----- Recovery -----

    /** A new process over existing tables. */
    constructor (store: SqliteStore, spelling: Spelling)
      requires StoreSound(store.Tables(), spelling)
      ensures this.store == store && this.spelling == spelling && store.Tables() == old(store.Tables())
      ensures fresh(locks) && fresh(intents) && fresh(presence) && fresh(revisions) && fresh(gate) && fresh(eventLog)
      ensures State() == Recovered(store.Tables(), spelling)
      ensures Valid()
    {
      var counters := store.DeviceCounters();
      this.store, this.spelling := store, spelling;
      locks := new LockRegistry(spelling);
      intents := new IntentRegistry(spelling);
      presence := new PresenceRegistry(spelling);
      revisions := new RevisionCounter();
      gate := new IngestGate(counters, store.applied);
      eventLog := new CoordinationEventLog();
      storageFaulted := false;
      new;
      hide Running, StoreSound, Recovered, RestoredRegistries, DeviceCounters, AppliedIndex;
      Recover();
    }

    /** Put a snapshot's contents into the registries; existing files are not part of it. */
    method RestoreRegistries(snapshot: Snapshot)
      requires locks.spelling == spelling && intents.spelling == spelling && presence.spelling == spelling
      modifies locks, intents, presence
      ensures Regs() == Restore(snapshot, old(intents.tracked), spelling)
    {
      locks.Restore(snapshot.locks);
      intents.Restore(snapshot.intents);
      presence.Restore(snapshot.presence);
    }

    method HighestApplied() returns (highest: nat)
      ensures highest == MaxApplied(store.applied)
    {
      highest := 0;
      for i := 0 to |store.applied|
        invariant Max(highest, MaxApplied(store.applied[i..])) == MaxApplied(store.applied)
      {
        assert store.applied[i..][1..] == store.applied[i + 1..];
        highest := Max(highest, store.applied[i].eventRevision);
      }
      assert store.applied[|store.applied|..] == [];
    }

    /** Restore the snapshot, resume the counter above everything persisted, and serve
        no older cursor from the empty log. */
    method Recover()
      requires locks.spelling == spelling && intents.spelling == spelling && presence.spelling == spelling
      requires Regs() == NO_STATE && revisions.counter == 0 && eventLog.Contents() == Log([], 0) && !storageFaulted
      requires gate.guard == DeviceCounters(store.events) && gate.applied == AppliedIndex(store.applied)
      requires StoreSound(store.Tables(), spelling)
      modifies locks, intents, presence, revisions, eventLog
      ensures State() == Recovered(store.Tables(), spelling) && Valid()
    {
      hide Running, StoreSound, DeviceCounters, AppliedIndex, Restore;
      RecoveredRuns(store.Tables(), spelling);
      var highest := HighestApplied();
      var recovered := Max(store.watermark, highest);
      if store.snapshot.Some? {
        RestoreRegistries(store.snapshot.value);
        recovered := Max(recovered, store.snapshot.value.highestRevision);
      }
      eventLog.Compact(recovered);
      revisions.Resume(recovered);
    }

    method TakeSnapshot() returns (snapshot: Snapshot)
      ensures snapshot == Snapshotted(State())
    {
      var all := locks.AllLocks();
      snapshot := Snapshot(all, presence.presence.Values(), intents.intents.Values(), revisions.counter);
    }

    // ----- Applying one event -----

    /** What applying an event leaves behind, against the function that says so. */
    ghost predicate Did(outcome: Outcome, effects: Effects)
      requires outcome.Applied?
      reads this, locks, intents, presence, revisions, effects, effects.revisions
    {
      && Regs() == outcome.regs
      && effects.broadcasts == Stamp(outcome.changes, effects.first)
      && revisions.counter == LastRevision(effects.first, outcome.changes, outcome.furtherRevisions)
      && effects.audits == outcome.audits && effects.conflict == outcome.conflict
    }

    method ApplyPresence(event: Event, path: string, state: PresenceState, effects: Effects)
      requires presence.spelling == spelling && event.payload == PresenceReport(path, state)
      requires effects.Numbered() && effects.changes == [] && effects.revisions == revisions && effects.audits == []
               && effects.conflict == None
      modifies presence, effects, revisions
      ensures Did(Apply(old(Regs()), event, effects.first, 0, spelling), effects)
    {
      presence.Report(event.member, path, state, effects.first);
      effects.Broadcast(PresenceChange(event.member, path, if state.Stopped? then Removed else Added));
    }

    /** Acquisitions, and overrides once their reason is accepted. */
    method ApplyAcquire(event: Event, scope: string, kind: ScopeKind, mode: LockMode, now: int, records: seq<Audit>,
                        effects: Effects)
      requires locks.spelling == spelling
      requires effects.Numbered() && effects.changes == [] && effects.revisions == revisions && effects.audits == []
               && effects.conflict == None
      modifies locks, effects, revisions
      ensures Did(AcquireOutcome(old(Regs()), event, scope, kind, mode, effects.first, now, records, spelling), effects)
    {
      hide Acquire, Transition, Holder;
      var previousWinner := locks.WinningLock(scope, kind);
      var request := Lock(event.eventId, scope, kind, mode, event.member, effects.first, now, false);
      var lock, winner, contended := locks.Acquire(request);
      if contended {
        effects.conflict := Some(LockConflict(scope, winner.holder, winner.eventRevision));
      }
      effects.audits := effects.audits + records;
      effects.EmitWinningLockTransition(previousWinner, Some(winner));
    }

    method ApplyRelease(event: Event, target: ReleaseTarget, effects: Effects) returns (rejection: Option<Rejection>)
      requires locks.spelling == spelling && LocksValid(locks.groups, spelling) && event.payload == LockRelease(target)
      requires effects.Numbered() && effects.changes == [] && effects.revisions == revisions && effects.audits == []
               && effects.conflict == None
      modifies locks, effects, revisions
      ensures var outcome := Apply(old(Regs()), event, effects.first, 0, spelling);
              if rejection.Some? then outcome == Refused(rejection.value) && Regs() == old(Regs())
                 && revisions.counter == old(revisions.counter)
              else outcome.Applied? && Did(outcome, effects)
    {
      hide Locks.Release, LocksValid, Transition;
      var release := locks.Release(event.member, target);
      if release.ReleaseFailed? {
        return Some(LockRejection(release.error));
      }
      effects.EmitWinningLockTransition(Some(release.released), release.promoted);
      return None;
    }

    method ApplyDeclare(event: Event, modifyPaths: seq<string>, createPaths: seq<string>, description: string,
                        effects: Effects)
      returns (rejection: Option<Rejection>)
      requires intents.spelling == spelling && event.payload == IntentDeclare(modifyPaths, createPaths, description)
      requires effects.Numbered() && effects.changes == [] && effects.revisions == revisions && effects.audits == []
               && effects.conflict == None
      modifies intents, effects, revisions
      ensures var outcome := Apply(old(Regs()), event, effects.first, 0, spelling);
              if rejection.Some? then outcome == Refused(rejection.value) && Regs() == old(Regs())
                 && revisions.counter == old(revisions.counter)
              else outcome.Applied? && Did(outcome, effects)
    {
      var declared := intents.Declare(event.eventId, event.member, modifyPaths, createPaths, description,
                                      effects.first);
      if declared.IntentFailed? {
        return Some(IntentRejection(declared.error));
      }
      effects.EmitIntentBroadcasts(declared.intent, Added);
      effects.audits := effects.audits + [Audit(event.member, Create, FirstPath(declared.intent), effects.first)];
      return None;
    }

    /** The old paths are retired before the new ones are announced. */
    method ApplyUpdate(event: Event, intentId: string, modifyPaths: seq<string>, createPaths: seq<string>,
                       description: string, effects: Effects)
      returns (rejection: Option<Rejection>)
      requires intents.spelling == spelling
               && event.payload == IntentUpdate(intentId, modifyPaths, createPaths, description)
      requires effects.Numbered() && effects.changes == [] && effects.revisions == revisions && effects.audits == []
               && effects.conflict == None
      modifies intents, effects, revisions
      ensures var outcome := Apply(old(Regs()), event, effects.first, 0, spelling);
              if rejection.Some? then outcome == Refused(rejection.value) && Regs() == old(Regs())
                 && revisions.counter == old(revisions.counter)
              else outcome.Applied? && Did(outcome, effects)
    {
      hide Intents.Update, IntentChanges;
      var before := intents.intents;
      var updated := intents.Update(intentId, event.member, modifyPaths, createPaths, description, effects.first);
      if updated.IntentFailed? {
        return Some(IntentRejection(updated.error));
      }
      if intentId in before.data {
        effects.EmitIntentBroadcasts(before.data[intentId], Removed);
      }
      effects.EmitIntentBroadcasts(updated.intent, Added);
      effects.audits := effects.audits + [Audit(event.member, UpdateAction, FirstEdit(updated.intent), effects.first)];
      return None;
    }

    method ApplyWithdraw(event: Event, intentId: string, effects: Effects) returns (rejection: Option<Rejection>)
      requires event.payload == IntentWithdraw(intentId)
      requires effects.Numbered() && effects.changes == [] && effects.revisions == revisions && effects.audits == []
               && effects.conflict == None
      modifies intents, effects, revisions
      ensures var outcome := Apply(old(Regs()), event, effects.first, 0, spelling);
              if rejection.Some? then outcome == Refused(rejection.value) && Regs() == old(Regs())
                 && revisions.counter == old(revisions.counter)
              else outcome.Applied? && Did(outcome, effects)
    {
      var withdrawn := intents.Withdraw(intentId, event.member);
      if withdrawn.IntentFailed? {
        return Some(IntentRejection(withdrawn.error));
      }
      effects.EmitIntentBroadcasts(withdrawn.intent, Removed);
      effects.audits := effects.audits
        + [Audit(event.member, WithdrawAction, FirstEdit(withdrawn.intent), effects.first)];
      return None;
    }

    method RenameLock(event: Event, fromPath: string, toPath: string, effects: Effects)
      requires locks.spelling == spelling
      requires effects.Numbered() && effects.changes == [] && effects.revisions == revisions
      modifies locks, effects`used, effects`broadcasts, effects`changes, revisions
      ensures effects.Numbered()
      ensures (locks.groups, effects.changes) ==
              RenameLocks(old(Regs()), event, fromPath, toPath, effects.first, spelling)
    {
      hide Transition, Holder, TransferPath;
      var sourceWinner := locks.WinningLock(fromPath, File);
      var destinationWinner := locks.WinningLock(toPath, File);
      var moved := locks.TransferPath(event.member, fromPath, toPath, effects.first);
      if moved {
        var next := locks.WinningLock(fromPath, File);
        effects.EmitWinningLockTransition(sourceWinner, next);
        assert effects.changes == Transition(sourceWinner, next);
        next := locks.WinningLock(toPath, File);
        effects.EmitWinningLockTransition(destinationWinner, next);
      }
    }

    /** Announce the moves of one rewritten intent, classified by how it referred to the old path. */
    method EmitMoves(intent: Intent, prior: Intent, fromPath: string, toPath: string, effects: Effects)
      requires intent.intentId == prior.intentId && intent.owner == prior.owner
               && intent.description == prior.description
      requires effects.Numbered() && effects.revisions == revisions
      modifies effects`used, effects`broadcasts, effects`changes, revisions
      ensures effects.Numbered()
      ensures effects.changes == old(effects.changes) + EventChanges(prior, Renamed(fromPath, toPath), spelling)
    {
      var wasModify := SpelledIn(prior.modifyPaths, fromPath, spelling);
      var wasCreate := SpelledIn(prior.createPaths, fromPath, spelling);
      if wasModify {
        effects.EmitMove(intent, IntentEntry, fromPath, toPath);
      }
      if wasCreate {
        effects.EmitMove(intent, CreationEntry, fromPath, toPath);
      }
    }

    method EmitRenames(updated: seq<Intent>, before: IntentMap, fromPath: string, toPath: string, effects: Effects)
      requires forall u :: u in updated ==> u.intentId in before.data && SameWork(u, before.data[u.intentId])
      requires effects.Numbered() && effects.revisions == revisions
      modifies effects`used, effects`broadcasts, effects`changes, revisions
      ensures effects.Numbered()
      ensures effects.changes == old(effects.changes)
              + UpdatedChanges(updated, before.data, Renamed(fromPath, toPath), spelling)
    {
      ghost var event := Renamed(fromPath, toPath);
      for i := 0 to |updated|
        invariant effects.Numbered()
        invariant effects.changes + UpdatedChanges(updated[i..], before.data, event, spelling) ==
                  old(effects.changes) + UpdatedChanges(updated, before.data, event, spelling)
      {
        assert updated[i..][1..] == updated[i + 1..];
        var prior := before.data[updated[i].intentId];
        Associates(effects.changes, EventChanges(prior, event, spelling),
                   UpdatedChanges(updated[i + 1..], before.data, event, spelling));
        EmitMoves(updated[i], prior, fromPath, toPath, effects);
      }
      assert updated[|updated|..] == [];
    }

    method ApplyRename(event: Event, fromPath: string, toPath: string, effects: Effects)
      requires locks.spelling == spelling && intents.spelling == spelling && IntentsValid(intents.intents, spelling)
      requires event.payload == PathRenamed(fromPath, toPath)
      requires effects.Numbered() && effects.changes == [] && effects.revisions == revisions && effects.audits == []
               && effects.conflict == None
      modifies locks, intents, effects, revisions
      ensures Did(Apply(old(Regs()), event, effects.first, 0, spelling), effects)
    {
      hide RenameLocks, AllAfter, AllEventChanges, Affected, UpdatedChanges, TrackedAfter, IntentsValid;
      var before := intents.intents;
      ValidIntentIds(before, spelling);
      ValidIntentMap(before, spelling);
      RenameLock(event, fromPath, toPath, effects);
      var updated := intents.RenamePath(fromPath, toPath);
      AffectedWork(before.keys, before.data, Renamed(fromPath, toPath), spelling);
      EmitRenames(updated, before, fromPath, toPath, effects);
      AffectedAreAnnounced(before.keys, before.data, Renamed(fromPath, toPath), spelling);
      effects.audits := effects.audits + [Audit(event.member, UpdateAction, toPath, effects.first)];
    }

    method DeleteLocks(event: Event, path: string, effects: Effects)
      requires locks.spelling == spelling
      requires effects.Numbered() && effects.changes == [] && effects.revisions == revisions
      modifies locks, effects`used, effects`broadcasts, effects`changes, revisions
      ensures effects.Numbered()
      ensures (locks.groups, effects.changes) == DeleteLock(old(Regs()), event, path, spelling)
    {
      var previousWinner := locks.WinningLock(path, File);
      var released := locks.ReleaseOnDelete(path, event.member);
      if released {
        var next := locks.WinningLock(path, File);
        effects.EmitWinningLockTransition(previousWinner, next);
        assert effects.changes == Transition(previousWinner, next);
      }
    }

    method EmitDrops(intent: Intent, path: string, memberId: string, effects: Effects)
      requires effects.Numbered() && effects.revisions == revisions
      modifies effects`used, effects`broadcasts, effects`changes, revisions
      ensures effects.Numbered()
      ensures effects.changes == old(effects.changes) + EventChanges(intent, DeletedBy(path, memberId), spelling)
    {
      if SpelledIn(intent.modifyPaths, path, spelling) {
        effects.Broadcast(IntentChange(intent, IntentEntry, Removed, path));
      }
      if SpelledIn(intent.createPaths, path, spelling) {
        effects.Broadcast(IntentChange(intent, CreationEntry, Removed, path));
      }
    }

    /** Announce the drops of the member's rewritten intents, in the order of the registry. */
    method EmitDeletions(updated: seq<Intent>, before: IntentMap, path: string, memberId: string, effects: Effects)
      requires before.Valid() && forall k :: k in before.keys ==> k in before.data && before.data[k].intentId == k
      requires updated == Affected(before.keys, before.data, DeletedBy(path, memberId), spelling)
      requires effects.Numbered() && effects.revisions == revisions
      modifies effects`used, effects`broadcasts, effects`changes, revisions
      ensures effects.Numbered()
      ensures effects.changes == old(effects.changes)
              + AllEventChanges(before.keys, before.data, DeletedBy(path, memberId), spelling)
    {
      hide EventChanges, Affected, Affects, AfterEvent, Distinct;
      var updatedIds := set u | u in updated :: u.intentId;
      ghost var event := DeletedBy(path, memberId);
      for i := 0 to |before.keys|
        invariant effects.Numbered()
        invariant effects.changes + AllEventChanges(before.keys[i..], before.data, event, spelling) ==
                  old(effects.changes) + AllEventChanges(before.keys, before.data, event, spelling)
      {
        assert before.keys[i..][1..] == before.keys[i + 1..];
        var intent := before.data[before.keys[i]];
        UpdatedIds(before.keys, before.data, event, spelling, before.keys[i]);
        if intent.owner.memberId == memberId && intent.intentId in updatedIds {
          Associates(effects.changes, EventChanges(intent, event, spelling),
                     AllEventChanges(before.keys[i + 1..], before.data, event, spelling));
          EmitDrops(intent, path, memberId, effects);
        } else {
          OnlyOwners(intent, path, memberId, spelling);
        }
      }
      assert before.keys[|before.keys|..] == [];
    }

    method ApplyDelete(event: Event, path: string, effects: Effects)
      requires locks.spelling == spelling && intents.spelling == spelling && IntentsValid(intents.intents, spelling)
      requires event.payload == PathDeleted(path)
      requires effects.Numbered() && effects.changes == [] && effects.revisions == revisions && effects.audits == []
               && effects.conflict == None
      modifies locks, intents, effects, revisions
      ensures Did(Apply(old(Regs()), event, effects.first, 0, spelling), effects)
    {
      hide DeleteLock, AllAfter, AllEventChanges, Affected, TrackedAfter, IntentsValid;
      var before := intents.intents;
      ValidIntentIds(before, spelling);
      ValidIntentMap(before, spelling);
      DeleteLocks(event, path, effects);
      var updated := intents.DeletePathForMember(path, event.member);
      EmitDeletions(updated, before, path, event.member.memberId, effects);
      effects.audits := effects.audits + [Audit(event.member, UpdateAction, path, effects.first)];
    }

    method ApplyCreated(event: Event, path: string, effects: Effects)
      requires intents.spelling == spelling && IntentsValid(intents.intents, spelling)
               && event.payload == FileCreated(path)
      requires effects.Numbered() && effects.changes == [] && effects.revisions == revisions && effects.audits == []
               && effects.conflict == None
      modifies intents, effects, revisions
      ensures Did(Apply(old(Regs()), event, effects.first, 0, spelling), effects)
    {
      hide AllAfter, AllEventChanges, Affected, UpdatedChanges, TrackedAfter, IntentsValid;
      var before := intents.intents;
      ValidIntentIds(before, spelling);
      ValidIntentMap(before, spelling);
      var removedFrom := intents.ReconcileCreation(path);
      AffectedWork(before.keys, before.data, Created(path), spelling);
      EmitCreations(removedFrom, before, path, effects);
      AffectedAreAnnounced(before.keys, before.data, Created(path), spelling);
    }

    method EmitCreations(updated: seq<Intent>, before: IntentMap, path: string, effects: Effects)
      requires forall u :: u in updated ==> u.intentId in before.data && SameWork(u, before.data[u.intentId])
      requires effects.Numbered() && effects.revisions == revisions
      modifies effects`used, effects`broadcasts, effects`changes, revisions
      ensures effects.Numbered()
      ensures effects.changes == old(effects.changes) + UpdatedChanges(updated, before.data, Created(path), spelling)
    {
      for i := 0 to |updated|
        invariant effects.Numbered()
        invariant effects.changes + UpdatedChanges(updated[i..], before.data, Created(path), spelling) ==
                  old(effects.changes) + UpdatedChanges(updated, before.data, Created(path), spelling)
      {
        assert updated[i..][1..] == updated[i + 1..];
        var change := IntentChange(updated[i], CreationEntry, Removed, path);
        Associates(effects.changes, [change], UpdatedChanges(updated[i + 1..], before.data, Created(path), spelling));
        effects.Broadcast(change);
      }
      assert updated[|updated|..] == [];
    }

    /** Messages, tasks and the like: they may be refused, or take further revisions. */
    method ApplyOther(event: Event, refused: bool, furtherRevisions: nat, effects: Effects)
      returns (rejection: Option<Rejection>)
      requires event.payload == Other(refused, furtherRevisions)
      requires effects.Numbered() && effects.changes == [] && effects.revisions == revisions && effects.audits == []
               && effects.conflict == None
      modifies effects, revisions
      ensures var outcome := Apply(old(Regs()), event, effects.first, 0, spelling);
              if rejection.Some? then outcome == Refused(rejection.value) && Regs() == old(Regs())
                 && revisions.counter == old(revisions.counter)
              else outcome.Applied? && Did(outcome, effects)
    {
      if refused {
        return Some(OtherRejection);
      }
      for i := 0 to furtherRevisions
        invariant revisions.counter == effects.first + i
        invariant effects.broadcasts == [] && effects.audits == [] && effects.conflict == None
      {
        var _ := revisions.Next();
      }
      return None;
    }

    /** Apply an admitted event. A business rule that refuses it does so before anything changes. */
    method ApplyEvent(event: Event, now: int, effects: Effects) returns (rejection: Option<Rejection>)
      requires locks.spelling == spelling && intents.spelling == spelling && presence.spelling == spelling
               && StateValid(Regs(), spelling)
      requires effects.Numbered() && effects.changes == [] && effects.revisions == revisions && effects.audits == []
               && effects.conflict == None
      modifies locks, intents, presence, effects, revisions
      ensures var outcome := Apply(old(Regs()), event, effects.first, now, spelling);
              if rejection.Some? then outcome == Refused(rejection.value) && Regs() == old(Regs())
                 && revisions.counter == old(revisions.counter)
              else outcome.Applied? && Did(outcome, effects)
    {
      hide LocksValid, IntentsValid, PresenceValid, Acquire, Transition, RenameLocks, DeleteLock, IntentsAfter,
           AllEventChanges, Presences.Report,
           Locks.Release, Intents.Declare, Intents.Update, Intents.Withdraw;
      rejection := None;
      match event.payload
      case PresenceReport(path, state) =>
        ApplyPresence(event, path, state, effects);
      case LockAcquire(scope, kind, mode) =>
        ApplyAcquire(event, scope, kind, mode, now, [], effects);
      case LockOverride(scope, kind, mode, reason) =>
        if IsBlank(reason) {
          return Some(OverrideReasonRequired);
        }
        ApplyAcquire(event, scope, kind, mode, now, [Audit(event.member, OverrideAction, scope, effects.first)],
                     effects);
      case LockRelease(target) =>
        rejection := ApplyRelease(event, target, effects);
      case IntentDeclare(modifyPaths, createPaths, description) =>
        rejection := ApplyDeclare(event, modifyPaths, createPaths, description, effects);
      case IntentUpdate(intentId, modifyPaths, createPaths, description) =>
        rejection := ApplyUpdate(event, intentId, modifyPaths, createPaths, description, effects);
      case IntentWithdraw(intentId) =>
        rejection := ApplyWithdraw(event, intentId, effects);
      case PathRenamed(fromPath, toPath) =>
        ApplyRename(event, fromPath, toPath, effects);
      case PathDeleted(path) =>
        ApplyDelete(event, path, effects);
      case FileCreated(path) =>
        ApplyCreated(event, path, effects);
      case Other(refused, furtherRevisions) =>
        rejection := ApplyOther(event, refused, furtherRevisions, effects);
    }

    // ----- Ingesting -----

    /** Put the registries and the counter back, and accept nothing more. */
    method FailClosed(stateBefore: Snapshot)
      requires locks.spelling == spelling && intents.spelling == spelling && presence.spelling == spelling
      modifies `storageFaulted, locks, intents, presence, revisions
      ensures State() == old(State()).(regs := Restore(stateBefore, old(intents.tracked), spelling),
                                       counter := stateBefore.highestRevision, faulted := true)
    {
      storageFaulted := true;
      RestoreRegistries(stateBefore);
      revisions.RestoreCheckpoint(stateBefore.highestRevision);
    }

    /** What a duplicate acknowledgement says about the lock it asked for. */
    method CurrentLockConflict(event: Event) returns (conflict: Option<LockConflict>)
      requires locks.spelling == spelling
      ensures conflict == CurrentConflict(Regs(), event, spelling)
    {
      if !event.payload.LockAcquire? && !event.payload.LockOverride? {
        return None;
      }
      var winner := locks.WinningLock(event.payload.scope, event.payload.kind);
      if winner.None? || winner.value.holder.memberId == event.member.memberId {
        return None;
      }
      return Some(LockConflict(event.payload.scope, winner.value.holder, winner.value.eventRevision));
    }

    /** The log accepts every update of an event: their revisions are above all earlier ones. */
    method AppendToLog(updates: seq<Update>, ghost bound: nat)
      requires Increasing(eventLog.updates) && (forall u :: u in eventLog.updates ==> u.eventRevision <= bound)
      requires Increasing(updates) && forall u :: u in updates ==> u.eventRevision > bound
      modifies eventLog
      ensures eventLog.Contents() == old(eventLog.Contents()).(updates := old(eventLog.updates) + updates)
    {
      for i := 0 to |updates|
        invariant eventLog.updates == old(eventLog.updates) + updates[..i]
                  && eventLog.compactedThrough == old(eventLog.compactedThrough)
      {
        assert updates[i] in updates;
        LastBefore(old(eventLog.updates), updates, i, bound);
        var ok := eventLog.Append(updates[i]);
        assert ok;
        assert updates[..i + 1] == updates[..i] + [updates[i]];
      }
      assert updates[..|updates|] == updates;
    }

    /** Apply an admitted event and commit it; every failure of the commit fences the host. */
    method ApplyAndCommit(event: Event, revision: nat, stateBefore: Snapshot, storageWorks: bool, now: int,
                          ghost before: Memory)
      returns (reply: Reply)
      requires locks.spelling == spelling && intents.spelling == spelling && presence.spelling == spelling
      requires State() == Admitted(before, gate.guard) && revision == revisions.counter
               && stateBefore == Snapshotted(before)
      requires StateValid(before.regs, spelling) && !before.faulted
      requires Increasing(eventLog.updates) && forall u :: u in eventLog.updates ==> u.eventRevision <= before.counter
      modifies `storageFaulted, locks, intents, presence, revisions, gate`applied, eventLog, store
      ensures Ingested(State(), store.Tables(), reply) ==
              Host.ApplyAndCommit(before, old(State()), old(store.Tables()), event, storageWorks, now, spelling)
    {
      hide StateValid, Apply, Serialize, Restore, Host.CommitMutation, Increasing;
      var effects := new Effects(revision, revisions);
      var rejection := ApplyEvent(event, now, effects);
      if rejection.Some? {
        var state := TakeSnapshot();
        var ok := store.CommitMutation(RowOf(event, revision), false, [], state, storageWorks);
        if !ok {
          SnapshotHighest(before);
          FailClosed(stateBefore);
          return StorageError;
        }
        return RuleRejection(rejection.value, revision);
      }
      gate.RecordApplied(event.eventId, revision);
      var state := TakeSnapshot();
      var ok := store.CommitMutation(RowOf(event, revision), true, effects.audits, state, storageWorks);
      if !ok {
        SnapshotHighest(before);
        FailClosed(stateBefore);
        return StorageError;
      }
      StampIsOrdered(effects.broadcasts, Apply(before.regs, event, revision, now, spelling).changes, revision);
      AppendToLog(effects.broadcasts, before.counter);
      return Accepted(revision, effects.broadcasts, effects.conflict);
    }

    /** One event from the wire to its reply. */
    method Ingest(event: Event, checks: Checks, storageWorks: bool, now: int) returns (reply: Reply)
      requires Valid()
      modifies `storageFaulted, locks, intents, presence, revisions, gate, eventLog, store
      ensures Ingested(State(), store.Tables(), reply) ==
              Host.Ingest(old(State()), old(store.Tables()), event, checks, storageWorks, now, spelling)
      ensures Valid()
    {
      hide Running, Apply, Serialize, Restore, Host.CommitMutation, Host.AcceptReplay, Increasing, Host.ApplyAndCommit,
           StateValid;
      ghost var before, tables := State(), store.Tables();
      IngestIsValid(before, tables, event, checks, storageWorks, now, spelling);
      RunningState(before, tables, spelling);
      if !checks.authentic {
        return NotAuthentic;
      }
      if storageFaulted {
        return StorageError;
      }
      var stateBefore := TakeSnapshot();
      var admission := gate.Admit(event, checks, revisions);
      match admission
      case GateRejected(rejected) =>
        reply := rejected;
      case GateDuplicate(revision) =>
        var conflict := CurrentLockConflict(event);
        reply := DuplicateOf(revision, conflict);
      case GateAssigned(revision) =>
        reply := ApplyAndCommit(event, revision, stateBefore, storageWorks, now, before);
    }

    // ----- Sweeping -----

    /** Announce the promoted winner of every group that lost one, each once. */
    method PushPromotions(removed: seq<Lock>, removals: Removals)
      requires locks.spelling == spelling && removals.Numbered() && removals.revisions == revisions
      modifies removals`updates, removals`changes, revisions
      ensures removals.Numbered()
      ensures removals.changes == old(removals.changes) + Promotions(locks.groups, removed, {}, spelling)
    {
      hide Holder, KeyOfScope;
      var emitted: set<string> := {};
      for i := 0 to |removed|
        invariant removals.Numbered()
        invariant removals.changes + Promotions(locks.groups, removed[i..], emitted, spelling) ==
                  old(removals.changes) + Promotions(locks.groups, removed, {}, spelling)
      {
        assert removed[i..][1..] == removed[i + 1..];
        var lock := removed[i];
        if !lock.concurrent {
          var winner := locks.WinningLock(lock.scope, lock.kind);
          if winner.Some? && winner.value.lockId !in emitted {
            emitted := emitted + {winner.value.lockId};
            Associates(removals.changes, [LockChange(winner.value, Added)],
                       Promotions(locks.groups, removed[i + 1..], emitted, spelling));
            removals.Push(LockChange(winner.value, Added));
          }
        }
      }
      assert removed[|removed|..] == [];
    }

    /** Release, withdraw and stop everything of one stale device. */
    method SweepOne(deviceId: string, removals: Removals) returns (expired: seq<Lock>)
      requires locks.spelling == spelling && intents.spelling == spelling && presence.spelling == spelling
               && intents.intents.Valid()
      requires removals.Numbered() && removals.revisions == revisions
      modifies locks, intents, presence, removals`updates, removals`changes, revisions
      ensures removals.Numbered()
      ensures var swept := SweepDevice(old(Regs()), deviceId, old(revisions.counter) + 1, spelling);
              Regs() == swept.regs && removals.changes == old(removals.changes) + swept.changes
              && expired == swept.expired
    {
      hide ExpireLocks, ExpireIntents, StopAll, ActiveForDevice, OwnedBy, AllIntentChanges, LockRemovals,
           PresenceRemovals;
      expired := locks.Expire(OfDevice(deviceId));
      removals.PushLocks(expired);
      var withdrawn := intents.ExpireByDevice(deviceId);
      removals.PushIntents(withdrawn);
      LockRemovalsLength(expired);
      var stopped := presence.StopActiveForDevice(deviceId, revisions.counter + 1);
      removals.PushPresence(stopped);
      ThreeAppends(old(removals.changes), LockRemovals(expired), AllIntentChanges(withdrawn, Removed),
                   PresenceRemovals(stopped));
    }

    /** The heartbeat sweep over every stale device. */
    method SweepHeartbeats(stale: seq<string>, removals: Removals) returns (expired: seq<Lock>)
      requires locks.spelling == spelling && intents.spelling == spelling && presence.spelling == spelling
               && intents.intents.Valid()
      requires removals.Numbered() && removals.revisions == revisions && removals.changes == []
      modifies locks, intents, presence, removals`updates, removals`changes, revisions
      ensures removals.Numbered()
      ensures var swept := SweepDevices(old(Regs()), stale, old(revisions.counter) + 1, spelling);
              Regs() == swept.regs && removals.changes == swept.changes && expired == swept.expired
    {
      hide SweepDevice;
      expired := [];
      ghost var all := SweepDevices(Regs(), stale, revisions.counter + 1, spelling);
      for i := 0 to |stale|
        invariant removals.Numbered() && intents.intents.Valid()
        invariant var rest := SweepDevices(Regs(), stale[i..], revisions.counter + 1, spelling);
                  rest.regs == all.regs && removals.changes + rest.changes == all.changes
                  && expired + rest.expired == all.expired
      {
        assert stale[i..][1..] == stale[i + 1..];
        ghost var swept := SweepDevice(Regs(), stale[i], revisions.counter + 1, spelling);
        ghost var rest := SweepDevices(swept.regs, stale[i + 1..], revisions.counter + 1 + |swept.changes|, spelling);
        Associates(removals.changes, swept.changes, rest.changes);
        Associates(expired, swept.expired, rest.expired);
        SweptIntentsValid(Regs(), stale[i], revisions.counter + 1, spelling);
        var more := SweepOne(stale[i], removals);
        expired := expired + more;
      }
      assert stale[|stale|..] == [] && removals.changes + [] == removals.changes && expired + [] == expired;
    }

    /** The heartbeat sweep with its promotions, then the soft-lock age sweep with its own. */
    method SweepRegistries(stale: seq<string>, cutoff: int) returns (updates: seq<Update>)
      requires locks.spelling == spelling && intents.spelling == spelling && presence.spelling == spelling
               && intents.intents.Valid()
      modifies locks, intents, presence, revisions
      ensures var swept := Sweep(old(Regs()), stale, cutoff, old(revisions.counter) + 1, spelling);
              Regs() == swept.regs && updates == Stamp(swept.changes, old(revisions.counter) + 1)
              && revisions.counter == old(revisions.counter) + |updates|
    {
      hide SweepDevices, Promotions, ExpireLocks, LockRemovals;
      var removals := new Removals(revisions);
      var expired := SweepHeartbeats(stale, removals);
      PushPromotions(expired, removals);
      var aged := locks.Expire(SoftBefore(cutoff));
      removals.PushLocks(aged);
      PushPromotions(aged, removals);
      return removals.updates;
    }

    /** A sweep is committed before anything of it is published. */
    method SweepExpiry(stale: seq<string>, cutoff: int, storageWorks: bool) returns (published: seq<Update>)
      requires Valid()
      modifies `storageFaulted, locks, intents, presence, revisions, eventLog, store
      ensures SweptHost(State(), store.Tables(), published) ==
              Host.SweepExpiry(old(State()), old(store.Tables()), stale, cutoff, storageWorks, spelling)
      ensures Valid()
    {
      hide Running, Sweep, Serialize, Restore, Increasing, StateValid, Host.CommitExpiry;
      ghost var before, tables := State(), store.Tables();
      SweepIsValid(before, tables, stale, cutoff, storageWorks, spelling);
      RunningState(before, tables, spelling);
      if storageFaulted {
        return [];
      }
      var stateBefore := TakeSnapshot();
      ValidIntents(before.regs, spelling);
      var removals := SweepRegistries(stale, cutoff);
      if removals == [] {
        return [];
      }
      var state := TakeSnapshot();
      var ok := store.CommitExpiry(ExpiryAudits(removals), state, storageWorks);
      if !ok {
        SnapshotHighest(before);
        FailClosed(stateBefore);
        return [];
      }
      StampIsOrdered(removals, Sweep(before.regs, stale, cutoff, before.counter + 1, spelling).changes,
                     before.counter + 1);
      AppendToLog(removals, before.counter);
      return removals;
    }
  }

  /** The rewritten intent is the same piece of work. */
  predicate SameWork(a: Intent, b: Intent) {
    a.intentId == b.intentId && a.owner == b.owner && a.description == b.description
  }

  lemma {:induction false} AffectedWork(keys: seq<string>, data: map<string, Intent>, event: PathEvent, sp: Spelling)
    requires forall k :: k in keys ==> k in data && data[k].intentId == k
    ensures forall u :: u in Affected(keys, data, event, sp) ==> u.intentId in data && SameWork(u, data[u.intentId])
  {
    hide Affects, AfterEvent;
    if keys != [] {
      AffectedWork(keys[1..], data, event, sp);
      RewrittenId(data[keys[0]], event, sp);
    }
  }

  lemma ValidIntentMap(intents: IntentMap, sp: Spelling)
    requires IntentsValid(intents, sp)
    ensures intents.Valid()
  {
  }

  /** The ids of the rewritten intents are those of the affected ones. */
  lemma {:induction false} UpdatedIds(keys: seq<string>, data: map<string, Intent>, event: PathEvent, sp: Spelling,
                                      id: string)
    requires forall k :: k in keys ==> k in data && data[k].intentId == k
    ensures id in (set u | u in Affected(keys, data, event, sp) :: u.intentId) <==>
              id in keys && Affects(data[id], event, sp)
  {
    hide Affects, AfterEvent;
    if keys != [] {
      UpdatedIds(keys[1..], data, event, sp, id);
      RewrittenId(data[keys[0]], event, sp);
      var own := if Affects(data[keys[0]], event, sp) then [AfterEvent(data[keys[0]], event, sp)] else [];
      assert Affected(keys, data, event, sp) == own + Affected(keys[1..], data, event, sp);
      assert id in keys <==> id == keys[0] || id in keys[1..];
    }
  }

  lemma OnlyOwners(intent: Intent, path: string, memberId: string, sp: Spelling)
    ensures Affects(intent, DeletedBy(path, memberId), sp) ==> intent.owner.memberId == memberId
  {
  }

  lemma LastBefore(log: seq<Update>, updates: seq<Update>, i: nat, bound: nat)
    requires (forall u :: u in log ==> u.eventRevision <= bound) && Increasing(updates)
    requires i < |updates| && forall u :: u in updates ==> u.eventRevision > bound
    ensures var all := log + updates[..i]; all == [] || all[|all| - 1].eventRevision < updates[i].eventRevision
  {
    var all := log + updates[..i];
    assert updates[i] in updates;
    if i == 0 && all != [] {
      assert all[|all| - 1] in log;
    }
  }

  lemma StampIsOrdered(updates: seq<Update>, changes: seq<Change>, revision: nat)
    requires updates == Stamp(changes, revision) && revision > 0
    ensures Increasing(updates) && forall u :: u in updates ==> u.eventRevision > revision - 1
  {
  }

  lemma RunningState(memory: Memory, store: Durable, sp: Spelling)
    requires Running(memory, store, sp)
    ensures StateValid(memory.regs, sp)
  {
    hide StoreSound, GateInStep, Mirrors, StateBounded, StateValid;
  }

  /** The log stays in order below the counter. */
  lemma IngestIsValid(memory: Memory, store: Durable, event: Event, checks: Checks, storageWorks: bool, now: int,
                      sp: Spelling)
    requires Running(memory, store, sp)
    requires Increasing(memory.log.updates) && forall u :: u in memory.log.updates ==> u.eventRevision <= memory.counter
    ensures var r := Host.Ingest(memory, store, event, checks, storageWorks, now, sp);
            && Running(r.memory, r.store, sp) && Increasing(r.memory.log.updates)
            && forall u :: u in r.memory.log.updates ==> u.eventRevision <= r.memory.counter
  {
    hide Running, Increasing, Host.Ingest;
    IngestCommits(memory, store, event, checks, storageWorks, now, sp);
    var r := Host.Ingest(memory, store, event, checks, storageWorks, now, sp);
    RunningCounter(memory, store, sp);
    RunningCounter(r.memory, r.store, sp);
    IncreasingAppend(memory.log.updates, Broadcasts(r.reply), memory.counter);
    ExtendsWatermark(store, r.store);
  }

  lemma RunningCounter(memory: Memory, store: Durable, sp: Spelling)
    requires Running(memory, store, sp)
    ensures memory.counter == store.watermark
  {
    hide StoreSound, GateInStep;
    CounterIsWatermark(memory, store, sp);
  }

  lemma ExtendsWatermark(store: Durable, later: Durable)
    requires Extends(store, later)
    ensures store.watermark <= later.watermark
  {
  }

  lemma LockRemovalsLength(locks: seq<Lock>)
    ensures |LockRemovals(locks)| == |locks|
  {
  }

  lemma ThreeAppends(all: seq<Change>, a: seq<Change>, b: seq<Change>, c: seq<Change>)
    ensures all + a + b + c == all + (a + b + c)
  {
  }

  lemma SweptIntentsValid(regs: Registries, deviceId: string, next: nat, sp: Spelling)
    requires regs.intents.Valid()
    ensures SweepDevice(regs, deviceId, next, sp).regs.intents.Valid()
  {
    hide ExpireLocks, StopAll, ActiveForDevice, OwnedBy, AllIntentChanges;
    KeepKeysMembers(regs.intents.keys, regs.intents.data, deviceId);
  }

  lemma ValidIntents(regs: Registries, sp: Spelling)
    requires StateValid(regs, sp)
    ensures regs.intents.Valid()
  {
  }

  lemma SweepIsValid(memory: Memory, store: Durable, stale: seq<string>, cutoff: int, storageWorks: bool, sp: Spelling)
    requires Running(memory, store, sp)
    requires Increasing(memory.log.updates) && forall u :: u in memory.log.updates ==> u.eventRevision <= memory.counter
    ensures var r := Host.SweepExpiry(memory, store, stale, cutoff, storageWorks, sp);
            && Running(r.memory, r.store, sp) && Increasing(r.memory.log.updates)
            && forall u :: u in r.memory.log.updates ==> u.eventRevision <= r.memory.counter
  {
    hide Running, Increasing, Host.SweepExpiry;
    SweepCommits(memory, store, stale, cutoff, storageWorks, sp);
    var r := Host.SweepExpiry(memory, store, stale, cutoff, storageWorks, sp);
    RunningCounter(memory, store, sp);
    RunningCounter(r.memory, r.store, sp);
    IncreasingAppend(memory.log.updates, r.removals, memory.counter);
    ExtendsWatermark(store, r.store);
  }
}
