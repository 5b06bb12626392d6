/** The host's registries and what one event does to them: the state change and
    the coordination changes it broadcasts (apps/host/src/authority.ts, `apply`). */
module Registries {
  import opened Protocol
  import opened JsMaps
  import opened JsText
  import opened Paths
  import opened Locks
  import opened Intents
  import opened Presences

  datatype Registries = Registries(locks: Groups, intents: IntentMap, tracked: set<string>, presence: PresenceMap)

  const NO_STATE := Registries(Empty(), Empty(), {}, Empty())

  datatype Snapshot = Snapshot(locks: seq<Lock>, presence: seq<PresenceRecord>, intents: seq<Intent>,
                               highestRevision: nat)

  function Serialize(regs: Registries, highestRevision: nat): Snapshot {
    Snapshot(AllLocks(regs.locks), regs.presence.Values(), regs.intents.Values(), highestRevision)
  }

  /** Replace the registries by a snapshot; the set of existing files is not part of it. */
  function Restore(snapshot: Snapshot, tracked: set<string>, sp: Spelling): Registries {
    Registries(RestoreLocks(snapshot.locks, sp), RestoreIntents(Empty(), snapshot.intents), tracked,
               RestorePresence(Empty(), snapshot.presence, sp))
  }

  // ----- Broadcast changes -----

  function LockChange(lock: Lock, op: Op): Change {
    Change(LockEntry, op, lock.scope, lock.holder, None)
  }

  /** Only a group's winner is shown, so only a change of winner is announced. */
  function Transition(previous: Option<Lock>, next: Option<Lock>): seq<Change> {
    if previous.Some? && next.Some? && previous.value.lockId == next.value.lockId then []
    else
      (if previous.Some? then [LockChange(previous.value, Removed)] else [])
      + (if next.Some? then [LockChange(next.value, Added)] else [])
  }

  function IntentChange(intent: Intent, entryType: EntryType, op: Op, path: string): Change {
    Change(entryType, op, path, intent.owner, Some(IntentRef(intent.intentId, intent.description)))
  }

  function PathChanges(intent: Intent, entryType: EntryType, op: Op, paths: seq<string>): seq<Change> {
    seq(|paths|, i requires 0 <= i < |paths| => IntentChange(intent, entryType, op, paths[i]))
  }

  /** One change per planned modification and per planned creation. */
  function IntentChanges(intent: Intent, op: Op): seq<Change> {
    PathChanges(intent, IntentEntry, op, intent.modifyPaths)
      + PathChanges(intent, CreationEntry, op, intent.createPaths)
  }

  predicate SpelledIn(paths: seq<string>, path: string, sp: Spelling) {
    exists p :: p in paths && sp.normalize(p) == sp.normalize(path)
  }

  /** The two changes of one announced move. */
  function MoveChanges(intent: Intent, entryType: EntryType, paths: seq<string>, fromPath: string, toPath: string,
                       sp: Spelling)
    : seq<Change>
  {
    if SpelledIn(paths, fromPath, sp) then
      [IntentChange(intent, entryType, Removed, fromPath), IntentChange(intent, entryType, Added, toPath)]
    else []
  }

  function DropChanges(intent: Intent, entryType: EntryType, paths: seq<string>, path: string,
                       sp: Spelling): seq<Change>
  {
    if SpelledIn(paths, path, sp) then [IntentChange(intent, entryType, Removed, path)] else []
  }

  /** The changes announced for one intent that a path event affected. */
  function EventChanges(intent: Intent, event: PathEvent, sp: Spelling): seq<Change> {
    match event
    case Renamed(fromPath, toPath) =>
      MoveChanges(intent, IntentEntry, intent.modifyPaths, fromPath, toPath, sp)
      + MoveChanges(intent, CreationEntry, intent.createPaths, fromPath, toPath, sp)
    case Created(path) => [IntentChange(intent, CreationEntry, Removed, path)]
    case DeletedBy(path, _) =>
      DropChanges(intent, IntentEntry, intent.modifyPaths, path, sp)
      + DropChanges(intent, CreationEntry, intent.createPaths, path, sp)
  }

  function AllEventChanges(keys: seq<string>, data: map<string, Intent>, event: PathEvent, sp: Spelling): seq<Change> {
    if keys == [] then []
    else
      (if keys[0] in data && Affects(data[keys[0]], event, sp) then EventChanges(data[keys[0]], event, sp) else [])
      + AllEventChanges(keys[1..], data, event, sp)
  }

  function AllIntentChanges(intents: seq<Intent>, op: Op): seq<Change> {
    if intents == [] then [] else IntentChanges(intents[0], op) + AllIntentChanges(intents[1..], op)
  }

  function PresenceChange(member: Member, path: string, op: Op): Change {
    Change(PresenceEntry, op, path, member, None)
  }

  // ----- One event -----

  datatype Payload =
    | PresenceReport(path: string, state: PresenceState)
    | LockAcquire(scope: string, kind: ScopeKind, mode: LockMode)
    | LockOverride(scope: string, kind: ScopeKind, mode: LockMode, reason: string)
    | LockRelease(target: ReleaseTarget)
    | IntentDeclare(modifyPaths: seq<string>, createPaths: seq<string>, description: string)
    | IntentUpdate(intentId: string, modifyPaths: seq<string>, createPaths: seq<string>, description: string)
    | IntentWithdraw(intentId: string)
    | PathRenamed(fromPath: string, toPath: string)
    | PathDeleted(path: string)
    | FileCreated(path: string)
    /** Messages, tasks, notifications, diffs and dependency graphs: they may be
        refused and may take further revisions, but change no coordination entry. */
    | Other(refused: bool, furtherRevisions: nat)

  datatype Event = Event(eventId: string, member: Member, counter: int, nonce: string, payload: Payload)

  datatype AuditAction = Create | UpdateAction | WithdrawAction | OverrideAction | Expire

  datatype Audit = Audit(member: Member, action: AuditAction, targetScope: string, eventRevision: nat)

  datatype LockConflict = LockConflict(scope: string, winner: Member, eventRevision: nat)

  datatype Rejection = LockRejection(lockError: ReleaseError) | IntentRejection(intentError: IntentError)
                     | OverrideReasonRequired | OtherRejection

  datatype Outcome =
    | Refused(rejection: Rejection)
    | Applied(regs: Registries, changes: seq<Change>, furtherRevisions: nat, audits: seq<Audit>,
              conflict: Option<LockConflict>)

  predicate IsBlank(text: string) {
    Trim(text) == ""
  }

  function AcquireOutcome(regs: Registries, event: Event, scope: string, kind: ScopeKind, mode: LockMode, revision: nat,
                          now: int, audits: seq<Audit>, sp: Spelling): Outcome
  {
    var key := KeyOfScope(scope, kind, sp);
    var previous := Holder(regs.locks, key);
    var request := Lock(event.eventId, scope, kind, mode, event.member, revision, now, false);
    var acquired := Acquire(regs.locks, request, sp);
    Applied(regs.(locks := acquired.groups), Transition(previous, Some(acquired.winner)), 0, audits,
            if acquired.contended then
              Some(LockConflict(scope, acquired.winner.holder, acquired.winner.eventRevision))
            else None)
  }

  function FirstPath(intent: Intent): string {
    if intent.modifyPaths != [] then intent.modifyPaths[0]
    else if intent.createPaths != [] then intent.createPaths[0] else ""
  }

  function FirstEdit(intent: Intent): string {
    if intent.modifyPaths != [] then intent.modifyPaths[0] else ""
  }

  function RenameLocks(regs: Registries, event: Event, fromPath: string, toPath: string, revision: nat, sp: Spelling)
    : (r: (Groups, seq<Change>))
  {
    var from, to := KeyOfScope(fromPath, File, sp), KeyOfScope(toPath, File, sp);
    var moved := TransferPath(regs.locks, event.member, fromPath, toPath, revision, sp);
    if moved.None? then (regs.locks, [])
    else
      (moved.value,
       Transition(Holder(regs.locks, from), Holder(moved.value, from))
       + Transition(Holder(regs.locks, to), Holder(moved.value, to)))
  }

  function DeleteLock(regs: Registries, event: Event, path: string, sp: Spelling): (r: (Groups, seq<Change>)) {
    var key := KeyOfScope(path, File, sp);
    var released := ReleaseOnDelete(regs.locks, path, event.member, sp);
    if released.None? then (regs.locks, [])
    else (released.value, Transition(Holder(regs.locks, key), Holder(released.value, key)))
  }

  function IntentsAfter(regs: Registries, event: PathEvent, sp: Spelling): Registries {
    regs.(intents := AllAfter(regs.intents, event, sp), tracked := TrackedAfter(regs.tracked, event, sp))
  }

  function Apply(regs: Registries, event: Event, revision: nat, now: int, sp: Spelling): Outcome {
    match event.payload
    case PresenceReport(path, state) =>
      Applied(regs.(presence := Report(regs.presence, event.member, path, state, revision, sp)),
              [PresenceChange(event.member, path, if state.Stopped? then Removed else Added)], 0, [], None)
    case LockAcquire(scope, kind, mode) =>
      AcquireOutcome(regs, event, scope, kind, mode, revision, now, [], sp)
    case LockOverride(scope, kind, mode, reason) =>
      if IsBlank(reason) then Refused(OverrideReasonRequired)
      else AcquireOutcome(regs, event, scope, kind, mode, revision, now,
                          [Audit(event.member, OverrideAction, scope, revision)], sp)
    case LockRelease(target) =>
      (match Release(regs.locks, event.member, target, sp)
       case ReleaseFailed(error) => Refused(LockRejection(error))
       case ReleaseOk(groups, released, promoted) =>
         Applied(regs.(locks := groups), Transition(Some(released), promoted), 0, [], None))
    case IntentDeclare(modifyPaths, createPaths, description) =>
      (match Declare(regs.intents, regs.tracked, event.eventId, event.member, modifyPaths, createPaths, description,
                     revision, sp)
       case IntentFailed(error) => Refused(IntentRejection(error))
       case IntentOk(intents, intent) =>
         Applied(regs.(intents := intents), IntentChanges(intent, Added), 0,
                 [Audit(event.member, Create, FirstPath(intent), revision)], None))
    case IntentUpdate(intentId, modifyPaths, createPaths, description) =>
      (match Intents.Update(regs.intents, regs.tracked, intentId, event.member, modifyPaths, createPaths, description,
                            revision, sp)
       case IntentFailed(error) => Refused(IntentRejection(error))
       case IntentOk(intents, intent) =>
         var previous := if intentId in regs.intents.data then IntentChanges(regs.intents.data[intentId], Removed)
             else [];
         Applied(regs.(intents := intents), previous + IntentChanges(intent, Added), 0,
                 [Audit(event.member, UpdateAction, FirstEdit(intent), revision)], None))
    case IntentWithdraw(intentId) =>
      (match Withdraw(regs.intents, intentId, event.member)
       case IntentFailed(error) => Refused(IntentRejection(error))
       case IntentOk(intents, removed) =>
         Applied(regs.(intents := intents), IntentChanges(removed, Removed), 0,
                 [Audit(event.member, WithdrawAction, FirstEdit(removed), revision)], None))
    case PathRenamed(fromPath, toPath) =>
      var (locks, lockChanges) := RenameLocks(regs, event, fromPath, toPath, revision, sp);
      var change := Renamed(fromPath, toPath);
      Applied(IntentsAfter(regs, change, sp).(locks := locks),
              lockChanges + AllEventChanges(regs.intents.keys, regs.intents.data, change, sp), 0,
              [Audit(event.member, UpdateAction, toPath, revision)], None)
    case PathDeleted(path) =>
      var (locks, lockChanges) := DeleteLock(regs, event, path, sp);
      var change := DeletedBy(path, event.member.memberId);
      Applied(IntentsAfter(regs, change, sp).(locks := locks),
              lockChanges + AllEventChanges(regs.intents.keys, regs.intents.data, change, sp), 0,
              [Audit(event.member, UpdateAction, path, revision)], None)
    case FileCreated(path) =>
      var change := Created(path);
      Applied(IntentsAfter(regs, change, sp), AllEventChanges(regs.intents.keys, regs.intents.data, change, sp), 0, [],
              None)
    case Other(refused, furtherRevisions) =>
      if refused then Refused(OtherRejection) else Applied(regs, [], furtherRevisions, [], None)
  }

  // ----- The expiry sweep -----

  function LockRemovals(locks: seq<Lock>): seq<Change> {
    seq(|locks|, i requires 0 <= i < |locks| => LockChange(locks[i], Removed))
  }

  function PresenceRemovals(records: seq<PresenceRecord>): seq<Change> {
    seq(|records|, i requires 0 <= i < |records| => PresenceChange(records[i].member, records[i].path, Removed))
  }

  /** The state after a sweep or a part of it, what it announces, and the locks it released. */
  datatype Swept = Swept(regs: Registries, changes: seq<Change>, expired: seq<Lock>)

  /** Release, withdraw and stop everything of one stale device, taking revisions from `next` on. */
  function SweepDevice(regs: Registries, deviceId: string, next: nat, sp: Spelling): Swept {
    var pass := ExpireLocks(regs.locks, OfDevice(deviceId));
    var intentChanges := AllIntentChanges(OwnedBy(regs.intents.keys, regs.intents.data, deviceId), Removed);
    var active := ActiveForDevice(regs.presence.keys, regs.presence.data, deviceId);
    var start := next + |pass.1| + |intentChanges|;
    Swept(Registries(pass.0, ExpireIntents(regs.intents, deviceId), regs.tracked,
                     StopAll(regs.presence, active, start, sp)),
          LockRemovals(pass.1) + intentChanges + PresenceRemovals(active),
          pass.1)
  }

  function SweepDevices(regs: Registries, devices: seq<string>, next: nat, sp: Spelling): Swept
    decreases |devices|
  {
    if devices == [] then Swept(regs, [], [])
    else
      var first := SweepDevice(regs, devices[0], next, sp);
      var rest := SweepDevices(first.regs, devices[1..], next + |first.changes|, sp);
      Swept(rest.regs, first.changes + rest.changes, first.expired + rest.expired)
  }

  /** The winners promoted after a batch of removals, each announced once. */
  function Promotions(groups: Groups, removed: seq<Lock>, emitted: set<string>, sp: Spelling): seq<Change>
    decreases |removed|
  {
    if removed == [] then []
    else
      var lock := removed[0];
      var winner := Holder(groups, KeyOfScope(lock.scope, lock.kind, sp));
      if lock.concurrent || winner.None?
         || winner.value.lockId in emitted then Promotions(groups, removed[1..], emitted, sp)
      else [LockChange(winner.value, Added)] + Promotions(groups, removed[1..], emitted + {winner.value.lockId}, sp)
  }

  /** The heartbeat sweep over the stale devices, then the soft-lock age sweep. */
  function Sweep(regs: Registries, stale: seq<string>, cutoff: int, next: nat, sp: Spelling): Swept {
    var devices := SweepDevices(regs, stale, next, sp);
    var aged := ExpireLocks(devices.regs.locks, SoftBefore(cutoff));
    Swept(devices.regs.(locks := aged.0),
          devices.changes + Promotions(devices.regs.locks, devices.expired, {}, sp)
          + LockRemovals(aged.1) + Promotions(aged.0, aged.1, {}, sp),
          devices.expired + aged.1)
  }
}
