/** Valid registries, and that every event and every sweep keeps them valid. */
module States {
  import opened Protocol
  import opened Paths
  import opened Locks
  import opened LockProofs
  import opened Intents
  import opened Presences
  import opened Registries

  ghost predicate StateValid(regs: Registries, sp: Spelling) {
    LocksValid(regs.locks, sp) && IntentsValid(regs.intents, sp) && PresenceValid(regs.presence, sp)
  }

  /** All revisions are at most `bound`; lock and intent ids are those of given events. */
  ghost predicate StateBounded(regs: Registries, bound: nat, ids: set<string>) {
    Bounded(regs.locks, bound, ids) && IntentsBounded(regs.intents, bound, ids) && PresenceBounded(regs.presence, bound)
  }

  /** A valid state whose next revision is `next`, made of the events with the given ids. */
  ghost predicate Sound(regs: Registries, next: nat, ids: set<string>, sp: Spelling) {
    sp.Lawful() && next > 0 && StateValid(regs, sp) && StateBounded(regs, next - 1, ids)
  }

  /** No live lock has a glob scope. */
  ghost predicate NoGlobs(locks: Groups) {
    forall g :: g in locks.data ==> g.PathGroup?
  }

  /** A valid intent whose id cannot be taken for a missing one. */
  ghost predicate NamedIntent(id: string, intent: Intent, sp: Spelling) {
    IntentValid(id, intent, sp) && id != ""
  }

  ghost predicate NamedIntents(intents: IntentMap, sp: Spelling) {
    intents.Valid() && forall id :: id in intents.data ==> NamedIntent(id, intents.data[id], sp)
  }

  /** A state the caches have slots for: file and folder scopes, and named intents. */
  ghost predicate Slotted(regs: Registries, sp: Spelling) {
    NoGlobs(regs.locks) && NamedIntents(regs.intents, sp)
  }

  ghost predicate Ready(regs: Registries, next: nat, ids: set<string>, sp: Spelling) {
    Sound(regs, next, ids, sp) && Slotted(regs, sp)
  }

  /** An event that is not applied yet, for which `revision` is the next one. */
  ghost predicate Incoming(regs: Registries, event: Event, revision: nat, ids: set<string>, sp: Spelling) {
    Sound(regs, revision, ids, sp) && event.eventId !in ids
  }

  predicate AsksForGlob(payload: Payload) {
    (payload.LockAcquire? || payload.LockOverride?) && payload.kind.Glob?
  }

  /** The highest revision in use once an event is applied: every further change
      takes one of its own. */
  function LastRevision(revision: nat, changes: seq<Change>, furtherRevisions: nat): nat {
    revision + (if changes == [] then 0 else |changes| - 1) + furtherRevisions
  }

  // ----- Parts of a valid state -----

  ghost predicate KeptLocks(locks: Groups, bound: nat, ids: set<string>, sp: Spelling) {
    LocksValid(locks, sp) && Bounded(locks, bound, ids)
  }

  ghost predicate KeptIntents(intents: IntentMap, bound: nat, ids: set<string>, sp: Spelling) {
    IntentsValid(intents, sp) && IntentsBounded(intents, bound, ids)
  }

  ghost predicate KeptPresence(presence: PresenceMap, bound: nat, sp: Spelling) {
    PresenceValid(presence, sp) && PresenceBounded(presence, bound)
  }

  ghost predicate KeptAll(regs: Registries, bound: nat, ids: set<string>, sp: Spelling) {
    KeptLocks(regs.locks, bound, ids, sp) && KeptIntents(regs.intents, bound, ids, sp)
    && KeptPresence(regs.presence, bound, sp)
  }

  lemma SoundParts(regs: Registries, revision: nat, ids: set<string>, sp: Spelling)
    requires revision > 0
    ensures Sound(regs, revision, ids, sp) <==> sp.Lawful() && KeptAll(regs, revision - 1, ids, sp)
  {
    hide LocksValid, Bounded, IntentsValid, IntentsBounded, PresenceValid, PresenceBounded;
  }

  lemma PresenceBoundedMore(presence: PresenceMap, bound: nat, bound': nat)
    requires PresenceBounded(presence, bound) && bound <= bound'
    ensures PresenceBounded(presence, bound')
  {
  }

  lemma IntentsBoundedMore(intents: IntentMap, bound: nat, ids: set<string>, bound': nat, ids': set<string>)
    requires IntentsBounded(intents, bound, ids) && bound <= bound' && ids <= ids'
    ensures IntentsBounded(intents, bound', ids')
  {
  }

  lemma KeptMore(regs: Registries, bound: nat, ids: set<string>, bound': nat, ids': set<string>, sp: Spelling)
    requires bound <= bound' && ids <= ids'
    ensures KeptLocks(regs.locks, bound, ids, sp) ==> KeptLocks(regs.locks, bound', ids', sp)
    ensures KeptIntents(regs.intents, bound, ids, sp) ==> KeptIntents(regs.intents, bound', ids', sp)
    ensures KeptPresence(regs.presence, bound, sp) ==> KeptPresence(regs.presence, bound', sp)
  {
    hide LocksValid, Bounded, IntentsValid, IntentsBounded, PresenceValid, PresenceBounded;
    if KeptLocks(regs.locks, bound, ids, sp) { BoundedMore(regs.locks, bound, ids, bound', ids'); }
    if KeptIntents(regs.intents, bound, ids, sp) { IntentsBoundedMore(regs.intents, bound, ids, bound', ids'); }
    if KeptPresence(regs.presence, bound, sp) { PresenceBoundedMore(regs.presence, bound, bound'); }
  }

  // ----- One event -----

  lemma AcquireKept(regs: Registries, event: Event, scope: string, kind: ScopeKind, mode: LockMode, revision: nat,
                    now: int,
                    audits: seq<Audit>, sp: Spelling, ids: set<string>)
    requires Sound(regs, revision, ids, sp) && event.eventId !in ids
    ensures var r := AcquireOutcome(regs, event, scope, kind, mode, revision, now, audits, sp);
            r.regs == regs.(locks := r.regs.locks) && KeptLocks(r.regs.locks, revision, ids + {event.eventId}, sp)
  {
    hide LocksValid, Bounded, IntentsValid, PresenceValid, Holder, Transition;
    AcquireKeeps(regs.locks, Lock(event.eventId, scope, kind, mode, event.member, revision, now, false), sp, ids);
  }

  lemma ReleaseKept(regs: Registries, member: Member, target: ReleaseTarget, revision: nat, sp: Spelling,
                    ids: set<string>)
    requires Sound(regs, revision, ids, sp)
    ensures var r := Release(regs.locks, member, target, sp);
            r.ReleaseOk? ==> KeptLocks(r.groups, revision - 1, ids, sp)
  {
    hide LocksValid, Bounded, IntentsValid, PresenceValid, Release;
    if Release(regs.locks, member, target, sp).ReleaseOk? {
      ReleaseKeeps(regs.locks, member, target, sp, revision - 1, ids);
    }
  }

  lemma RenameKept(regs: Registries, event: Event, fromPath: string, toPath: string, revision: nat, sp: Spelling,
                   ids: set<string>)
    requires Sound(regs, revision, ids, sp)
    ensures KeptLocks(RenameLocks(regs, event, fromPath, toPath, revision, sp).0, revision, ids, sp)
  {
    hide LocksValid, Bounded, IntentsValid, PresenceValid, Holder, Transition, TransferPath;
    if TransferPath(regs.locks, event.member, fromPath, toPath, revision, sp).Some? {
      TransferKeeps(regs.locks, event.member, fromPath, toPath, revision, sp, ids);
    } else {
      BoundedMore(regs.locks, revision - 1, ids, revision, ids);
    }
  }

  lemma DeleteKept(regs: Registries, event: Event, path: string, revision: nat, sp: Spelling, ids: set<string>)
    requires Sound(regs, revision, ids, sp)
    ensures KeptLocks(DeleteLock(regs, event, path, sp).0, revision - 1, ids, sp)
  {
    hide LocksValid, Bounded, IntentsValid, PresenceValid, Holder, Transition, DropClaim;
    var key := KeyOfScope(path, File, sp);
    if Holds(regs.locks, key, event.member.memberId) {
      DropClaimKeeps(regs.locks, key, event.member.memberId, sp, revision - 1, ids);
    }
  }

  lemma ReportKept(regs: Registries, member: Member, path: string, state: PresenceState, revision: nat, sp: Spelling,
                   ids: set<string>)
    requires Sound(regs, revision, ids, sp)
    ensures KeptPresence(Report(regs.presence, member, path, state, revision, sp), revision, sp)
  {
    hide LocksValid, Bounded, IntentsValid, IntentsBounded, PresenceValid, PresenceBounded, Report;
    PresenceBoundedMore(regs.presence, revision - 1, revision);
    ReportKeeps(regs.presence, member, path, state, revision, sp);
  }

  lemma PathEventKept(regs: Registries, event: PathEvent, revision: nat, sp: Spelling, ids: set<string>)
    requires Sound(regs, revision, ids, sp)
    ensures KeptIntents(AllAfter(regs.intents, event, sp), revision - 1, ids, sp)
  {
    hide LocksValid, Bounded, IntentsValid, PresenceValid, PresenceBounded, AllAfter, IntentsBounded;
    AllAfterKeeps(regs.intents, event, sp, revision - 1, ids);
  }

  lemma DeclareKept(regs: Registries, event: Event, modifyPaths: seq<string>, createPaths: seq<string>,
                    description: string,
                    revision: nat, sp: Spelling, ids: set<string>)
    requires Incoming(regs, event, revision, ids, sp)
    ensures var r := Declare(regs.intents, regs.tracked, event.eventId, event.member, modifyPaths, createPaths,
                             description, revision, sp);
            r.IntentOk? ==> KeptIntents(r.intents, revision, ids + {event.eventId}, sp)
  {
    hide IntentsValid, LocksValid, PresenceValid, Declare, Bounded, IntentsBounded;
    IntentsBoundedMore(regs.intents, revision - 1, ids, revision, ids);
    DeclareKeeps(regs.intents, regs.tracked, event.eventId, event.member, modifyPaths, createPaths, description,
                 revision, sp, ids);
  }

  lemma UpdateKept(regs: Registries, event: Event, intentId: string, modifyPaths: seq<string>, createPaths: seq<string>,
                   description: string, revision: nat, sp: Spelling, ids: set<string>)
    requires Sound(regs, revision, ids, sp)
    ensures var r := Intents.Update(regs.intents, regs.tracked, intentId, event.member, modifyPaths, createPaths,
                                    description, revision, sp);
            r.IntentOk? ==> KeptIntents(r.intents, revision, ids, sp)
  {
    hide IntentsValid, LocksValid, PresenceValid, Intents.Update, Bounded, IntentsBounded;
    IntentsBoundedMore(regs.intents, revision - 1, ids, revision, ids);
    UpdateKeeps(regs.intents, regs.tracked, intentId, event.member, modifyPaths, createPaths, description, revision, sp,
                ids);
  }

  lemma WithdrawKept(regs: Registries, member: Member, intentId: string, revision: nat, sp: Spelling, ids: set<string>)
    requires Sound(regs, revision, ids, sp)
    ensures var r := Withdraw(regs.intents, intentId, member);
            r.IntentOk? ==> KeptIntents(r.intents, revision - 1, ids, sp)
  {
    hide LocksValid, PresenceValid, Bounded;
    assert forall k :: k in regs.intents.data ==> IntentValid(k, regs.intents.data[k], sp);
  }

  lemma ApplyKept(regs: Registries, event: Event, revision: nat, now: int, sp: Spelling, ids: set<string>)
    requires Incoming(regs, event, revision, ids, sp) && Apply(regs, event, revision, now, sp).Applied?
    ensures KeptAll(Apply(regs, event, revision, now, sp).regs, revision, ids + {event.eventId}, sp)
  {
    hide Sound, KeptLocks, KeptIntents, KeptPresence, AcquireOutcome, RenameLocks, DeleteLock, AllEventChanges,
         IntentChanges,
         Report, Release, Declare, Intents.Update, Withdraw, Transition, TrackedAfter, AllAfter;
    var all := ids + {event.eventId};
    var after := Apply(regs, event, revision, now, sp).regs;
    assert revision > 0 by { NextIsPositive(regs, revision, ids, sp); }
    SoundParts(regs, revision, ids, sp);
    KeptMore(regs, revision - 1, ids, revision, all, sp);
    KeptMore(after, revision - 1, ids, revision, all, sp);
    KeptMore(after, revision, ids, revision, all, sp);
    match event.payload
    case PresenceReport(path, state) =>
      ReportKept(regs, event.member, path, state, revision, sp, ids);
    case LockAcquire(scope, kind, mode) =>
      AcquireKept(regs, event, scope, kind, mode, revision, now, [], sp, ids);
    case LockOverride(scope, kind, mode, _) =>
      AcquireKept(regs, event, scope, kind, mode, revision, now, [Audit(event.member, OverrideAction, scope, revision)],
                  sp, ids);
    case LockRelease(target) =>
      ReleaseKept(regs, event.member, target, revision, sp, ids);
    case IntentDeclare(modifyPaths, createPaths, description) =>
      DeclareKept(regs, event, modifyPaths, createPaths, description, revision, sp, ids);
    case IntentUpdate(intentId, modifyPaths, createPaths, description) =>
      UpdateKept(regs, event, intentId, modifyPaths, createPaths, description, revision, sp, ids);
    case IntentWithdraw(intentId) =>
      WithdrawKept(regs, event.member, intentId, revision, sp, ids);
    case PathRenamed(fromPath, toPath) =>
      PathEventKept(regs, Renamed(fromPath, toPath), revision, sp, ids);
      RenameKept(regs, event, fromPath, toPath, revision, sp, ids);
    case PathDeleted(path) =>
      PathEventKept(regs, DeletedBy(path, event.member.memberId), revision, sp, ids);
      DeleteKept(regs, event, path, revision, sp, ids);
    case FileCreated(path) =>
      PathEventKept(regs, Created(path), revision, sp, ids);
    case Other(_, _) =>
  }

  lemma NextIsPositive(regs: Registries, next: nat, ids: set<string>, sp: Spelling)
    requires Sound(regs, next, ids, sp)
    ensures next > 0
  {
  }

  /** An applied event leaves a valid state, whose revisions and lock and intent ids
      stay within what was handed out. */
  lemma ApplyKeeps(regs: Registries, event: Event, revision: nat, now: int, sp: Spelling, ids: set<string>)
    requires Incoming(regs, event, revision, ids, sp) && Apply(regs, event, revision, now, sp).Applied?
    ensures var r := Apply(regs, event, revision, now, sp);
            Sound(r.regs, LastRevision(revision, r.changes, r.furtherRevisions) + 1, ids + {event.eventId}, sp)
  {
    hide Apply, KeptLocks, KeptIntents, KeptPresence, StateValid, StateBounded;
    var r := Apply(regs, event, revision, now, sp);
    var last := LastRevision(revision, r.changes, r.furtherRevisions);
    ApplyKept(regs, event, revision, now, sp, ids);
    KeptMore(r.regs, revision, ids + {event.eventId}, last, ids + {event.eventId}, sp);
    SoundParts(r.regs, last + 1, ids + {event.eventId}, sp);
  }

  // ----- States with slots -----

  lemma PutKeepsNoGlobs(groups: Groups, key: GroupKey, claims: seq<Lock>)
    requires NoGlobs(groups) && key.PathGroup?
    ensures NoGlobs(PutGroup(groups, key, claims))
  {
  }

  lemma DropKeepsNoGlobs(groups: Groups, key: GroupKey, memberId: string)
    requires NoGlobs(groups) && key.PathGroup? && Holds(groups, key, memberId)
    ensures NoGlobs(DropClaim(groups, key, memberId))
  {
    var claims := groups.Get(key, []);
    PutKeepsNoGlobs(groups, key, RemoveAt(claims, ClaimOf(claims, memberId).value));
  }

  lemma RenameKeepsNoGlobs(regs: Registries, event: Event, fromPath: string, toPath: string, revision: nat,
                           sp: Spelling)
    requires NoGlobs(regs.locks)
    ensures NoGlobs(RenameLocks(regs, event, fromPath, toPath, revision, sp).0)
  {
    hide NoGlobs, DropClaim, PutGroup, Holder, Transition;
    var from, to := KeyOfScope(fromPath, File, sp), KeyOfScope(toPath, File, sp);
    if Holds(regs.locks, from, event.member.memberId) {
      DropKeepsNoGlobs(regs.locks, from, event.member.memberId);
      var without := DropClaim(regs.locks, from, event.member.memberId);
      var held := HeldClaim(regs.locks, from, event.member.memberId);
      PutKeepsNoGlobs(without, to,
                      without.Get(to, []) + [held.(scope := toPath, eventRevision := revision, concurrent := false)]);
    }
  }

  lemma AcquireKeepsNoGlobs(groups: Groups, request: Lock, sp: Spelling)
    requires NoGlobs(groups) && !request.kind.Glob?
    ensures NoGlobs(Acquire(groups, request, sp).groups)
  {
    hide Resolved, WinnerIndex, ClaimOf;
  }

  lemma ReleaseKeepsNoGlobs(groups: Groups, requester: Member, target: ReleaseTarget, sp: Spelling)
    requires NoGlobs(groups) && Release(groups, requester, target, sp).ReleaseOk?
    ensures NoGlobs(Release(groups, requester, target, sp).groups)
  {
    hide Targets, WinnerIndex, Holder;
    var key := FindGroup(groups.keys, groups.data, target, sp).value;
    PutKeepsNoGlobs(groups, key, RemoveAt(groups.data[key], WinnerIndex(groups.data[key])));
  }

  /** Only an acquisition of a glob scope brings in a glob scope. */
  lemma ApplyKeepsNoGlobs(regs: Registries, event: Event, revision: nat, now: int, sp: Spelling)
    requires NoGlobs(regs.locks) && Apply(regs, event, revision, now, sp).Applied? && !AsksForGlob(event.payload)
    ensures NoGlobs(Apply(regs, event, revision, now, sp).regs.locks)
  {
    hide RenameLocks, AllEventChanges, IntentChanges, Declare, Intents.Update, Withdraw, Transition, AllAfter, Report,
         IsBlank,
         Acquire, Release, NoGlobs, TransferPath, Holder;
    match event.payload
    case LockAcquire(scope, kind, mode) =>
      AcquireKeepsNoGlobs(regs.locks, Lock(event.eventId, scope, kind, mode, event.member, revision, now, false), sp);
    case LockOverride(scope, kind, mode, _) =>
      AcquireKeepsNoGlobs(regs.locks, Lock(event.eventId, scope, kind, mode, event.member, revision, now, false), sp);
    case LockRelease(target) =>
      ReleaseKeepsNoGlobs(regs.locks, event.member, target, sp);
    case PathRenamed(fromPath, toPath) =>
      RenameKeepsNoGlobs(regs, event, fromPath, toPath, revision, sp);
    case PathDeleted(path) =>
      var key := KeyOfScope(path, File, sp);
      if Holds(regs.locks, key, event.member.memberId) {
        DropKeepsNoGlobs(regs.locks, key, event.member.memberId);
      }
    case _ =>
  }

  lemma NamesStay(before: IntentMap, after: IntentMap, sp: Spelling)
    requires NamedIntents(before, sp) && IntentsValid(after, sp)
    requires forall id :: id in after.data ==> id in before.data || id != ""
    ensures NamedIntents(after, sp)
  {
    assert forall id :: id in before.data ==> NamedIntent(id, before.data[id], sp);
    forall id | id in after.data ensures NamedIntent(id, after.data[id], sp) {
      assert IntentValid(id, after.data[id], sp);
    }
  }

  /** The event brings neither a glob scope nor a nameless intent. */
  predicate HasSlots(event: Event) {
    !AsksForGlob(event.payload) && event.eventId != ""
  }

  lemma ApplyIntentIds(regs: Registries, event: Event, revision: nat, now: int, sp: Spelling)
    requires Apply(regs, event, revision, now, sp).Applied?
    ensures forall id :: id in Apply(regs, event, revision, now, sp).regs.intents.data ==>
              id in regs.intents.data || id == event.eventId
  {
    hide RenameLocks, DeleteLock, AllEventChanges, IntentChanges, Transition, Report, Acquire, Release, Affects,
         Reclassify, Acceptable;
  }

  lemma ApplyKeepsSlots(regs: Registries, event: Event, revision: nat, now: int, sp: Spelling, ids: set<string>)
    requires Incoming(regs, event, revision, ids, sp) && Slotted(regs, sp) && HasSlots(event)
    requires Apply(regs, event, revision, now, sp).Applied?
    ensures Slotted(Apply(regs, event, revision, now, sp).regs, sp)
  {
    hide Apply, IntentsValid, NoGlobs, LocksValid, PresenceValid;
    ApplyKeepsNoGlobs(regs, event, revision, now, sp);
    ApplyKeeps(regs, event, revision, now, sp, ids);
    ApplyIntentIds(regs, event, revision, now, sp);
    NamesStay(regs.intents, Apply(regs, event, revision, now, sp).regs.intents, sp);
  }

  // ----- Sweeps -----

  lemma {:induction false} StopAllKeeps(presence: PresenceMap, active: seq<PresenceRecord>, next: nat, sp: Spelling)
    requires PresenceValid(presence, sp) && sp.Lawful() && next > 0 && PresenceBounded(presence, next - 1)
    ensures PresenceValid(StopAll(presence, active, next, sp), sp)
    ensures PresenceBounded(StopAll(presence, active, next, sp), next + |active| - 1)
    decreases |active|
  {
    hide PresenceValid, PresenceBounded, Report;
    if active != [] {
      PresenceBoundedMore(presence, next - 1, next);
      ReportKeeps(presence, active[0].member, active[0].path, Stopped, next, sp);
      StopAllKeeps(Report(presence, active[0].member, active[0].path, Stopped, next, sp), active[1..], next + 1, sp);
    }
  }

  /** A device's part of the sweep keeps the state valid. */
  lemma SweepDeviceSound(regs: Registries, deviceId: string, next: nat, ids: set<string>, sp: Spelling)
    requires Sound(regs, next, ids, sp)
    ensures Sound(SweepDevice(regs, deviceId, next, sp).regs, next + |SweepDevice(regs, deviceId, next, sp).changes|,
                  ids, sp)
  {
    hide LocksValid, Bounded, IntentsValid, IntentsBounded, PresenceValid, PresenceBounded,
         ExpireLocks, ExpireIntents, StopAll, OwnedBy, ActiveForDevice, AllIntentChanges;
    var r := SweepDevice(regs, deviceId, next, sp);
    var later := next + |r.changes|;
    var active := ActiveForDevice(regs.presence.keys, regs.presence.data, deviceId);
    ExpireLocksKeep(regs.locks, OfDevice(deviceId), sp, next - 1, ids);
    BoundedMore(r.regs.locks, next - 1, ids, later - 1, ids);
    ExpireIntentsKeeps(regs.intents, deviceId, sp, next - 1, ids);
    IntentsBoundedMore(r.regs.intents, next - 1, ids, later - 1, ids);
    PresenceBoundedMore(regs.presence, next - 1, later - |active| - 1);
    StopAllKeeps(regs.presence, active, later - |active|, sp);
  }

  lemma {:induction false} SweepDevicesSound(regs: Registries, devices: seq<string>, next: nat, ids: set<string>,
                                             sp: Spelling)
    requires Sound(regs, next, ids, sp)
    ensures Sound(SweepDevices(regs, devices, next, sp).regs, next + |SweepDevices(regs, devices, next, sp).changes|,
                  ids, sp)
    decreases |devices|
  {
    hide Sound, SweepDevice;
    if devices != [] {
      var first := SweepDevice(regs, devices[0], next, sp);
      SweepDeviceSound(regs, devices[0], next, ids, sp);
      SweepDevicesSound(first.regs, devices[1..], next + |first.changes|, ids, sp);
    }
  }

  lemma ExpireKeepsNames(intents: IntentMap, deviceId: string, sp: Spelling, bound: nat, ids: set<string>)
    requires IntentsValid(intents, sp) && IntentsBounded(intents, bound, ids) && NamedIntents(intents, sp)
    ensures NamedIntents(ExpireIntents(intents, deviceId), sp)
  {
    hide IntentsValid, NamedIntents;
    ExpireIntentsKeeps(intents, deviceId, sp, bound, ids);
    NamesStay(intents, ExpireIntents(intents, deviceId), sp);
  }

  lemma AgedSound(regs: Registries, cutoff: int, next: nat, later: nat, ids: set<string>, sp: Spelling)
    requires Sound(regs, next, ids, sp) && next <= later
    ensures Sound(regs.(locks := ExpireLocks(regs.locks, SoftBefore(cutoff)).0), later, ids, sp)
  {
    hide LocksValid, Bounded, IntentsValid, IntentsBounded, PresenceValid, PresenceBounded, ExpireLocks;
    ExpireLocksKeep(regs.locks, SoftBefore(cutoff), sp, next - 1, ids);
    BoundedMore(ExpireLocks(regs.locks, SoftBefore(cutoff)).0, next - 1, ids, later - 1, ids);
    IntentsBoundedMore(regs.intents, next - 1, ids, later - 1, ids);
    PresenceBoundedMore(regs.presence, next - 1, later - 1);
  }

  /** A sweep leaves a valid state; every change it announces took one revision. */
  lemma SweepKeeps(regs: Registries, stale: seq<string>, cutoff: int, next: nat, ids: set<string>, sp: Spelling)
    requires Sound(regs, next, ids, sp)
    ensures Sound(Sweep(regs, stale, cutoff, next, sp).regs, next + |Sweep(regs, stale, cutoff, next, sp).changes|, ids,
                  sp)
  {
    hide Sound, SweepDevices;
    var devices := SweepDevices(regs, stale, next, sp);
    SweepDevicesSound(regs, stale, next, ids, sp);
    AgedSound(devices.regs, cutoff, next + |devices.changes|, next + |Sweep(regs, stale, cutoff, next, sp).changes|,
              ids, sp);
  }
}
