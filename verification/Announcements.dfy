/** What the host announces with each event, change by change: nothing is announced that did not
    happen, and nothing that happened is kept back. */
module Announcements {
  import opened Protocol
  import opened Paths
  import opened Locks
  import opened LockProofs
  import opened Intents
  import opened Presences
    import opened Registries
  import opened States
  import opened EntryEffects

  // ----- Locks -----

  /** The lock that a group shows was replaced by this one, or by none. */
  predicate Replaced(before: Option<Lock>, after: Option<Lock>) {
    before != None && (after == None || after.value.lockId != before.value.lockId)
  }

  /** The change tells that a group stopped showing one lock, or started to show another. */
  ghost predicate TellsShift(before: Groups, after: Groups, group: GroupKey, c: Change) {
    var old_, new_ := Holder(before, group), Holder(after, group);
    || (Replaced(old_, new_) && c == Change(LockEntry, Removed, old_.value.scope, old_.value.holder, None))
    || (Replaced(new_, old_) && c == Change(LockEntry, Added, new_.value.scope, new_.value.holder, None))
  }

  lemma TransitionTells(before: Groups, after: Groups, group: GroupKey, c: Change)
    ensures c in Transition(Holder(before, group), Holder(after, group)) <==> TellsShift(before, after, group, c)
  {
  }

  lemma NothingShifts(before: Groups, after: Groups, group: GroupKey, c: Change)
    requires Holder(before, group) == Holder(after, group)
    ensures !TellsShift(before, after, group, c)
  {
  }

  /** Only these two groups may show another lock. */
  lemma OnlyTheseShift(before: Groups, after: Groups, from: GroupKey, to: GroupKey, c: Change)
    requires forall h :: h != from && h != to ==> Holder(after, h) == Holder(before, h)
    ensures (exists group :: TellsShift(before, after, group, c)) <==>
            TellsShift(before, after, from, c) || TellsShift(before, after, to, c)
  {
    hide TellsShift;
    forall h | h != from && h != to ensures !TellsShift(before, after, h, c) { NothingShifts(before, after, h, c); }
  }

  lemma AcquireTells(regs: Registries, event: Event, scope: string, kind: ScopeKind, mode: LockMode, revision: nat,
                     now: int, audits: seq<Audit>, sp: Spelling, ids: set<string>, c: Change)
    requires Incoming(regs, event, revision, ids, sp)
    ensures var r := AcquireOutcome(regs, event, scope, kind, mode, revision, now, audits, sp);
            c in r.changes <==> exists group :: TellsShift(regs.locks, r.regs.locks, group, c)
  {
    hide LocksValid, Bounded, Holder, TellsShift, Acquire, Transition, IntentsValid, PresenceValid;
    var key := KeyOfScope(scope, kind, sp);
    var request := Lock(event.eventId, scope, kind, mode, event.member, revision, now, false);
    AcquireKeeps(regs.locks, request, sp, ids);
    var after := Acquire(regs.locks, request, sp).groups;
    TransitionTells(regs.locks, after, key, c);
    OnlyTheseShift(regs.locks, after, key, key, c);
  }

  lemma ReleaseTells(groups: Groups, requester: Member, target: ReleaseTarget, sp: Spelling, bound: nat,
                     ids: set<string>, c: Change)
    requires LocksValid(groups, sp) && Bounded(groups, bound, ids)
    requires Release(groups, requester, target, sp).ReleaseOk?
    ensures var r := Release(groups, requester, target, sp);
            c in Transition(Some(r.released), r.promoted) <==> exists group :: TellsShift(groups, r.groups, group, c)
  {
    NamedByRelease(groups, requester, target, sp);
    hide LocksValid, Bounded, Holder, TellsShift, Release, Transition, ReleasedKey;
    ReleaseKeeps(groups, requester, target, sp, bound, ids);
    var key := ReleasedKey(groups, target, sp);
    var after := Release(groups, requester, target, sp).groups;
    TransitionTells(groups, after, key, c);
    OnlyTheseShift(groups, after, key, key, c);
  }

  lemma NamedByRelease(groups: Groups, requester: Member, target: ReleaseTarget, sp: Spelling)
    requires Release(groups, requester, target, sp).ReleaseOk?
    ensures FindGroup(groups.keys, groups.data, target, sp).Some?
  {
  }

  lemma RenameTells(regs: Registries, event: Event, fromPath: string, toPath: string, revision: nat, sp: Spelling,
                    ids: set<string>, c: Change)
    requires Incoming(regs, event, revision, ids, sp)
    ensures var (after, changes) := RenameLocks(regs, event, fromPath, toPath, revision, sp);
            c in changes <==> exists group :: TellsShift(regs.locks, after, group, c)
  {
    hide LocksValid, Bounded, Holder, TellsShift, TransferPath, DropClaim, Transition, IntentsValid, PresenceValid;
    var from, to := KeyOfScope(fromPath, File, sp), KeyOfScope(toPath, File, sp);
    var moved := TransferPath(regs.locks, event.member, fromPath, toPath, revision, sp);
    if moved.Some? {
      TransferKeeps(regs.locks, event.member, fromPath, toPath, revision, sp, ids);
      HeldWhereMoved(regs.locks, event.member, fromPath, toPath, revision, sp);
      DropClaimKeeps(regs.locks, from, event.member.memberId, sp, revision - 1, ids);
      TransitionTells(regs.locks, moved.value, from, c);
      TransitionTells(regs.locks, moved.value, to, c);
      OnlyTheseShift(regs.locks, moved.value, from, to, c);
    } else {
      OnlyTheseShift(regs.locks, regs.locks, from, from, c);
      NothingShifts(regs.locks, regs.locks, from, c);
    }
  }

  lemma HeldWhereMoved(groups: Groups, member: Member, fromPath: string, toPath: string, revision: nat, sp: Spelling)
    requires TransferPath(groups, member, fromPath, toPath, revision, sp).Some?
    ensures Holds(groups, KeyOfScope(fromPath, File, sp), member.memberId)
  {
  }

  lemma DeletionTells(regs: Registries, event: Event, path: string, revision: nat, sp: Spelling, ids: set<string>,
                      c: Change)
    requires Incoming(regs, event, revision, ids, sp)
    ensures var (after, changes) := DeleteLock(regs, event, path, sp);
            c in changes <==> exists group :: TellsShift(regs.locks, after, group, c)
  {
    hide LocksValid, Bounded, Holder, TellsShift, DropClaim, Transition, IntentsValid, PresenceValid;
    var key := KeyOfScope(path, File, sp);
    var (after, _) := DeleteLock(regs, event, path, sp);
    if Holds(regs.locks, key, event.member.memberId) {
      DropClaimKeeps(regs.locks, key, event.member.memberId, sp, revision - 1, ids);
      TransitionTells(regs.locks, after, key, c);
      OnlyTheseShift(regs.locks, after, key, key, c);
    } else {
      OnlyTheseShift(regs.locks, after, key, key, c);
      NothingShifts(regs.locks, after, key, c);
    }
  }

  // ----- Intents -----

  /** The change names the intent, its owner and its description. */
  predicate About(intent: Intent, c: Change) {
    c.member == intent.owner && c.intent == Some(IntentRef(intent.intentId, intent.description))
  }

  /** The paths that an entry of this type stands for: planned modifications, or planned creations. */
  function PathsOf(intent: Intent, entryType: EntryType): seq<string> {
    if entryType == IntentEntry then intent.modifyPaths else if entryType == CreationEntry then intent.createPaths
       else []
  }

  ghost predicate TellsAll(intent: Intent, op: Op, c: Change) {
    About(intent, c) && c.op == op && c.path in PathsOf(intent, c.entryType)
  }

  /** Some listed path has the same normal form. */
  ghost predicate Spelled(paths: seq<string>, path: string, sp: Spelling) {
    exists p :: p in paths && sp.normalize(p) == sp.normalize(path)
  }

  /** What is told of one intent when a file is renamed, created or deleted. */
  ghost predicate TellsPath(intent: Intent, event: PathEvent, sp: Spelling, c: Change) {
    && About(intent, c)
    && match event
       case Renamed(fromPath, toPath) =>
         Spelled(PathsOf(intent, c.entryType), fromPath, sp)
         && ((c.op == Removed && c.path == fromPath) || (c.op == Added && c.path == toPath))
       case Created(path) =>
         c.entryType == CreationEntry && c.op == Removed && c.path == path
         && HasKey(intent.createPaths, sp.Key(path), sp)
       case DeletedBy(path, memberId) =>
         intent.owner.memberId == memberId && c.op == Removed && c.path == path
         && Spelled(PathsOf(intent, c.entryType), path, sp)
  }

  ghost predicate TellsIntent(before: map<string, Intent>, after: map<string, Intent>, event: Event, sp: Spelling,
                              c: Change)
  {
    match event.payload
    case IntentDeclare(_, _, _) => event.eventId in after && TellsAll(after[event.eventId], Added, c)
    case IntentUpdate(id, _, _, _) =>
      id in before && id in after && (TellsAll(before[id], Removed, c) || TellsAll(after[id], Added, c))
    case IntentWithdraw(id) => id in before && TellsAll(before[id], Removed, c)
    case _ =>
      var change := AsPathEvent(event);
      change.Some? && exists id :: id in before && TellsPath(before[id], change.value, sp, c)
  }

  lemma IntentChangesTell(intent: Intent, op: Op, c: Change)
    ensures c in IntentChanges(intent, op) <==> TellsAll(intent, op, c)
    ensures TellsAll(intent, op, c) ==> IsIntentEntry(c.entryType)
  {
    PathChangesTell(intent, IntentEntry, op, intent.modifyPaths, c);
    PathChangesTell(intent, CreationEntry, op, intent.createPaths, c);
  }

  lemma PathChangesTell(intent: Intent, entryType: EntryType, op: Op, paths: seq<string>, c: Change)
    ensures c in PathChanges(intent, entryType, op, paths) <==>
            About(intent, c) && c.entryType == entryType && c.op == op && c.path in paths
  {
    var changes := PathChanges(intent, entryType, op, paths);
    if About(intent, c) && c.entryType == entryType && c.op == op && c.path in paths {
      var i :| 0 <= i < |paths| && paths[i] == c.path;
      assert changes[i] == c;
    }
  }

  lemma EventChangesTell(intent: Intent, event: PathEvent, sp: Spelling, c: Change)
    requires sp.Lawful()
    ensures Affects(intent, event, sp) && c in EventChanges(intent, event, sp) <==>
            TellsPath(intent, event, sp, c)
  {
    var path := match event case Renamed(fromPath, _) => fromPath case Created(p) => p case DeletedBy(p, _) => p;
    SpelledMentions(intent.modifyPaths, path, sp);
    SpelledMentions(intent.createPaths, path, sp);
    hide Mentions, SpelledIn, Spelled, HasKey;
  }

  lemma SpelledMentions(paths: seq<string>, path: string, sp: Spelling)
    requires sp.Lawful()
    ensures Spelled(paths, path, sp) <==> SpelledIn(paths, path, sp)
    ensures Spelled(paths, path, sp) ==> Mentions(paths, sp.Key(path), sp)
    ensures Mentions(paths, sp.Key(path), sp) <==> HasKey(paths, sp.Key(path), sp)
    ensures !Spelled([], path, sp)
  {
    if p :| p in paths && sp.normalize(p) == sp.normalize(path) {
      assert sp.Key(p) == sp.Key(path);
    }
  }

  lemma {:induction false} AllEventChangesTell(keys: seq<string>, data: map<string, Intent>, event: PathEvent,
                                               sp: Spelling, c: Change)
    requires sp.Lawful()
    ensures c in AllEventChanges(keys, data, event, sp) <==>
            exists id :: id in keys && id in data && TellsPath(data[id], event, sp, c)
  {
    hide TellsPath, EventChanges, Affects;
    if keys != [] {
      AllEventChangesTell(keys[1..], data, event, sp, c);
      if keys[0] in data { EventChangesTell(data[keys[0]], event, sp, c); }
      assert forall id :: id in keys <==> id == keys[0] || id in keys[1..];
    }
  }

  /** The intents that an event about a file changes. */
  ghost predicate Concerns(event: PathEvent, intent: Intent, sp: Spelling) {
    match event
    case Renamed(path, _) => HasKey(intent.modifyPaths + intent.createPaths, sp.Key(path), sp)
    case Created(path) => HasKey(intent.createPaths, sp.Key(path), sp)
    case DeletedBy(path, memberId) =>
      intent.owner.memberId == memberId && HasKey(intent.modifyPaths + intent.createPaths, sp.Key(path), sp)
  }

  lemma AffectsIff(intent: Intent, event: PathEvent, sp: Spelling)
    ensures Affects(intent, event, sp) <==> Concerns(event, intent, sp)
  {
    forall key ensures HasKey(intent.modifyPaths + intent.createPaths, key, sp) <==>
                       Mentions(intent.modifyPaths, key, sp) || Mentions(intent.createPaths, key, sp)
    {
      assert forall p :: p in intent.modifyPaths + intent.createPaths <==>
               p in intent.modifyPaths || p in intent.createPaths;
    }
    assert forall key :: HasKey(intent.createPaths, key, sp) <==> Mentions(intent.createPaths, key, sp);
  }

  /** An operation on files returns the intents that it concerns, in their new form, and no others. */
  lemma {:induction false} AffectedIff(keys: seq<string>, data: map<string, Intent>, event: PathEvent, sp: Spelling,
                                       changed: Intent)
    ensures changed in Affected(keys, data, event, sp) <==>
            exists id ::
              id in keys && id in data && Concerns(event, data[id], sp) && changed == AfterEvent(data[id], event, sp)
  {
    hide Affects, Concerns, AfterEvent;
    if keys != [] {
      AffectedIff(keys[1..], data, event, sp, changed);
      if keys[0] in data { AffectsIff(data[keys[0]], event, sp); }
      assert forall id :: id in keys <==> id == keys[0] || id in keys[1..];
    }
  }

  // ----- Every event -----

  /** What has to be announced: the locks that scopes stopped or started to show, the report of
      presence, and the paths of intents that came or went. */
  ghost predicate Tells(before: Registries, after: Registries, event: Event, sp: Spelling, c: Change) {
    match c.entryType
    case LockEntry => exists group :: TellsShift(before.locks, after.locks, group, c)
    case PresenceEntry =>
      event.payload.PresenceReport?
      && c == Change(PresenceEntry, if event.payload.state == Stopped then Removed else Added, event.payload.path,
                     event.member, None)
    case _ => TellsIntent(before.intents.data, after.intents.data, event, sp, c)
  }

  lemma NothingTold(regs: Registries, intents: IntentMap, event: PathEvent, sp: Spelling, c: Change)
    requires sp.Lawful() && intents.Valid()
    ensures c in AllEventChanges(intents.keys, intents.data, event, sp) ==> IsIntentEntry(c.entryType)
    ensures c in AllEventChanges(intents.keys, intents.data, event, sp) <==>
            exists id :: id in intents.data && TellsPath(intents.data[id], event, sp, c)
  {
    AllEventChangesTell(intents.keys, intents.data, event, sp, c);
    assert forall id :: id in intents.keys <==> id in intents.data;
    forall id | id in intents.data && TellsPath(intents.data[id], event, sp, c) ensures IsIntentEntry(c.entryType) {
      IntentTypes(intents.data[id], event, sp, c);
    }
  }

  lemma IntentTypes(intent: Intent, event: PathEvent, sp: Spelling, c: Change)
    requires TellsPath(intent, event, sp, c)
    ensures IsIntentEntry(c.entryType)
  {
  }

  lemma SoundParts(regs: Registries, event: Event, revision: nat, ids: set<string>, sp: Spelling)
    requires Incoming(regs, event, revision, ids, sp)
    ensures sp.Lawful() && regs.intents.Valid() && LocksValid(regs.locks, sp) && Bounded(regs.locks, revision - 1, ids)
  {
    hide LocksValid, Bounded, PresenceValid;
  }

  /** What has to be told of an event about a lock. */
  lemma TellsOfLock(before: Registries, after: Registries, event: Event, sp: Spelling, c: Change)
    requires event.payload.LockAcquire? || event.payload.LockOverride? || event.payload.LockRelease?
    ensures Tells(before, after, event, sp, c) <==> exists group :: TellsShift(before.locks, after.locks, group, c)
  {
    ShiftsAreLocks(before.locks, after.locks, c);
    hide TellsShift;
  }

  lemma LockEventAnnounces(regs: Registries, event: Event, revision: nat, now: int, sp: Spelling, ids: set<string>,
                           c: Change)
    requires event.payload.LockAcquire? || event.payload.LockOverride? || event.payload.LockRelease?
    requires Incoming(regs, event, revision, ids, sp) && Apply(regs, event, revision, now, sp).Applied?
    ensures var r := Apply(regs, event, revision, now, sp);
            c in r.changes <==> Tells(regs, r.regs, event, sp, c)
  {
    SoundParts(regs, event, revision, ids, sp);
    TellsOfLock(regs, Apply(regs, event, revision, now, sp).regs, event, sp, c);
    hide Tells, LocksValid, Bounded, Incoming, AcquireOutcome, Release, Transition, TellsShift, IsBlank;
    match event.payload
    case LockRelease(target) => ReleaseTells(regs.locks, event.member, target, sp, revision - 1, ids, c);
    case LockAcquire(scope, kind, mode) => AcquireTells(regs, event, scope, kind, mode, revision, now, [], sp, ids, c);
    case LockOverride(scope, kind, mode, _) =>
      AcquireTells(regs, event, scope, kind, mode, revision, now,
                   [Audit(event.member, OverrideAction, scope, revision)],
                   sp, ids, c);
    case _ =>
  }

  function LockPart(regs: Registries, event: Event, revision: nat, sp: Spelling): (Groups, seq<Change>) {
    match event.payload
    case PathRenamed(fromPath, toPath) => RenameLocks(regs, event, fromPath, toPath, revision, sp)
    case PathDeleted(path) => DeleteLock(regs, event, path, sp)
    case _ => (regs.locks, [])
  }

  /** The two parts of what is announced with an event about a file. */
  lemma FileEventParts(regs: Registries, event: Event, revision: nat, now: int, sp: Spelling)
    requires AsPathEvent(event).Some?
    ensures var r := Apply(regs, event, revision, now, sp); var change := AsPathEvent(event).value;
            var locks := LockPart(regs, event, revision, sp);
            && r.Applied? && r.regs.locks == locks.0
            && r.changes == locks.1 + AllEventChanges(regs.intents.keys, regs.intents.data, change, sp)
  {
    hide RenameLocks, DeleteLock, AllEventChanges, AllAfter;
    var changes := Apply(regs, event, revision, now, sp).changes;
    assert [] + changes == changes;
  }

  lemma LockPartTells(regs: Registries, event: Event, revision: nat, sp: Spelling, ids: set<string>, c: Change)
    requires Incoming(regs, event, revision, ids, sp)
    ensures var (after, changes) := LockPart(regs, event, revision, sp);
            && (c in changes <==> exists group :: TellsShift(regs.locks, after, group, c))
            && (c in changes ==> c.entryType == LockEntry)
  {
    hide Incoming, RenameLocks, DeleteLock, TellsShift;
    match event.payload
    case PathRenamed(fromPath, toPath) =>
      RenameTells(regs, event, fromPath, toPath, revision, sp, ids, c);
      RenameTellsLocks(regs, event, fromPath, toPath, revision, sp, c);
    case PathDeleted(path) =>
      DeletionTells(regs, event, path, revision, sp, ids, c);
      DeletionTellsLocks(regs, event, path, sp, c);
    case _ => NoShift(regs.locks, c);
  }

  lemma ShiftsAreLocks(before: Groups, after: Groups, c: Change)
    ensures forall group :: TellsShift(before, after, group, c) ==> c.entryType == LockEntry
  {
  }

  /** What has to be told of an event about a file. */
  lemma TellsOfFile(before: Registries, after: Registries, event: Event, sp: Spelling, c: Change)
    requires AsPathEvent(event).Some?
    ensures Tells(before, after, event, sp, c) <==>
            || (exists group :: TellsShift(before.locks, after.locks, group, c))
            || exists id ::
                 id in before.intents.data && TellsPath(before.intents.data[id], AsPathEvent(event).value, sp, c)
  {
    ShiftsAreLocks(before.locks, after.locks, c);
    forall id | id in before.intents.data && TellsPath(before.intents.data[id], AsPathEvent(event).value, sp, c)
      ensures IsIntentEntry(c.entryType)
    {
      IntentTypes(before.intents.data[id], AsPathEvent(event).value, sp, c);
    }
    hide TellsShift, TellsPath;
  }

  lemma FileEventAnnounces(regs: Registries, event: Event, revision: nat, now: int, sp: Spelling, ids: set<string>,
                           c: Change)
    requires AsPathEvent(event).Some? && Incoming(regs, event, revision, ids, sp)
    ensures var r := Apply(regs, event, revision, now, sp);
            r.Applied? && (c in r.changes <==> Tells(regs, r.regs, event, sp, c))
  {
    SoundParts(regs, event, revision, ids, sp);
    hide Apply, Tells, LocksValid, Bounded, Incoming, LockPart, TellsShift, AllEventChanges, TellsPath;
    FileEventParts(regs, event, revision, now, sp);
    LockPartTells(regs, event, revision, sp, ids, c);
    NothingTold(regs, regs.intents, AsPathEvent(event).value, sp, c);
    TellsOfFile(regs, Apply(regs, event, revision, now, sp).regs, event, sp, c);
  }

  lemma NoShift(groups: Groups, c: Change)
    ensures !exists group :: TellsShift(groups, groups, group, c)
  {
    forall group ensures !TellsShift(groups, groups, group, c) { NothingShifts(groups, groups, group, c); }
  }

  lemma RenameTellsLocks(regs: Registries, event: Event, fromPath: string, toPath: string, revision: nat, sp: Spelling,
                         c: Change)
    ensures c in RenameLocks(regs, event, fromPath, toPath, revision, sp).1 ==> c.entryType == LockEntry
  {
    hide TransferPath, Holder;
  }

  lemma DeletionTellsLocks(regs: Registries, event: Event, path: string, sp: Spelling, c: Change)
    ensures c in DeleteLock(regs, event, path, sp).1 ==> c.entryType == LockEntry
  {
    hide ReleaseOnDelete, Holder;
  }

  lemma OtherEventAnnounces(regs: Registries, event: Event, revision: nat, now: int, sp: Spelling, ids: set<string>,
                            c: Change)
    requires event.payload.PresenceReport? || event.payload.Other? || AboutIntents(event.payload)
    requires Incoming(regs, event, revision, ids, sp) && Apply(regs, event, revision, now, sp).Applied?
    ensures var r := Apply(regs, event, revision, now, sp);
            c in r.changes <==> Tells(regs, r.regs, event, sp, c)
  {
    NoShift(regs.locks, c);
    hide LocksValid, Bounded, Incoming, TellsShift, IntentChanges, TellsAll, Reclassify, Report;
    var after := Apply(regs, event, revision, now, sp).regs.intents.data;
    match event.payload
    case IntentDeclare(_, _, _) => IntentChangesTell(after[event.eventId], Added, c);
    case IntentUpdate(id, _, _, _) =>
      IntentChangesTell(regs.intents.data[id], Removed, c);
      IntentChangesTell(after[id], Added, c);
    case IntentWithdraw(id) => IntentChangesTell(regs.intents.data[id], Removed, c);
    case _ =>
  }

  /** A change is announced with an applied event if and only if it has to be. */
  lemma EventAnnouncesIff(regs: Registries, event: Event, revision: nat, now: int, sp: Spelling, ids: set<string>,
                          c: Change)
    requires Incoming(regs, event, revision, ids, sp) && Apply(regs, event, revision, now, sp).Applied?
    ensures var r := Apply(regs, event, revision, now, sp);
            c in r.changes <==> Tells(regs, r.regs, event, sp, c)
  {
    hide Apply, Tells, Incoming;
    match event.payload
    case LockAcquire(_, _, _) => LockEventAnnounces(regs, event, revision, now, sp, ids, c);
    case LockOverride(_, _, _, _) => LockEventAnnounces(regs, event, revision, now, sp, ids, c);
    case LockRelease(_) => LockEventAnnounces(regs, event, revision, now, sp, ids, c);
    case PathRenamed(_, _) => FileEventAnnounces(regs, event, revision, now, sp, ids, c);
    case PathDeleted(_) => FileEventAnnounces(regs, event, revision, now, sp, ids, c);
    case FileCreated(_) => FileEventAnnounces(regs, event, revision, now, sp, ids, c);
    case _ => OtherEventAnnounces(regs, event, revision, now, sp, ids, c);
  }
}
