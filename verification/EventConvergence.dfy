/** One applied event: it keeps the state valid, and what it announces carries the
    projection of the old state to that of the new one exactly when the event is
    one the caches can follow. */
module EventConvergence {
  import opened Protocol
  import opened Paths
  import opened Locks
  import opened LockProofs
  import opened Intents
  import opened Presences
  import opened Cache
  import opened Registries
  import opened States
  import opened Convergence

  /** The caches can follow the event. On hosts that match paths by spelling only a
      presence report of a member's second device on one path fails this. */
  ghost predicate Announced(regs: Registries, event: Event, sp: Spelling) {
    match event.payload
    case PresenceReport(path, _) => SameSlot(regs.presence, event.member, path, sp)
    case PathRenamed(fromPath, toPath) =>
      !RespelledByRename(regs.locks, event.member.memberId, fromPath, toPath, sp)
      && AllAgree(regs.intents, Renamed(fromPath, toPath), sp)
    case PathDeleted(path) => AllAgree(regs.intents, DeletedBy(path, event.member.memberId), sp)
    case FileCreated(path) => AllAgree(regs.intents, Created(path), sp)
    case _ => true
  }

  // ----- Changes of one kind of entry -----

  ghost predicate CarriesTypes(changes: seq<Change>, before: Registries, after: Registries, types: set<EntryType>,
                               sp: Spelling)
  {
    forall key: EntryKey :: key.entryType in types ==>
      Net(changes, key, sp).On(Shown(before, key, sp)) == Shown(after, key, sp)
  }

  const INTENTS := {IntentEntry, CreationEntry}

  /** Changes of some types carry the projection if they carry those slots and the
      state of the other types stays. */
  lemma OnlyTypes(changes: seq<Change>, before: Registries, after: Registries, types: set<EntryType>, sp: Spelling)
    requires OfTypes(changes, types) && CarriesTypes(changes, before, after, types, sp)
    requires LockEntry in types || after.locks == before.locks
    requires PresenceEntry in types || after.presence == before.presence
    requires INTENTS <= types || after.intents == before.intents
    ensures Carries(changes, before, after, sp)
  {
    forall key
      ensures Net(changes, key, sp).On(Shown(before, key, sp)) == Shown(after, key, sp)
    {
      if key.entryType !in types {
        OtherTypesNet(changes, types, key, sp);
        assert key.entryType in INTENTS || key.entryType == LockEntry || key.entryType == PresenceEntry;
      }
    }
  }

  lemma TransitionTypes(previous: Option<Lock>, next: Option<Lock>)
    ensures OfTypes(Transition(previous, next), {LockEntry})
  {
  }

  lemma IntentTypes(intent: Intent, op: Op)
    ensures OfTypes(IntentChanges(intent, op), INTENTS)
  {
  }

  lemma {:induction false} EventTypes(keys: seq<string>, data: map<string, Intent>, event: PathEvent, sp: Spelling)
    ensures OfTypes(AllEventChanges(keys, data, event, sp), INTENTS)
  {
    hide Affects;
    if keys != [] {
      EventTypes(keys[1..], data, event, sp);
    }
  }

  // ----- Locks -----

  lemma TransitionCarriesAll(regs: Registries, groups: Groups, group: GroupKey, sp: Spelling)
    requires LocksValid(regs.locks, sp) && LocksValid(groups, sp) && group.PathGroup?
    requires forall h :: h != group ==> Holder(groups, h) == Holder(regs.locks, h)
    requires !Respelled(Holder(regs.locks, group), Holder(groups, group), sp)
    ensures Carries(Transition(Holder(regs.locks, group), Holder(groups, group)), regs, regs.(locks := groups), sp)
  {
    hide LocksValid, Holder, Net, ShownLock, Transition, Respelled, GroupOfSlot;
    var changes := Transition(Holder(regs.locks, group), Holder(groups, group));
    TransitionTypes(Holder(regs.locks, group), Holder(groups, group));
    forall key: EntryKey | key.entryType == LockEntry
      ensures Net(changes, key, sp).On(ShownLock(regs.locks, key, sp)) == ShownLock(groups, key, sp)
    {
      OneGroupCarries(regs.locks, groups, group, key, sp);
    }
    OnlyTypes(changes, regs, regs.(locks := groups), {LockEntry}, sp);
  }

  /** Acquisitions and overrides. */
  lemma AcquireEvent(regs: Registries, event: Event, scope: string, kind: ScopeKind, mode: LockMode, revision: nat,
                     now: int,
                     audits: seq<Audit>, sp: Spelling, ids: set<string>)
    requires Ready(regs, revision, ids, sp) && event.eventId !in ids && !kind.Glob?
    ensures var r := AcquireOutcome(regs, event, scope, kind, mode, revision, now, audits, sp);
            Carries(r.changes, regs, r.regs, sp)
  {
    hide LocksValid, Bounded, Holder, Transition, Carries, Respelled, NamedIntents, PresenceValid;
    var key := KeyOfScope(scope, kind, sp);
    var request := Lock(event.eventId, scope, kind, mode, event.member, revision, now, false);
    var acquired := Acquire(regs.locks, request, sp);
    AcquireKeeps(regs.locks, request, sp, ids);
    AcquiredNotRespelled(regs.locks, acquired, key, request, sp);
    assert Some(acquired.winner) == Holder(acquired.groups, key);
    TransitionCarriesAll(regs, acquired.groups, key, sp);
  }

  lemma AcquiredNotRespelled(groups: Groups, acquired: Acquired, key: GroupKey, request: Lock, sp: Spelling)
    requires Holder(acquired.groups, key) == Some(acquired.winner)
    requires acquired.winner == Holder(groups, key).GetOr(request)
    ensures !Respelled(Holder(groups, key), Holder(acquired.groups, key), sp)
  {
  }

  /** Releases. */
  lemma ReleaseEvent(regs: Registries, event: Event, target: ReleaseTarget, revision: nat, sp: Spelling,
                     ids: set<string>)
    requires Ready(regs, revision, ids, sp) && Release(regs.locks, event.member, target, sp).ReleaseOk?
    ensures var r := Release(regs.locks, event.member, target, sp);
            Carries(Transition(Some(r.released), r.promoted), regs, regs.(locks := r.groups), sp)
  {
    hide LocksValid, Bounded, Holder, Transition, Carries, FindGroup, NamedIntents, PresenceValid;
    var r := Release(regs.locks, event.member, target, sp);
    var key := ReleasedKey(regs.locks, target, sp);
    ReleaseKeeps(regs.locks, event.member, target, sp, revision - 1, ids);
    TransitionCarriesAll(regs, r.groups, key, sp);
  }

  /** A deleted file: the member's claim on it is dropped. */
  lemma DeleteLockEvent(regs: Registries, event: Event, path: string, revision: nat, sp: Spelling, ids: set<string>)
    requires Ready(regs, revision, ids, sp)
    ensures var r := DeleteLock(regs, event, path, sp);
            && OfTypes(r.1, {LockEntry})
            && Carries(r.1, regs, regs.(locks := r.0), sp)
  {
    hide LocksValid, Bounded, Holder, Transition, Carries, NamedIntents, PresenceValid, DropClaim;
    var key := KeyOfScope(path, File, sp);
    var memberId := event.member.memberId;
    if Holds(regs.locks, key, memberId) {
      var after := DropClaim(regs.locks, key, memberId);
      DropClaimKeeps(regs.locks, key, memberId, sp, revision - 1, ids);
      NotRespelled(Holder(regs.locks, key), Holder(after, key), sp);
      TransitionTypes(Holder(regs.locks, key), Holder(after, key));
      TransitionCarriesAll(regs, after, key, sp);
    } else {
      NothingCarries(regs, sp);
    }
  }

  lemma NothingCarries(regs: Registries, sp: Spelling)
    ensures Carries([], regs, regs, sp)
  {
  }

  lemma RenameLockTypes(regs: Registries, event: Event, fromPath: string, toPath: string, revision: nat, sp: Spelling)
    ensures OfTypes(RenameLocks(regs, event, fromPath, toPath, revision, sp).1, {LockEntry})
  {
    hide Transition, Holder, TransferPath;
    var from, to := KeyOfScope(fromPath, File, sp), KeyOfScope(toPath, File, sp);
    var moved := TransferPath(regs.locks, event.member, fromPath, toPath, revision, sp);
    if moved.Some? {
      TransitionTypes(Holder(regs.locks, from), Holder(moved.value, from));
      TransitionTypes(Holder(regs.locks, to), Holder(moved.value, to));
    }
  }

  /** A renamed file: the member's claim moves with it. */
  lemma RenameLockEvent(regs: Registries, event: Event, fromPath: string, toPath: string, revision: nat, sp: Spelling,
                        ids: set<string>)
    requires Ready(regs, revision, ids, sp)
             && !RespelledByRename(regs.locks, event.member.memberId, fromPath, toPath, sp)
    ensures var r := RenameLocks(regs, event, fromPath, toPath, revision, sp);
            CarriesTypes(r.1, regs, regs.(locks := r.0), {LockEntry}, sp)
  {
    hide LocksValid, Bounded, NamedIntents, PresenceValid, RespelledByRename, Net, ShownLock, RenameLocks;
    var r := RenameLocks(regs, event, fromPath, toPath, revision, sp);
    forall key: EntryKey | key.entryType == LockEntry
      ensures Net(r.1, key, sp).On(ShownLock(regs.locks, key, sp)) == ShownLock(r.0, key, sp)
    {
      RenameLocksCarries(regs, event, fromPath, toPath, revision, sp, ids, key);
    }
  }

  // ----- Intents -----

  lemma EveryIntentNamed(intents: IntentMap, sp: Spelling)
    requires NamedIntents(intents, sp)
    ensures "" !in intents.data
  {
    assert forall id :: id in intents.data ==> NamedIntent(id, intents.data[id], sp);
  }

  lemma UnnamedSlots(changes: seq<Change>, before: IntentMap, after: IntentMap, key: EntryKey, sp: Spelling)
    requires NamedIntents(before, sp) && NamedIntents(after, sp) && NamedIntentChanges(changes)
    requires IsIntentEntry(key.entryType) && key.intentId == ""
    ensures Net(changes, key, sp).On(ShownIntent(before, key)) == ShownIntent(after, key)
  {
    UnnamedNet(changes, key, sp);
    EveryIntentNamed(before, sp);
    EveryIntentNamed(after, sp);
  }

  lemma IntentChangesNamed(intent: Intent, op: Op)
    requires intent.intentId != ""
    ensures NamedIntentChanges(IntentChanges(intent, op))
  {
  }

  lemma IntentsOnly(regs: Registries, intents: IntentMap, changes: seq<Change>, sp: Spelling)
    requires OfTypes(changes, INTENTS)
    requires forall key: EntryKey :: IsIntentEntry(key.entryType) ==>
               Net(changes, key, sp).On(ShownIntent(regs.intents, key)) == ShownIntent(intents, key)
    ensures Carries(changes, regs, regs.(intents := intents), sp)
  {
    hide Net, ShownIntent, ShownLock, ShownPresence;
    OnlyTypes(changes, regs, regs.(intents := intents), INTENTS, sp);
  }

  lemma DeclareEvent(regs: Registries, intent: Intent, sp: Spelling)
    requires NamedIntents(regs.intents, sp) && NamedIntents(regs.intents.Set(intent.intentId, intent), sp)
    requires intent.intentId !in regs.intents.data
    ensures Carries(IntentChanges(intent, Added), regs, regs.(intents := regs.intents.Set(intent.intentId, intent)), sp)
  {
    hide Net, ShownIntent, Carries, NamedIntents, IntentChanges;
    var after := regs.intents.Set(intent.intentId, intent);
    IntentIsValid(after, intent.intentId, sp);
    IntentTypes(intent, Added);
    IntentChangesNamed(intent, Added);
    forall key: EntryKey | IsIntentEntry(key.entryType)
      ensures Net(IntentChanges(intent, Added), key, sp).On(ShownIntent(regs.intents, key)) == ShownIntent(after, key)
    {
      if key.intentId == "" {
        UnnamedSlots(IntentChanges(intent, Added), regs.intents, after, key, sp);
      } else {
        DeclaredCarries(regs.intents, intent, key, sp);
      }
    }
    IntentsOnly(regs, after, IntentChanges(intent, Added), sp);
  }

  lemma IntentIsValid(intents: IntentMap, id: string, sp: Spelling)
    requires NamedIntents(intents, sp) && id in intents.data
    ensures NamedIntent(id, intents.data[id], sp)
  {
  }

  lemma UpdateEvent(regs: Registries, intent: Intent, sp: Spelling)
    requires NamedIntents(regs.intents, sp) && NamedIntents(regs.intents.Set(intent.intentId, intent), sp)
    requires intent.intentId in regs.intents.data && regs.intents.data[intent.intentId].owner == intent.owner
    ensures Carries(IntentChanges(regs.intents.data[intent.intentId], Removed) + IntentChanges(intent, Added), regs,
                    regs.(intents := regs.intents.Set(intent.intentId, intent)), sp)
  {
    hide Net, ShownIntent, Carries, NamedIntents, IntentChanges;
    var stored := regs.intents.data[intent.intentId];
    var after := regs.intents.Set(intent.intentId, intent);
    var changes := IntentChanges(stored, Removed) + IntentChanges(intent, Added);
    IntentIsValid(regs.intents, intent.intentId, sp);
    IntentIsValid(after, intent.intentId, sp);
    IntentTypes(stored, Removed);
    IntentTypes(intent, Added);
    IntentChangesNamed(stored, Removed);
    IntentChangesNamed(intent, Added);
    forall key: EntryKey | IsIntentEntry(key.entryType)
      ensures Net(changes, key, sp).On(ShownIntent(regs.intents, key)) == ShownIntent(after, key)
    {
      if key.intentId == "" {
        UnnamedSlots(changes, regs.intents, after, key, sp);
      } else {
        UpdatedCarries(regs.intents, intent, key, sp);
      }
    }
    IntentsOnly(regs, after, changes, sp);
  }

  lemma WithdrawEvent(regs: Registries, id: string, sp: Spelling)
    requires NamedIntents(regs.intents, sp) && id in regs.intents.data
    ensures Carries(IntentChanges(regs.intents.data[id], Removed), regs, regs.(intents := regs.intents.Delete(id)), sp)
  {
    assert forall k :: k in regs.intents.data ==> NamedIntent(k, regs.intents.data[k], sp);
    hide Net, ShownIntent, Carries, IntentChanges;
    var stored := regs.intents.data[id];
    var after := regs.intents.Delete(id);
    IntentTypes(stored, Removed);
    IntentChangesNamed(stored, Removed);
    forall key: EntryKey | IsIntentEntry(key.entryType)
      ensures Net(IntentChanges(stored, Removed), key, sp).On(ShownIntent(regs.intents, key)) == ShownIntent(after, key)
    {
      if key.intentId == "" {
        UnnamedSlots(IntentChanges(stored, Removed), regs.intents, after, key, sp);
      } else {
        WithdrawnCarries(regs.intents, id, key, sp);
      }
    }
    IntentsOnly(regs, after, IntentChanges(stored, Removed), sp);
  }

  // ----- Path events: locks and intents together -----

  /** Lock changes followed by intent changes: each slot sees its own part. */
  lemma TwoParts(lockPart: seq<Change>, intentPart: seq<Change>, key: EntryKey, sp: Spelling)
    requires OfTypes(lockPart, {LockEntry}) && OfTypes(intentPart, INTENTS)
    ensures Net(lockPart + intentPart, key, sp) ==
            if key.entryType == LockEntry then Net(lockPart, key, sp)
            else if IsIntentEntry(key.entryType) then Net(intentPart, key, sp) else Untouched
  {
    hide Net;
    NetConcat(lockPart, intentPart, key, sp);
    if key.entryType != LockEntry { OtherTypesNet(lockPart, {LockEntry}, key, sp); }
    if !IsIntentEntry(key.entryType) { OtherTypesNet(intentPart, INTENTS, key, sp); }
  }

  ghost predicate IntentPartCarries(intents: IntentMap, event: PathEvent, sp: Spelling) {
    forall key: EntryKey :: IsIntentEntry(key.entryType) ==>
      Net(AllEventChanges(intents.keys, intents.data, event, sp), key, sp).On(ShownIntent(intents, key)) ==
      ShownIntent(AllAfter(intents, event, sp), key)
  }

  lemma IntentPartIff(intents: IntentMap, event: PathEvent, sp: Spelling)
    requires sp.Lawful() && NamedIntents(intents, sp)
    ensures IntentPartCarries(intents, event, sp) <==> AllAgree(intents, event, sp)
  {
    hide Net, ShownIntent, AllAfter, AllEventChanges;
    if AllAgree(intents, event, sp) {
      forall key: EntryKey | IsIntentEntry(key.entryType)
        ensures Net(AllEventChanges(intents.keys, intents.data, event, sp), key, sp).On(ShownIntent(intents, key)) ==
                ShownIntent(AllAfter(intents, event, sp), key)
      {
        EventCarries(intents, event, key, sp);
      }
    } else {
      var key := EventBreaks(intents, event, sp);
    }
  }

  /** Both parts carry if and only if the whole does. */
  lemma PathEventIff(regs: Registries, groups: Groups, lockPart: seq<Change>, event: PathEvent, sp: Spelling)
    requires sp.Lawful() && NamedIntents(regs.intents, sp) && OfTypes(lockPart, {LockEntry})
    ensures Carries(lockPart + AllEventChanges(regs.intents.keys, regs.intents.data, event, sp), regs,
                    IntentsAfter(regs, event, sp).(locks := groups), sp)
            <==>
            CarriesTypes(lockPart, regs, regs.(locks := groups), {LockEntry}, sp) && AllAgree(regs.intents, event, sp)
  {
    hide Net, ShownIntent, ShownLock, ShownPresence, AllAfter, AllEventChanges, AllAgree, NamedIntents, OfTypes,
         Affects;
    var intentPart := AllEventChanges(regs.intents.keys, regs.intents.data, event, sp);
    var after := IntentsAfter(regs, event, sp).(locks := groups);
    EventTypes(regs.intents.keys, regs.intents.data, event, sp);
    IntentPartIff(regs.intents, event, sp);
    forall key
      ensures Net(lockPart + intentPart, key, sp) ==
              if key.entryType == LockEntry then Net(lockPart, key, sp)
              else if IsIntentEntry(key.entryType) then Net(intentPart, key, sp) else Untouched
    {
      TwoParts(lockPart, intentPart, key, sp);
    }
    PartsSplit(lockPart, intentPart, regs, after, sp);
  }

  lemma PartsSplit(lockPart: seq<Change>, intentPart: seq<Change>, regs: Registries, after: Registries, sp: Spelling)
    requires after.presence == regs.presence
    requires forall key :: Net(lockPart + intentPart, key, sp) ==
               if key.entryType == LockEntry then Net(lockPart, key, sp)
               else if IsIntentEntry(key.entryType) then Net(intentPart, key, sp) else Untouched
    ensures Carries(lockPart + intentPart, regs, after, sp) <==>
            && CarriesTypes(lockPart, regs, regs.(locks := after.locks), {LockEntry}, sp)
            && (forall key: EntryKey :: IsIntentEntry(key.entryType) ==>
                 Net(intentPart, key, sp).On(ShownIntent(regs.intents, key)) == ShownIntent(after.intents, key))
  {
    hide Net, ShownIntent, ShownLock, ShownPresence;
    var all := lockPart + intentPart;
    if Carries(all, regs, after, sp) {
      forall key: EntryKey | key.entryType == LockEntry
        ensures Net(lockPart, key, sp).On(ShownLock(regs.locks, key, sp)) == ShownLock(after.locks, key, sp)
      {
        assert Net(all, key, sp).On(Shown(regs, key, sp)) == Shown(after, key, sp);
      }
      forall key: EntryKey | IsIntentEntry(key.entryType)
        ensures Net(intentPart, key, sp).On(ShownIntent(regs.intents, key)) == ShownIntent(after.intents, key)
      {
        assert Net(all, key, sp).On(Shown(regs, key, sp)) == Shown(after, key, sp);
      }
    }
    if CarriesTypes(lockPart, regs, regs.(locks := after.locks), {LockEntry}, sp)
       && (forall key: EntryKey :: IsIntentEntry(key.entryType) ==>
             Net(intentPart, key, sp).On(ShownIntent(regs.intents, key)) == ShownIntent(after.intents, key)) {
      forall key
        ensures Net(all, key, sp).On(Shown(regs, key, sp)) == Shown(after, key, sp)
      {
        if key.entryType == LockEntry {
          assert Net(lockPart, key, sp).On(Shown(regs, key, sp)) == Shown(regs.(locks := after.locks), key, sp);
        }
      }
    }
  }

  // ----- One event -----

  /** Announcing a report, exactly. */
  lemma ReportIff(regs: Registries, member: Member, path: string, state: PresenceState, revision: nat, sp: Spelling)
    requires sp.Lawful() && PresenceValid(regs.presence, sp) && PresenceBounded(regs.presence, revision)
    ensures Carries([PresenceChange(member, path, if state.Stopped? then Removed else Added)], regs,
                    regs.(presence := Report(regs.presence, member, path, state, revision, sp)), sp)
            <==> SameSlot(regs.presence, member, path, sp)
  {
    hide Net, ShownIntent, ShownLock, ShownPresence, PresenceValid, PresenceBounded, Report, SameSlot;
    var changes := [PresenceChange(member, path, if state.Stopped? then Removed else Added)];
    var after := regs.(presence := Report(regs.presence, member, path, state, revision, sp));
    if SameSlot(regs.presence, member, path, sp) {
      forall key: EntryKey | key.entryType == PresenceEntry
        ensures Net(changes, key, sp).On(ShownPresence(regs.presence, key, sp)) ==
                ShownPresence(after.presence, key, sp)
      {
        ReportCarries(regs.presence, member, path, state, revision, sp, key);
      }
      OnlyTypes(changes, regs, after, {PresenceEntry}, sp);
    } else {
      var key := SecondDeviceIsKept(regs.presence, member, path, state, revision, sp);
      assert Net(changes, key, sp).On(Shown(regs, key, sp)) != Shown(after, key, sp);
    }
  }

  /** Announcing a rename, exactly. */
  lemma RenameIff(regs: Registries, event: Event, fromPath: string, toPath: string, revision: nat, sp: Spelling,
                  ids: set<string>)
    requires Ready(regs, revision, ids, sp)
    ensures var locks := RenameLocks(regs, event, fromPath, toPath, revision, sp);
            var change := Renamed(fromPath, toPath);
            Carries(locks.1 + AllEventChanges(regs.intents.keys, regs.intents.data, change, sp), regs,
                    IntentsAfter(regs, change, sp).(locks := locks.0), sp)
            <==>
            && !RespelledByRename(regs.locks, event.member.memberId, fromPath, toPath, sp)
            && AllAgree(regs.intents, change, sp)
  {
    hide RenameLocks, Net, ShownLock, Carries, AllAgree, AllEventChanges, AllAfter, OfTypes, RespelledByRename,
         LocksValid, Bounded;
    var locks := RenameLocks(regs, event, fromPath, toPath, revision, sp);
    RenameLockTypes(regs, event, fromPath, toPath, revision, sp);
    PathEventIff(regs, locks.0, locks.1, Renamed(fromPath, toPath), sp);
    if RespelledByRename(regs.locks, event.member.memberId, fromPath, toPath, sp) {
      var key := RespelledIsLost(regs, event, fromPath, toPath, revision, sp, ids);
    } else {
      RenameLockEvent(regs, event, fromPath, toPath, revision, sp, ids);
    }
  }

  /** The announcement of an applied event takes every cache from the projection of
      the old state to that of the new one if and only if the caches can follow it. */
  lemma ApplyCarriesIff(regs: Registries, event: Event, revision: nat, now: int, sp: Spelling, ids: set<string>)
    requires Incoming(regs, event, revision, ids, sp) && Slotted(regs, sp) && HasSlots(event)
    requires Apply(regs, event, revision, now, sp).Applied?
    ensures Carries(Apply(regs, event, revision, now, sp).changes, regs, Apply(regs, event, revision, now, sp).regs, sp)
            <==> Announced(regs, event, sp)
  {
    hide Carries, StateValid, StateBounded, AcquireOutcome, RenameLocks, DeleteLock, IntentsAfter, AllEventChanges,
         IntentChanges,
         Report, Release, Declare, Intents.Update, Withdraw, Transition, AllAgree, RespelledByRename, SameSlot,
         TrackedAfter;
    match event.payload
    case PresenceReport(path, state) =>
      ReadyPresence(regs, revision, ids, sp);
      ReportIff(regs, event.member, path, state, revision, sp);
    case LockAcquire(scope, kind, mode) =>
      AcquireEvent(regs, event, scope, kind, mode, revision, now, [], sp, ids);
    case LockOverride(scope, kind, mode, _) =>
      AcquireEvent(regs, event, scope, kind, mode, revision, now,
                   [Audit(event.member, OverrideAction, scope, revision)], sp, ids);
    case LockRelease(target) =>
      ReleaseEvent(regs, event, target, revision, sp, ids);
    case IntentDeclare(modifyPaths, createPaths, description) =>
      DeclaredEvent(regs, event, modifyPaths, createPaths, description, revision, sp, ids);
    case IntentUpdate(intentId, modifyPaths, createPaths, description) =>
      UpdatedEvent(regs, event, intentId, modifyPaths, createPaths, description, revision, sp, ids);
    case IntentWithdraw(intentId) =>
      WithdrawnEvent(regs, event, intentId, revision, sp, ids);
    case PathRenamed(fromPath, toPath) =>
      RenameIff(regs, event, fromPath, toPath, revision, sp, ids);
    case PathDeleted(path) =>
      DeleteIff(regs, event, path, revision, sp, ids);
    case FileCreated(path) =>
      CreateIff(regs, path, revision, sp, ids);
    case Other(_, _) =>
      NothingCarries(regs, sp);
  }

  lemma ReadyPresence(regs: Registries, revision: nat, ids: set<string>, sp: Spelling)
    requires Ready(regs, revision, ids, sp)
    ensures PresenceValid(regs.presence, sp) && PresenceBounded(regs.presence, revision) && sp.Lawful()
  {
  }

  lemma DeclaredEvent(regs: Registries, event: Event, modifyPaths: seq<string>, createPaths: seq<string>,
                      description: string,
                      revision: nat, sp: Spelling, ids: set<string>)
    requires Ready(regs, revision, ids, sp) && event.eventId != "" && event.eventId !in ids
    ensures var r := Declare(regs.intents, regs.tracked, event.eventId, event.member, modifyPaths, createPaths,
                             description, revision, sp);
            r.IntentOk? ==> Carries(IntentChanges(r.intent, Added), regs, regs.(intents := r.intents), sp)
  {
    hide Carries, IntentsValid, NamedIntents, LocksValid, PresenceValid, IntentChanges, Acceptable, Reclassify, NoGlobs,
         Bounded;
    IntentsBoundedMore(regs.intents, revision - 1, ids, revision, ids);
    DeclareKeeps(regs.intents, regs.tracked, event.eventId, event.member, modifyPaths, createPaths, description,
                 revision, sp, ids);
    var r := Declare(regs.intents, regs.tracked, event.eventId, event.member, modifyPaths, createPaths, description,
                     revision, sp);
    if r.IntentOk? {
      NamesStay(regs.intents, r.intents, sp);
      DeclareEvent(regs, r.intent, sp);
    }
  }

  lemma UpdatedEvent(regs: Registries, event: Event, intentId: string, modifyPaths: seq<string>,
                     createPaths: seq<string>,
                     description: string, revision: nat, sp: Spelling, ids: set<string>)
    requires Ready(regs, revision, ids, sp)
    ensures var r := Intents.Update(regs.intents, regs.tracked, intentId, event.member, modifyPaths, createPaths,
                                    description, revision, sp);
            r.IntentOk? ==>
              && intentId in regs.intents.data
              && Carries(IntentChanges(regs.intents.data[intentId], Removed) + IntentChanges(r.intent, Added), regs,
                         regs.(intents := r.intents), sp)
  {
    hide Carries, IntentsValid, NamedIntents, LocksValid, PresenceValid, IntentChanges, Acceptable, Reclassify, NoGlobs,
         Bounded;
    IntentsBoundedMore(regs.intents, revision - 1, ids, revision, ids);
    UpdateKeeps(regs.intents, regs.tracked, intentId, event.member, modifyPaths, createPaths, description, revision, sp,
                ids);
    var r := Intents.Update(regs.intents, regs.tracked, intentId, event.member, modifyPaths, createPaths, description,
                            revision, sp);
    if r.IntentOk? {
      IntentIsValid(regs.intents, intentId, sp);
      NamesStay(regs.intents, r.intents, sp);
      UpdateEvent(regs, r.intent, sp);
    }
  }

  lemma WithdrawnEvent(regs: Registries, event: Event, intentId: string, revision: nat, sp: Spelling, ids: set<string>)
    requires Ready(regs, revision, ids, sp)
    ensures var r := Withdraw(regs.intents, intentId, event.member);
            r.IntentOk? ==> Carries(IntentChanges(r.intent, Removed), regs, regs.(intents := r.intents), sp)
  {
    hide Carries, IntentsValid, NamedIntents, LocksValid, PresenceValid, IntentChanges, NoGlobs, Bounded;
    if intentId in regs.intents.data {
      WithdrawEvent(regs, intentId, sp);
    }
  }

  /** Announcing a deletion, exactly. */
  lemma DeleteIff(regs: Registries, event: Event, path: string, revision: nat, sp: Spelling, ids: set<string>)
    requires Ready(regs, revision, ids, sp)
    ensures var locks := DeleteLock(regs, event, path, sp); var change := DeletedBy(path, event.member.memberId);
            Carries(locks.1 + AllEventChanges(regs.intents.keys, regs.intents.data, change, sp), regs,
                    IntentsAfter(regs, change, sp).(locks := locks.0), sp)
            <==> AllAgree(regs.intents, change, sp)
  {
    hide DeleteLock, Net, ShownLock, AllAgree, AllEventChanges, AllAfter, OfTypes, LocksValid, Bounded;
    var locks := DeleteLock(regs, event, path, sp);
    DeleteLockEvent(regs, event, path, revision, sp, ids);
    PathEventIff(regs, locks.0, locks.1, DeletedBy(path, event.member.memberId), sp);
  }

  /** Announcing a creation, exactly. */
  lemma CreateIff(regs: Registries, path: string, revision: nat, sp: Spelling, ids: set<string>)
    requires Ready(regs, revision, ids, sp)
    ensures Carries(AllEventChanges(regs.intents.keys, regs.intents.data, Created(path), sp), regs,
                    IntentsAfter(regs, Created(path), sp), sp)
            <==> AllAgree(regs.intents, Created(path), sp)
  {
    hide AllAgree, AllEventChanges, AllAfter, LocksValid, Bounded;
    NothingCarries(regs, sp);
    PathEventIff(regs, regs.locks, [], Created(path), sp);
    assert [] + AllEventChanges(regs.intents.keys, regs.intents.data, Created(path), sp) ==
           AllEventChanges(regs.intents.keys, regs.intents.data, Created(path), sp);
  }

  // ----- Hosts that match paths by spelling -----

  lemma MovesAgree(paths: seq<string>, fromPath: string, toPath: string, path: string, sp: Spelling)
    requires forall s: string :: sp.fold(s) == s
    ensures MoveAgrees(paths, fromPath, toPath, sp) && DropAgrees(paths, path, sp)
  {
  }

  lemma NormalPathsApart(paths: seq<string>, key: string, to: string, sp: Spelling)
    requires sp.Lawful() && Normal(paths, sp) && forall s: string :: sp.fold(s) == s
    ensures KeysApart(MovePath(paths, key, sp.normalize(to), sp), sp)
  {
    var moved := MovePath(paths, key, sp.normalize(to), sp);
    forall p | p in moved ensures sp.normalize(p) == p {
      var i :| 0 <= i < |moved| && moved[i] == p;
      assert paths[i] in paths;
      assert sp.normalize(sp.normalize(to)) == sp.normalize(to);
    }
  }

  lemma IntentsAgree(intents: IntentMap, event: PathEvent, sp: Spelling)
    requires sp.Lawful() && IntentsValid(intents, sp) && forall s: string :: sp.fold(s) == s
    ensures AllAgree(intents, event, sp)
  {
    hide Affects, MoveAgrees, DropAgrees, KeysApart;
    forall id | id in intents.data ensures Agrees(intents.data[id], event, sp) {
      var intent := intents.data[id];
      assert IntentValid(id, intent, sp);
      match event
      case Renamed(fromPath, toPath) =>
        MovesAgree(intent.modifyPaths, fromPath, toPath, "", sp);
        MovesAgree(intent.createPaths, fromPath, toPath, "", sp);
        NormalPathsApart(intent.createPaths, sp.Key(fromPath), toPath, sp);
      case Created(path) =>
        MovesAgree(intent.createPaths, "", "", path, sp);
      case DeletedBy(path, _) =>
        MovesAgree(intent.modifyPaths, "", "", path, sp);
        MovesAgree(intent.createPaths, "", "", path, sp);
    }
  }

  lemma NeverRespelled(locks: Groups, memberId: string, fromPath: string, toPath: string, sp: Spelling)
    requires LocksValid(locks, sp) && forall s: string :: sp.fold(s) == s
    ensures !RespelledByRename(locks, memberId, fromPath, toPath, sp)
  {
    var from := KeyOfScope(fromPath, File, sp);
    if from in locks.data {
      assert GroupValid(from, locks.data[from], sp);
    }
  }

  /** On a host that matches paths by spelling, the caches follow every event except a
      presence report from a second device of one member on one path. */
  lemma SpellingHostsAnnounce(regs: Registries, event: Event, sp: Spelling)
    requires sp.Lawful() && StateValid(regs, sp) && forall s: string :: sp.fold(s) == s
    ensures Announced(regs, event, sp) <==>
            (event.payload.PresenceReport? ==> SameSlot(regs.presence, event.member, event.payload.path, sp))
  {
    hide LocksValid, IntentsValid, PresenceValid, AllAgree, RespelledByRename, SameSlot;
    match event.payload
    case PathRenamed(fromPath, toPath) =>
      NeverRespelled(regs.locks, event.member.memberId, fromPath, toPath, sp);
      IntentsAgree(regs.intents, Renamed(fromPath, toPath), sp);
    case PathDeleted(path) =>
      IntentsAgree(regs.intents, DeletedBy(path, event.member.memberId), sp);
    case FileCreated(path) =>
      IntentsAgree(regs.intents, Created(path), sp);
    case _ =>
  }

  lemma CaseSensitiveHosts()
    ensures HostSpelling(CaseSensitive).Lawful() && forall s: string :: HostSpelling(CaseSensitive).fold(s) == s
  {
    HostSpellingIsLawful(CaseSensitive);
  }
}
