/** The expiry sweep announces exactly what it changes, except when the soft-lock
    age pass drops a losing claim that shares the winner's slot. */
module SweepConvergence {
  import opened Protocol
  import opened Paths
  import opened Locks
  import opened LockProofs
  import opened Intents
  import opened Presences
  import opened Cache
  import opened Registries
  import opened States
  import opened Convergence

  // ----- Locks -----

  /** What a series of expiry passes did to every group's winner. */
  ghost predicate GroupSwept(before: Option<Lock>, after: Option<Lock>, group: GroupKey, expired: seq<Lock>,
                             sp: Spelling)
  {
    match before
    case None => after == None && forall e :: e in expired ==> KeyOfScope(e.scope, e.kind, sp) != group
    case Some(w) =>
      || (after == before && forall e :: e in expired && KeyOfScope(e.scope, e.kind, sp) == group ==>
                                           e.concurrent && LockSlot(e, sp) != LockSlot(w, sp))
      || (w in expired && !w.concurrent)
  }

  ghost predicate WinnersSwept(before: Groups, after: Groups, expired: seq<Lock>, sp: Spelling) {
    forall g :: GroupSwept(Holder(before, g), Holder(after, g), g, expired, sp)
  }

  ghost predicate InPathGroups(locks: seq<Lock>, sp: Spelling) {
    forall e :: e in locks ==> KeyOfScope(e.scope, e.kind, sp).PathGroup?
  }

  lemma {:induction false} LockRemovalsNet(expired: seq<Lock>, key: EntryKey, sp: Spelling)
    ensures Net(LockRemovals(expired), key, sp) == if exists e ::
              e in expired && LockSlot(e, sp) == key then Gone else Untouched
  {
    if expired != [] {
      LockRemovalsNet(expired[1..], key, sp);
      assert LockRemovals(expired)[1..] == LockRemovals(expired[1..]);
      assert expired == [expired[0]] + expired[1..];
      LockChangeEffect(expired[0], Removed, key, sp);
    }
  }

  /** A promotion is announced for a group exactly when its winner was removed. */
  ghost predicate PromotedIn(groups: Groups, removed: seq<Lock>, emitted: set<string>, key: EntryKey, sp: Spelling) {
    var winner := Holder(groups, GroupOfSlot(key, sp));
    && winner.Some? && winner.value.lockId !in emitted && LockSlot(winner.value, sp) == key
    && exists e :: e in removed && !e.concurrent && KeyOfScope(e.scope, e.kind, sp) == GroupOfSlot(key, sp)
  }

  /** Announcing a winner once is enough for all removed claims of its group. */
  lemma PromotedOnce(groups: Groups, w: Lock, rest: seq<Lock>, emitted: set<string>, key: EntryKey, sp: Spelling)
    requires LocksValid(groups, sp)
    requires Holder(groups, KeyOfScope(w.scope, w.kind, sp)) == Some(w) && KeyOfScope(w.scope, w.kind, sp).PathGroup?
    ensures LockSlot(w, sp) != key ==>
              (PromotedIn(groups, rest, emitted + {w.lockId}, key, sp) <==> PromotedIn(groups, rest, emitted, key, sp))
  {
    var group := KeyOfScope(w.scope, w.kind, sp);
    var other := Holder(groups, GroupOfSlot(key, sp));
    if GroupOfSlot(key, sp) != group && other.Some? {
      HoldersDiffer(groups, group, GroupOfSlot(key, sp), sp);
    }
  }

  lemma {:induction false} PromotionsNet(groups: Groups, removed: seq<Lock>, emitted: set<string>, key: EntryKey,
                                         sp: Spelling)
    requires LocksValid(groups, sp) && InPathGroups(removed, sp)
    ensures Net(Promotions(groups, removed, emitted, sp), key, sp) ==
            if PromotedIn(groups, removed, emitted, key, sp) then Put("") else Untouched
    decreases |removed|
  {
    hide LocksValid, EffectOf;
    if removed != [] {
      var lock, rest := removed[0], removed[1..];
      assert removed == [lock] + rest;
      var group := KeyOfScope(lock.scope, lock.kind, sp);
      var winner := Holder(groups, group);
      HolderIsWinner(groups, group, sp);
      if lock.concurrent || winner.None? || winner.value.lockId in emitted {
        PromotionsNet(groups, rest, emitted, key, sp);
        assert !PromotedIn(groups, [lock], emitted, key, sp);
      } else {
        var w := winner.value;
        PromotionsNet(groups, rest, emitted + {w.lockId}, key, sp);
        SlotGroup(w, group, sp);
        PromotedOnce(groups, w, rest, emitted, key, sp);
        LockChangeEffect(w, Added, key, sp);
        if LockSlot(w, sp) == key {
          assert lock in [lock];
          assert PromotedIn(groups, [lock], emitted, key, sp);
        } else {
          assert !PromotedIn(groups, [lock], emitted, key, sp);
        }
      }
    }
  }

  /** Removals followed by promotions carry every lock slot. */
  lemma PhaseCarries(before: Groups, after: Groups, expired: seq<Lock>, key: EntryKey, sp: Spelling)
    requires LocksValid(before, sp) && LocksValid(after, sp) && WinnersSwept(before, after, expired, sp)
             && InPathGroups(expired, sp)
    ensures Net(LockRemovals(expired), key, sp).Then(Net(Promotions(after, expired, {}, sp), key, sp))
              .On(ShownLock(before, key, sp)) == ShownLock(after, key, sp)
  {
    LockRemovalsNet(expired, key, sp);
    PromotionsNet(after, expired, {}, key, sp);
    var group := GroupOfSlot(key, sp);
    assert GroupSwept(Holder(before, group), Holder(after, group), group, expired, sp);
    HolderIsWinner(before, group, sp);
    forall e | e in expired && LockSlot(e, sp) == key
      ensures KeyOfScope(e.scope, e.kind, sp) == group
    {
      SlotGroup(e, KeyOfScope(e.scope, e.kind, sp), sp);
    }
  }

  /** One device's pass never touches the slot of a surviving winner. */
  lemma DevicePassSwept(groups: Groups, deviceId: string, sp: Spelling, bound: nat, ids: set<string>)
    requires LocksValid(groups, sp) && Bounded(groups, bound, ids) && NoGlobs(groups)
    ensures var r := ExpireLocks(groups, OfDevice(deviceId));
            && LocksValid(r.0, sp) && Bounded(r.0, bound, ids) && NoGlobs(r.0) && InPathGroups(r.1, sp)
            && WinnersSwept(groups, r.0, r.1, sp)
  {
    var expiry := OfDevice(deviceId);
    var r := ExpireLocks(groups, expiry);
    PassKeepsGroups(groups, expiry, sp, bound, ids);
    forall g
      ensures GroupSwept(Holder(groups, g), Holder(r.0, g), g, r.1, sp)
    {
      ExpireMovesWinner(groups, expiry, g, sp, bound, ids);
    }
  }

  lemma PassKeepsGroups(groups: Groups, expiry: Expiry, sp: Spelling, bound: nat, ids: set<string>)
    requires LocksValid(groups, sp) && Bounded(groups, bound, ids) && NoGlobs(groups)
    ensures var r := ExpireLocks(groups, expiry);
            && LocksValid(r.0, sp) && Bounded(r.0, bound, ids) && NoGlobs(r.0) && InPathGroups(r.1, sp)
            && forall e :: e in r.1 ==> Expires(e, expiry)
  {
    var r := ExpireLocks(groups, expiry);
    ExpireGroupsKeep(groups.keys, groups, expiry, sp, bound, ids);
    forall g | g in r.0.data ensures g.PathGroup? {
      assert forall k :: k in groups.data ==> GroupValid(k, groups.data[k], sp);
      ExpireGroupsData(groups.keys, groups, expiry);
      assert GroupValid(g, r.0.data[g], sp);
      assert r.0.Get(g, []) != [];
      assert g in groups.data;
    }
    forall e | e in r.1 ensures KeyOfScope(e.scope, e.kind, sp).PathGroup? && Expires(e, expiry) {
      ReportedGroup(groups, expiry, e, sp);
    }
  }

  lemma SweptThenSwept(a: Groups, b: Groups, c: Groups, expired1: seq<Lock>, expired2: seq<Lock>, sp: Spelling)
    requires WinnersSwept(a, b, expired1, sp) && WinnersSwept(b, c, expired2, sp)
    ensures WinnersSwept(a, c, expired1 + expired2, sp)
  {
    forall g
      ensures GroupSwept(Holder(a, g), Holder(c, g), g, expired1 + expired2, sp)
    {
      assert GroupSwept(Holder(a, g), Holder(b, g), g, expired1, sp);
      assert GroupSwept(Holder(b, g), Holder(c, g), g, expired2, sp);
    }
  }

  // ----- The soft-lock age pass -----

  /** No losing claim that is about to age out has the slot of a winner that stays. */
  ghost predicate AgePassSafe(groups: Groups, cutoff: int, sp: Spelling) {
    forall g, c :: g in groups.data && c in groups.data[g] && Expires(c, SoftBefore(cutoff)) ==>
                     !HidesWinner(groups, g, c, cutoff, sp)
  }

  predicate HidesWinner(groups: Groups, g: GroupKey, c: Lock, cutoff: int, sp: Spelling) {
    var w := Holder(groups, g);
    w.Some? && !Expires(w.value, SoftBefore(cutoff)) && LockSlot(c, sp) == LockSlot(w.value, sp)
  }

  lemma AgedSlot(groups: Groups, cutoff: int, sp: Spelling, g: GroupKey, e: Lock)
    requires LocksValid(groups, sp) && AgePassSafe(groups, cutoff, sp)
    requires e in ExpireLocks(groups, SoftBefore(cutoff)).1 && KeyOfScope(e.scope, e.kind, sp) == g
    requires Holder(groups, g).Some? && !Expires(Holder(groups, g).value, SoftBefore(cutoff))
    ensures LockSlot(e, sp) != LockSlot(Holder(groups, g).value, sp)
  {
    ReportedGroup(groups, SoftBefore(cutoff), e, sp);
    assert !HidesWinner(groups, g, e, cutoff, sp);
  }

  lemma AgePassSwept(groups: Groups, cutoff: int, sp: Spelling, bound: nat, ids: set<string>)
    requires LocksValid(groups, sp) && Bounded(groups, bound, ids) && NoGlobs(groups) && AgePassSafe(groups, cutoff, sp)
    ensures WinnersSwept(groups, ExpireLocks(groups, SoftBefore(cutoff)).0, ExpireLocks(groups, SoftBefore(cutoff)).1,
                         sp)
  {
    var expiry := SoftBefore(cutoff);
    var (after, aged) := ExpireLocks(groups, expiry);
    forall g
      ensures GroupSwept(Holder(groups, g), Holder(after, g), g, aged, sp)
    {
      ExpireMovesWinner(groups, expiry, g, sp, bound, ids);
      if Holder(groups, g).Some? && !Expires(Holder(groups, g).value, expiry) {
        forall e | e in aged && KeyOfScope(e.scope, e.kind, sp) == g
          ensures LockSlot(e, sp) != LockSlot(Holder(groups, g).value, sp)
        {
          AgedSlot(groups, cutoff, sp, g, e);
        }
      }
    }
  }

  /** Otherwise the caches drop a winner that the host keeps. */
  lemma AgePassHidesWinner(groups: Groups, cutoff: int, sp: Spelling, bound: nat, ids: set<string>)
    returns (key: EntryKey)
    requires LocksValid(groups, sp) && Bounded(groups, bound, ids) && NoGlobs(groups)
             && !AgePassSafe(groups, cutoff, sp)
    ensures key.entryType == LockEntry
    ensures var (after, aged) := ExpireLocks(groups, SoftBefore(cutoff));
            && Net(LockRemovals(aged), key, sp).Then(Net(Promotions(after, aged, {}, sp), key, sp)) == Gone
            && ShownLock(after, key, sp) == Some("")
  {
    var expiry := SoftBefore(cutoff);
    var (after, aged) := ExpireLocks(groups, expiry);
    PassKeepsGroups(groups, expiry, sp, bound, ids);
    var g, c :| g in groups.data && c in groups.data[g] && Expires(c, expiry) && HidesWinner(groups, g, c, cutoff, sp);
    var w := Holder(groups, g).value;
    key := LockSlot(w, sp);
    HolderIsWinner(groups, g, sp);
    SlotGroup(w, g, sp);
    ExpireMovesWinner(groups, expiry, g, sp, bound, ids);
    ExpireGroupsReport(groups.keys, groups, expiry);
    assert c in aged;
    LockRemovalsNet(aged, key, sp);
    PromotionsNet(after, aged, {}, key, sp);
  }

  // ----- Intents of a stale device -----

  lemma {:induction false} AllIntentChangesNet(intents: seq<Intent>, key: EntryKey, sp: Spelling)
    requires forall i :: i in intents ==> NamedIntent(i.intentId, i, sp)
    requires IsIntentEntry(key.entryType) && key.intentId != ""
    ensures Net(AllIntentChanges(intents, Removed), key, sp) ==
            if exists i :: i in intents && OwnsSlot(i, key) && key.path in PathsOf(i, key.entryType) then Gone
            else Untouched
  {
    if intents != [] {
      var first, rest := intents[0], intents[1..];
      assert intents == [first] + rest;
      AllIntentChangesNet(rest, key, sp);
      NetConcat(IntentChanges(first, Removed), AllIntentChanges(rest, Removed), key, sp);
      assert NamedIntent(first.intentId, first, sp);
      IntentChangesNet(first, Removed, key, sp);
      NormalNames(PathsOf(first, key.entryType), key.path, sp);
    }
  }

  lemma {:induction false} AllIntentsNamed(intents: seq<Intent>)
    requires forall i :: i in intents ==> i.intentId != ""
    ensures NamedIntentChanges(AllIntentChanges(intents, Removed))
  {
    if intents != [] {
      AllIntentsNamed(intents[1..]);
    }
  }

  lemma ExpiredIntentsCarry(intents: IntentMap, deviceId: string, key: EntryKey, sp: Spelling)
    requires NamedIntents(intents, sp) && IsIntentEntry(key.entryType)
    ensures Net(AllIntentChanges(OwnedBy(intents.keys, intents.data, deviceId), Removed), key,
                sp).On(ShownIntent(intents, key)) ==
            ShownIntent(ExpireIntents(intents, deviceId), key)
  {
    var gone := OwnedBy(intents.keys, intents.data, deviceId);
    OwnedByMembers(intents.keys, intents.data, deviceId);
    forall i | i in gone ensures NamedIntent(i.intentId, i, sp) {
      var k :| k in intents.keys && intents.data[k] == i;
      assert NamedIntent(k, intents.data[k], sp);
    }
    if key.intentId == "" {
      AllIntentsNamed(gone);
      UnnamedNet(AllIntentChanges(gone, Removed), key, sp);
      assert forall id :: id in intents.data ==> NamedIntent(id, intents.data[id], sp);
      assert "" !in intents.data;
    } else {
      AllIntentChangesNet(gone, key, sp);
      forall i | i in gone && OwnsSlot(i, key)
        ensures key.intentId in intents.data && intents.data[key.intentId] == i
      {
        var k :| k in intents.keys && intents.data[k] == i;
        assert NamedIntent(k, intents.data[k], sp);
      }
      if key.intentId in intents.data {
        assert NamedIntent(key.intentId, intents.data[key.intentId], sp);
        assert key.intentId in intents.keys;
      }
    }
  }

  // ----- Presence of a stale device -----

  ghost predicate AreRecordsOf(active: seq<PresenceRecord>, presence: PresenceMap, sp: Spelling) {
    forall p :: p in active ==> KeyOfPresence(p.member, p.path, sp) in presence.data && sp.normalize(p.path) == p.path
  }

  /** Every listed record is stopped and no other one changes. */
  lemma {:induction false} StopAllStops(presence: PresenceMap, active: seq<PresenceRecord>, next: nat, sp: Spelling)
    requires PresenceValid(presence, sp) && sp.Lawful() && next > 0 && PresenceBounded(presence, next - 1)
    requires AreRecordsOf(active, presence, sp)
    ensures var after := StopAll(presence, active, next, sp);
            && PresenceValid(after, sp) && PresenceBounded(after, next + |active| - 1)
            && after.data.Keys == presence.data.Keys
            && (forall k :: k in presence.data ==>
                  if exists p :: p in active && KeyOfPresence(p.member, p.path, sp) == k
                  then after.data[k].state.Stopped?
                  else after.data[k] == presence.data[k])
    decreases |active|
  {
    if active != [] {
      var first, rest := active[0], active[1..];
      assert active == [first] + rest;
      assert first in active;
      var key := KeyOfPresence(first.member, first.path, sp);
      var step := Report(presence, first.member, first.path, Stopped, next, sp);
      assert presence.data[key].eventRevision <= next - 1;
      assert step == presence.Set(key, PresenceRecord(first.member, first.path, Stopped, next));
      ReportKeeps(presence, first.member, first.path, Stopped, next, sp);
      StopAllStops(step, rest, next + 1, sp);
      StopsMore(presence, step, StopAll(step, rest, next + 1, sp), first, rest, sp);
    }
  }

  lemma StopsMore(presence: PresenceMap, step: PresenceMap, after: PresenceMap, first: PresenceRecord,
                  rest: seq<PresenceRecord>,
                  sp: Spelling)
    requires step.data.Keys == presence.data.Keys == after.data.Keys
    requires forall k :: k in presence.data && k != KeyOfPresence(first.member, first.path, sp) ==>
               step.data[k] == presence.data[k]
    requires KeyOfPresence(first.member, first.path, sp) in step.data
             && step.data[KeyOfPresence(first.member, first.path, sp)].state.Stopped?
    requires forall k :: k in step.data ==>
                           if exists p :: p in rest && KeyOfPresence(p.member, p.path, sp) == k
                           then after.data[k].state.Stopped?
                           else after.data[k] == step.data[k]
    ensures forall k :: k in presence.data ==>
                          if exists p :: p in [first] + rest && KeyOfPresence(p.member, p.path, sp) == k
                          then after.data[k].state.Stopped?
                          else after.data[k] == presence.data[k]
  {
    assert forall p :: p in [first] + rest <==> p == first || p in rest;
  }

  lemma {:induction false} PresenceRemovalsNet(records: seq<PresenceRecord>, key: EntryKey, sp: Spelling)
    ensures Net(PresenceRemovals(records), key, sp) == if exists p ::
              p in records && PresenceSlot(p, sp) == key then Gone else Untouched
  {
    if records != [] {
      PresenceRemovalsNet(records[1..], key, sp);
      assert PresenceRemovals(records)[1..] == PresenceRemovals(records[1..]);
      assert records == [records[0]] + records[1..];
      var first := PresenceChange(records[0].member, records[0].path, Removed);
      assert EffectOf(first, key, sp) == if PresenceSlot(records[0], sp) == key then Gone else Untouched;
    }
  }

  lemma StoppedPresenceCarries(presence: PresenceMap, deviceId: string, next: nat, key: EntryKey, sp: Spelling)
    requires PresenceValid(presence, sp) && sp.Lawful() && next > 0 && PresenceBounded(presence, next - 1)
    requires key.entryType == PresenceEntry
    ensures var active := ActiveForDevice(presence.keys, presence.data, deviceId);
            && AreRecordsOf(active, presence, sp)
            && Net(PresenceRemovals(active), key, sp).On(ShownPresence(presence, key, sp)) ==
               ShownPresence(StopAll(presence, active, next, sp), key, sp)
  {
    var active := ActiveForDevice(presence.keys, presence.data, deviceId);
    ActiveMembers(presence.keys, presence.data, deviceId);
    forall p | p in active
      ensures KeyOfPresence(p.member, p.path, sp) in presence.data
              && presence.data[KeyOfPresence(p.member, p.path, sp)] == p
      ensures sp.normalize(p.path) == p.path
    {
      var k :| k in presence.keys && presence.data[k] == p;
      assert RecordValid(k, presence.data[k], sp);
    }
    StopAllStops(presence, active, next, sp);
    PresenceRemovalsNet(active, key, sp);
    var candidate := PresenceKey(key.memberId, sp.fold(key.path));
    if candidate in presence.data {
      assert candidate in presence.keys && RecordValid(candidate, presence.data[candidate], sp);
    }
    forall p | p in active && PresenceSlot(p, sp) == key
      ensures KeyOfPresence(p.member, p.path, sp) == candidate
    {
    }
  }

  // ----- One device, all devices, the whole sweep -----

  ghost const ANY_SLOT := EntryKey(PresenceEntry, "", "", "", "")

  /** A part of the sweep keeps the state valid and reports how it moved the winners. */
  ghost predicate PartKeeps(before: Registries, part: Swept, next: nat, ids: set<string>, sp: Spelling) {
    && Ready(part.regs, next + |part.changes|, ids, sp)
    && InPathGroups(part.expired, sp) && WinnersSwept(before.locks, part.regs.locks, part.expired, sp)
  }

  /** Its changes carry every slot, except that promoted locks are announced later. */
  ghost predicate PartCarries(before: Registries, part: Swept, key: EntryKey, sp: Spelling) {
    if key.entryType == LockEntry then Net(part.changes, key, sp) == Net(LockRemovals(part.expired), key, sp)
    else Net(part.changes, key, sp).On(Shown(before, key, sp)) == Shown(part.regs, key, sp)
  }

  function Followed(first: Swept, rest: Swept): Swept {
    Swept(rest.regs, first.changes + rest.changes, first.expired + rest.expired)
  }

  lemma PartsKeep(before: Registries, first: Swept, rest: Swept, next: nat, ids: set<string>, sp: Spelling)
    requires PartKeeps(before, first, next, ids, sp) && PartKeeps(first.regs, rest, next + |first.changes|, ids, sp)
    ensures PartKeeps(before, Followed(first, rest), next, ids, sp)
  {
    hide WinnersSwept, StateValid, StateBounded, NoGlobs;
    SweptThenSwept(before.locks, first.regs.locks, rest.regs.locks, first.expired, rest.expired, sp);
    assert next + |first.changes| + |rest.changes| == next + |Followed(first, rest).changes|;
  }

  lemma RemovalsConcat(a: seq<Lock>, b: seq<Lock>)
    ensures LockRemovals(a + b) == LockRemovals(a) + LockRemovals(b)
  {
  }

  lemma PartsCarry(before: Registries, first: Swept, rest: Swept, key: EntryKey, sp: Spelling)
    requires PartCarries(before, first, key, sp) && PartCarries(first.regs, rest, key, sp)
    ensures PartCarries(before, Followed(first, rest), key, sp)
  {
    hide Net, Shown, LockRemovals;
    NetConcat(first.changes, rest.changes, key, sp);
    NetConcat(LockRemovals(first.expired), LockRemovals(rest.expired), key, sp);
    RemovalsConcat(first.expired, rest.expired);
  }

  lemma NothingKeeps(regs: Registries, next: nat, ids: set<string>, key: EntryKey, sp: Spelling)
    requires Ready(regs, next, ids, sp)
    ensures PartKeeps(regs, Swept(regs, [], []), next, ids, sp) && PartCarries(regs, Swept(regs, [], []), key, sp)
  {
    hide StateValid, StateBounded, NoGlobs, Shown;
    assert LockRemovals([]) == [];
  }

  lemma SweepDeviceKeeps(regs: Registries, deviceId: string, next: nat, ids: set<string>, sp: Spelling)
    requires Ready(regs, next, ids, sp)
    ensures PartKeeps(regs, SweepDevice(regs, deviceId, next, sp), next, ids, sp)
  {
    hide LocksValid, Bounded, NamedIntents, IntentsBounded, PresenceValid, PresenceBounded, NoGlobs, WinnersSwept,
         InPathGroups,
         ExpireLocks, ExpireIntents, StopAll, OwnedBy, ActiveForDevice, AllIntentChanges;
    SweepDeviceSound(regs, deviceId, next, ids, sp);
    ExpireKeepsNames(regs.intents, deviceId, sp, next - 1, ids);
    DevicePassSwept(regs.locks, deviceId, sp, next - 1, ids);
  }

  lemma SweepDeviceCarries(regs: Registries, deviceId: string, next: nat, ids: set<string>, key: EntryKey, sp: Spelling)
    requires Ready(regs, next, ids, sp)
    ensures PartCarries(regs, SweepDevice(regs, deviceId, next, sp), key, sp)
  {
    hide LocksValid, Bounded, NamedIntents, IntentsBounded, PresenceValid, PresenceBounded, NoGlobs,
         ExpireLocks, ExpireIntents, StopAll, OwnedBy, ActiveForDevice, AllIntentChanges, Net, ShownIntent,
         ShownPresence, ShownLock;
    var r := SweepDevice(regs, deviceId, next, sp);
    var gone := OwnedBy(regs.intents.keys, regs.intents.data, deviceId);
    var active := ActiveForDevice(regs.presence.keys, regs.presence.data, deviceId);
    AllIntentTypes(gone);
    ThreeParts(LockRemovals(r.expired), AllIntentChanges(gone, Removed), PresenceRemovals(active), key, sp);
    match key.entryType {
      case LockEntry =>
      case PresenceEntry =>
        var start := next + |r.changes| - |active|;
        PresenceBoundedMore(regs.presence, next - 1, start - 1);
        StoppedPresenceCarries(regs.presence, deviceId, start, key, sp);
      case _ =>
        ExpiredIntentsCarry(regs.intents, deviceId, key, sp);
    }
  }

  /** A slot only sees the part of its own entry type. */
  lemma ThreeParts(lockPart: seq<Change>, intentPart: seq<Change>, presencePart: seq<Change>, key: EntryKey,
                   sp: Spelling)
    requires OfTypes(lockPart, {LockEntry}) && OfTypes(presencePart, {PresenceEntry})
    ensures OfTypes(intentPart, {IntentEntry, CreationEntry}) ==>
              Net(lockPart + intentPart + presencePart, key, sp) ==
              match key.entryType
              case LockEntry => Net(lockPart, key, sp)
              case PresenceEntry => Net(presencePart, key, sp)
              case _ => Net(intentPart, key, sp)
  {
    NetConcat(lockPart + intentPart, presencePart, key, sp);
    NetConcat(lockPart, intentPart, key, sp);
    if OfTypes(intentPart, {IntentEntry, CreationEntry}) {
      if key.entryType != LockEntry { OtherTypesNet(lockPart, {LockEntry}, key, sp); }
      if key.entryType != PresenceEntry { OtherTypesNet(presencePart, {PresenceEntry}, key, sp); }
      if !IsIntentEntry(key.entryType) { OtherTypesNet(intentPart, {IntentEntry, CreationEntry}, key, sp); }
    }
  }

  lemma {:induction false} AllIntentTypes(intents: seq<Intent>)
    ensures OfTypes(AllIntentChanges(intents, Removed), {IntentEntry, CreationEntry})
  {
    if intents != [] {
      AllIntentTypes(intents[1..]);
    }
  }

  lemma {:induction false} SweepDevicesKeep(regs: Registries, devices: seq<string>, next: nat, ids: set<string>,
                                            key: EntryKey,
                                            sp: Spelling)
    requires Ready(regs, next, ids, sp)
    ensures PartKeeps(regs, SweepDevices(regs, devices, next, sp), next, ids, sp)
    ensures PartCarries(regs, SweepDevices(regs, devices, next, sp), key, sp)
    decreases |devices|
  {
    hide Ready, PartCarries, SweepDevice, InPathGroups, WinnersSwept;
    if devices == [] {
      NothingKeeps(regs, next, ids, key, sp);
    } else {
      var first := SweepDevice(regs, devices[0], next, sp);
      SweepDeviceKeeps(regs, devices[0], next, ids, sp);
      SweepDeviceCarries(regs, devices[0], next, ids, key, sp);
      SweepDevicesKeep(first.regs, devices[1..], next + |first.changes|, ids, key, sp);
      var rest := SweepDevices(first.regs, devices[1..], next + |first.changes|, sp);
      PartsKeep(regs, first, rest, next, ids, sp);
      PartsCarry(regs, first, rest, key, sp);
    }
  }

  lemma {:induction false} PromotionTypes(groups: Groups, removed: seq<Lock>, emitted: set<string>, sp: Spelling)
    ensures OfTypes(Promotions(groups, removed, emitted, sp), {LockEntry})
    decreases |removed|
  {
    if removed != [] {
      PromotionTypes(groups, removed[1..], emitted, sp);
      var winner := Holder(groups, KeyOfScope(removed[0].scope, removed[0].kind, sp));
      if winner.Some? {
        PromotionTypes(groups, removed[1..], emitted + {winner.value.lockId}, sp);
      }
    }
  }

  lemma SweepKeepsSlots(regs: Registries, stale: seq<string>, cutoff: int, next: nat, ids: set<string>, sp: Spelling)
    requires Ready(regs, next, ids, sp)
    ensures Slotted(Sweep(regs, stale, cutoff, next, sp).regs, sp)
  {
    hide LocksValid, Bounded, NamedIntents, IntentsBounded, PresenceValid, PresenceBounded, NoGlobs, WinnersSwept,
         InPathGroups,
         SweepDevices, ExpireLocks;
    var devices := SweepDevices(regs, stale, next, sp);
    SweepDevicesKeep(regs, stale, next, ids, ANY_SLOT, sp);
    PassKeepsGroups(devices.regs.locks, SoftBefore(cutoff), sp, next + |devices.changes| - 1, ids);
  }

  /** The state the age pass starts from. */
  function AfterHeartbeats(regs: Registries, stale: seq<string>, next: nat, sp: Spelling): Registries {
    SweepDevices(regs, stale, next, sp).regs
  }

  /** What the age pass announces. */
  function AgeChanges(groups: Groups, cutoff: int, sp: Spelling): seq<Change> {
    var aged := ExpireLocks(groups, SoftBefore(cutoff));
    LockRemovals(aged.1) + Promotions(aged.0, aged.1, {}, sp)
  }

  /** The net effect of a sweep on a lock slot: the age pass on top of the heartbeat sweep. */
  lemma SweepLockNet(regs: Registries, stale: seq<string>, cutoff: int, next: nat, ids: set<string>, key: EntryKey,
                     sp: Spelling)
    requires Ready(regs, next, ids, sp) && key.entryType == LockEntry
    ensures var middle := AfterHeartbeats(regs, stale, next, sp);
            Net(Sweep(regs, stale, cutoff, next, sp).changes, key, sp).On(ShownLock(regs.locks, key, sp)) ==
            Net(AgeChanges(middle.locks, cutoff, sp), key, sp).On(ShownLock(middle.locks, key, sp))
  {
    hide StateBounded, LocksValid, NamedIntents, PresenceValid, NoGlobs, SweepDevices, Promotions, ShownLock,
         WinnersSwept, InPathGroups, Net;
    var devices := SweepDevices(regs, stale, next, sp);
    var promotions := Promotions(devices.regs.locks, devices.expired, {}, sp);
    var aged := AgeChanges(devices.regs.locks, cutoff, sp);
    SweepDevicesKeep(regs, stale, next, ids, key, sp);
    assert Sweep(regs, stale, cutoff, next, sp).changes == (devices.changes + promotions) + aged;
    NetConcat(devices.changes + promotions, aged, key, sp);
    NetConcat(devices.changes, promotions, key, sp);
    PhaseCarries(regs.locks, devices.regs.locks, devices.expired, key, sp);
  }

  lemma RemovalTypes(removed: seq<Lock>)
    ensures OfTypes(LockRemovals(removed), {LockEntry})
  {
  }

  lemma LockPartsUnseen(changes: seq<Change>, a: seq<Change>, b: seq<Change>, c: seq<Change>, key: EntryKey,
                        sp: Spelling)
    requires OfTypes(a, {LockEntry}) && OfTypes(b, {LockEntry}) && OfTypes(c, {LockEntry}) && key.entryType != LockEntry
    ensures Net(changes + a + b + c, key, sp) == Net(changes, key, sp)
  {
    hide Net, OfTypes;
    NetConcat(changes + a + b, c, key, sp);
    NetConcat(changes + a, b, key, sp);
    NetConcat(changes, a, key, sp);
    OtherTypesNet(a, {LockEntry}, key, sp);
    OtherTypesNet(b, {LockEntry}, key, sp);
    OtherTypesNet(c, {LockEntry}, key, sp);
  }

  lemma SweepOtherNet(regs: Registries, stale: seq<string>, cutoff: int, next: nat, ids: set<string>, key: EntryKey,
                      sp: Spelling)
    requires Ready(regs, next, ids, sp) && key.entryType != LockEntry
    ensures Net(Sweep(regs, stale, cutoff, next, sp).changes, key, sp).On(Shown(regs, key, sp)) ==
            Shown(Sweep(regs, stale, cutoff, next, sp).regs, key, sp)
  {
    hide Ready, PartKeeps, SweepDevices, Promotions, ExpireLocks, LockRemovals, Net, ShownIntent, ShownPresence;
    var devices := SweepDevices(regs, stale, next, sp);
    var pass := ExpireLocks(devices.regs.locks, SoftBefore(cutoff));
    var promotions := Promotions(devices.regs.locks, devices.expired, {}, sp);
    var removals, agedPromotions := LockRemovals(pass.1), Promotions(pass.0, pass.1, {}, sp);
    SweepDevicesKeep(regs, stale, next, ids, key, sp);
    PromotionTypes(devices.regs.locks, devices.expired, {}, sp);
    PromotionTypes(pass.0, pass.1, {}, sp);
    RemovalTypes(pass.1);
    LockPartsUnseen(devices.changes, promotions, removals, agedPromotions, key, sp);
  }

  /** A sweep announces exactly what it changes if and only if its age pass is safe. */
  lemma SweepCarriesIff(regs: Registries, stale: seq<string>, cutoff: int, next: nat, ids: set<string>, sp: Spelling)
    requires Ready(regs, next, ids, sp)
    ensures var swept := Sweep(regs, stale, cutoff, next, sp);
            Carries(swept.changes, regs, swept.regs, sp) <==>
            AgePassSafe(AfterHeartbeats(regs, stale, next, sp).locks, cutoff, sp)
  {
    var swept := Sweep(regs, stale, cutoff, next, sp);
    var devices := SweepDevices(regs, stale, next, sp);
    var middle := devices.regs.locks;
    var pass := ExpireLocks(middle, SoftBefore(cutoff));
    var bound := next + |devices.changes| - 1;
    SweepDevicesKeep(regs, stale, next, ids, ANY_SLOT, sp);
    PassKeepsGroups(middle, SoftBefore(cutoff), sp, bound, ids);
    if AgePassSafe(middle, cutoff, sp) {
      AgePassSwept(middle, cutoff, sp, bound, ids);
      forall key
        ensures Net(swept.changes, key, sp).On(Shown(regs, key, sp)) == Shown(swept.regs, key, sp)
      {
        if key.entryType == LockEntry {
          SweepLockNet(regs, stale, cutoff, next, ids, key, sp);
          NetConcat(LockRemovals(pass.1), Promotions(pass.0, pass.1, {}, sp), key, sp);
          PhaseCarries(middle, pass.0, pass.1, key, sp);
        } else {
          SweepOtherNet(regs, stale, cutoff, next, ids, key, sp);
        }
      }
    } else {
      var key := AgePassHidesWinner(middle, cutoff, sp, bound, ids);
      SweepLockNet(regs, stale, cutoff, next, ids, key, sp);
      NetConcat(LockRemovals(pass.1), Promotions(pass.0, pass.1, {}, sp), key, sp);
      assert Net(swept.changes, key, sp).On(Shown(regs, key, sp)) != Shown(swept.regs, key, sp);
    }
  }
}
