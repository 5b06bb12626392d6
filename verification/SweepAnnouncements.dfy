/** What an expiry sweep announces, change by change. */
module SweepAnnouncements {
  import opened Protocol
  import opened Paths
  import opened Locks
  import opened LockProofs
  import opened Intents
  import opened Presences
  import opened Registries
  import opened States
  import opened SilentSweeps
  import opened ClaimEffects
  import opened EntryEffects
  import opened Announcements

  // ----- What is taken away -----

  ghost predicate ClaimGone(groups: Groups, expiry: Expiry, c: Change) {
    exists group, bare ::
      Claimed(groups, group, bare) && Expires(bare, expiry)
      && c == Change(LockEntry, Removed, bare.scope, bare.holder, None)
  }

  lemma PassTells(groups: Groups, expiry: Expiry, sp: Spelling, c: Change)
    requires LocksValid(groups, sp)
    ensures c in LockRemovals(ExpireLocks(groups, expiry).1) <==> ClaimGone(groups, expiry, c)
  {
    hide LocksValid, ExpireLocks;
    var expired := ExpireLocks(groups, expiry).1;
    if c in LockRemovals(expired) {
      var i :| 0 <= i < |expired| && c == LockChange(expired[i], Removed);
      var claim := expired[i];
      ReportedGroup(groups, expiry, claim, sp);
      var group := KeyOfScope(claim.scope, claim.kind, sp);
      assert claim in groups.data[group];
      assert Claimed(groups, group, Bare(claim));
    }
    if group, bare :| Claimed(groups, group, bare) && Expires(bare, expiry)
                      && c == Change(LockEntry, Removed, bare.scope, bare.holder, None)
    {
      var i :| 0 <= i < |groups.data[group]| && Bare(groups.data[group][i]) == bare;
      var claim := groups.data[group][i];
      InItsGroup(groups, group, i, sp);
      ReportedGroup(groups, expiry, claim, sp);
      var j :| 0 <= j < |expired| && expired[j] == claim;
      assert LockRemovals(expired)[j] == c;
    }
  }

  lemma InItsGroup(groups: Groups, group: GroupKey, i: nat, sp: Spelling)
    requires LocksValid(groups, sp) && group in groups.data && i < |groups.data[group]|
    ensures KeyOfScope(groups.data[group][i].scope, groups.data[group][i].kind, sp) == group
  {
    assert GroupValid(group, groups.data[group], sp);
  }

  ghost predicate IntentGone(intents: map<string, Intent>, devices: seq<string>, c: Change) {
    exists id :: id in intents && intents[id].owner.deviceId in devices && TellsAll(intents[id], Removed, c)
  }

  lemma {:induction false} AllIntentsTell(intents: seq<Intent>, c: Change)
    ensures c in AllIntentChanges(intents, Removed) <==> exists i :: i in intents && TellsAll(i, Removed, c)
  {
    hide TellsAll, IntentChanges;
    if intents != [] {
      AllIntentsTell(intents[1..], c);
      IntentChangesTell(intents[0], Removed, c);
      assert forall i :: i in intents <==> i == intents[0] || i in intents[1..];
    }
  }

  lemma OwnedTell(intents: IntentMap, deviceId: string, c: Change)
    requires intents.Valid()
    ensures c in AllIntentChanges(OwnedBy(intents.keys, intents.data, deviceId), Removed) <==>
            IntentGone(intents.data, [deviceId], c)
  {
    hide TellsAll;
    AllIntentsTell(OwnedBy(intents.keys, intents.data, deviceId), c);
    OwnedByMembers(intents.keys, intents.data, deviceId);
    assert forall id :: id in intents.keys <==> id in intents.data;
  }

  ghost predicate ReportGone(presence: map<PresenceKey, PresenceRecord>, devices: seq<string>, c: Change) {
    exists k ::
      k in presence && presence[k].state != Stopped && presence[k].member.deviceId in devices
      && c == Change(PresenceEntry, Removed, presence[k].path, presence[k].member, None)
  }

  lemma ActiveTell(presence: PresenceMap, deviceId: string, c: Change)
    requires presence.Valid()
    ensures c in PresenceRemovals(ActiveForDevice(presence.keys, presence.data, deviceId)) <==>
            ReportGone(presence.data, [deviceId], c)
  {
    var active := ActiveForDevice(presence.keys, presence.data, deviceId);
    ActiveMembers(presence.keys, presence.data, deviceId);
    if c in PresenceRemovals(active) {
      var i :| 0 <= i < |active| && c == PresenceChange(active[i].member, active[i].path, Removed);
      assert active[i] in active;
      var k :| k in presence.keys && k in presence.data && presence.data[k] == active[i];
      assert k in presence.data
             && c == Change(PresenceEntry, Removed, presence.data[k].path, presence.data[k].member, None);
    }
    if k :| k in presence.data && presence.data[k].state != Stopped && presence.data[k].member.deviceId in [deviceId]
            && c == Change(PresenceEntry, Removed, presence.data[k].path, presence.data[k].member, None)
    {
      assert k in presence.keys && presence.data[k] in active;
      var i :| 0 <= i < |active| && active[i] == presence.data[k];
      assert PresenceRemovals(active)[i] == c;
    }
  }

  // ----- The device passes -----

  ghost predicate StaleClaimGone(groups: Groups, devices: seq<string>, c: Change) {
    exists group, bare ::
      Claimed(groups, group, bare) && Stale(bare, devices)
      && c == Change(LockEntry, Removed, bare.scope, bare.holder, None)
  }

  /** What stale devices lose: their claims, their intents and their live presence. */
  ghost predicate StaleGone(regs: Registries, devices: seq<string>, c: Change) {
    || StaleClaimGone(regs.locks, devices, c)
    || IntentGone(regs.intents.data, devices, c)
    || ReportGone(regs.presence.data, devices, c)
  }

  lemma DeviceTells(regs: Registries, deviceId: string, next: nat, ids: set<string>, sp: Spelling, c: Change)
    requires Sound(regs, next, ids, sp)
    ensures c in SweepDevice(regs, deviceId, next, sp).changes <==> StaleGone(regs, [deviceId], c)
  {
    hide LocksValid, Bounded, IntentsBounded, PresenceBounded, ExpireLocks, ClaimGone, IntentGone, ReportGone,
         AllIntentChanges, LockRemovals, PresenceRemovals, StopAll, ExpireIntents;
    PassTells(regs.locks, OfDevice(deviceId), sp, c);
    OwnedTell(regs.intents, deviceId, c);
    ActiveTell(regs.presence, deviceId, c);
    OneDevice(regs.locks, deviceId, c);
  }

  lemma OneDevice(groups: Groups, deviceId: string, c: Change)
    ensures ClaimGone(groups, OfDevice(deviceId), c) <==> StaleClaimGone(groups, [deviceId], c)
  {
    hide Claimed;
    if ClaimGone(groups, OfDevice(deviceId), c) {
      var group, bare :| Claimed(groups, group, bare) && Expires(bare, OfDevice(deviceId))
                         && c == Change(LockEntry, Removed, bare.scope, bare.holder, None);
      assert Stale(bare, [deviceId]);
    }
    if StaleClaimGone(groups, [deviceId], c) {
      var group, bare :| Claimed(groups, group, bare) && Stale(bare, [deviceId])
                         && c == Change(LockEntry, Removed, bare.scope, bare.holder, None);
      assert Expires(bare, OfDevice(deviceId));
    }
  }

  lemma ClaimsGoneNext(before: Groups, after: Groups, device: string, rest: seq<string>, c: Change)
    requires forall group, bare :: Claimed(after, group, bare) <==>
               Claimed(before, group, bare) && !Stale(bare, [device])
    ensures StaleClaimGone(before, [device] + rest, c) <==>
            StaleClaimGone(before, [device], c) || StaleClaimGone(after, rest, c)
  {
    hide Claimed;
    assert forall bare :: Stale(bare, [device] + rest) <==> Stale(bare, [device]) || Stale(bare, rest);
  }

  lemma IntentsGoneNext(before: map<string, Intent>, after: map<string, Intent>, device: string, rest: seq<string>,
                        c: Change)
    requires after == Spared(before, [device])
    ensures IntentGone(before, [device] + rest, c) <==> IntentGone(before, [device], c) || IntentGone(after, rest, c)
  {
    hide TellsAll;
    assert forall d :: d in [device] + rest <==> d == device || d in rest;
    assert forall id :: id in after <==> id in before && before[id].owner.deviceId != device;
    if id :| id in before && before[id].owner.deviceId in [device] + rest && TellsAll(before[id], Removed, c) {
      if before[id].owner.deviceId != device { assert id in after && TellsAll(after[id], Removed, c); }
    }
  }

  lemma ReportsGoneNext(before: map<PresenceKey, PresenceRecord>, after: map<PresenceKey, PresenceRecord>,
                        device: string, rest: seq<string>, c: Change)
    requires after.Keys == before.Keys && forall k :: k in before ==> StoppedIf(before[k], after[k], device)
    ensures ReportGone(before, [device] + rest, c) <==> ReportGone(before, [device], c) || ReportGone(after, rest, c)
  {
    forall k | k in before
      ensures after[k].state != Stopped && after[k].member.deviceId in rest <==>
              before[k].state != Stopped && before[k].member.deviceId in rest && before[k].member.deviceId != device
    {
    }
    assert forall k :: k in before && after[k].state != Stopped ==> after[k] == before[k];
  }

  lemma {:induction false} DevicesTell(regs: Registries, devices: seq<string>, next: nat, ids: set<string>,
                                       sp: Spelling, c: Change)
    requires Sound(regs, next, ids, sp)
    ensures c in SweepDevices(regs, devices, next, sp).changes <==> StaleGone(regs, devices, c)
    decreases |devices|
  {
    hide Sound, SweepDevice, StaleClaimGone, IntentGone, ReportGone;
    if devices != [] {
      var first, rest := SweepDevice(regs, devices[0], next, sp), devices[1..];
      assert devices == [devices[0]] + rest;
      SweepDeviceSound(regs, devices[0], next, ids, sp);
      DeviceTells(regs, devices[0], next, ids, sp, c);
      DevicesTell(first.regs, rest, next + |first.changes|, ids, sp, c);
      DeviceLeaves(regs, devices[0], next, ids, sp);
      ClaimsGoneNext(regs.locks, first.regs.locks, devices[0], rest, c);
      IntentsGoneNext(regs.intents.data, first.regs.intents.data, devices[0], rest, c);
      ReportsGoneNext(regs.presence.data, first.regs.presence.data, devices[0], rest, c);
    } else {
      NoDevice(regs, c);
    }
  }

  lemma NoDevice(regs: Registries, c: Change)
    ensures !StaleGone(regs, [], c)
  {
    hide Claimed, TellsAll;
    assert !StaleClaimGone(regs.locks, [], c);
    assert !IntentGone(regs.intents.data, [], c);
    assert !ReportGone(regs.presence.data, [], c);
  }

  lemma DeviceLeaves(regs: Registries, deviceId: string, next: nat, ids: set<string>, sp: Spelling)
    requires Sound(regs, next, ids, sp)
    ensures var after := SweepDevice(regs, deviceId, next, sp).regs;
            && (forall group, bare :: Claimed(after.locks, group, bare) <==>
                  Claimed(regs.locks, group, bare) && !Stale(bare, [deviceId]))
            && after.intents.data == Spared(regs.intents.data, [deviceId])
            && after.presence.data.Keys == regs.presence.data.Keys
            && (forall k :: k in regs.presence.data ==>
                  StoppedIf(regs.presence.data[k], after.presence.data[k], deviceId))
  {
    hide LocksValid, Bounded, IntentsBounded, PresenceBounded, ExpireLocks, Claimed, StoppedIf, StopAll,
         AllIntentChanges;
    DeviceEntries(regs, deviceId, next, sp);
    forall group, bare
      ensures Claimed(SweepDevice(regs, deviceId, next, sp).regs.locks, group, bare) <==>
              Claimed(regs.locks, group, bare) && !Stale(bare, [deviceId])
    {
      PassClaims(regs.locks, OfDevice(deviceId), sp, group, bare);
    }
  }

  // ----- Promotions -----

  /** A claim that its group showed was taken from it. */
  ghost predicate LostWinner(removed: seq<Lock>, group: GroupKey, sp: Spelling) {
    exists e :: e in removed && !e.concurrent && KeyOfScope(e.scope, e.kind, sp) == group
  }

  /** The change announces what the group shows now. */
  ghost predicate Shows(groups: Groups, group: GroupKey, c: Change) {
    Holder(groups, group) != None
    && c == Change(LockEntry, Added, Holder(groups, group).value.scope, Holder(groups, group).value.holder, None)
  }

  lemma {:induction false} PromotionsTell(groups: Groups, removed: seq<Lock>, emitted: set<string>, sp: Spelling,
                                          c: Change)
    requires LocksValid(groups, sp)
    ensures c in Promotions(groups, removed, emitted, sp) <==>
            exists group ::
              LostWinner(removed, group, sp) && Shows(groups, group, c)
              && Holder(groups, group).value.lockId !in emitted
    decreases |removed|
  {
    hide LocksValid, Holder;
    if removed != [] {
      var lock, rest := removed[0], removed[1..];
      var own := KeyOfScope(lock.scope, lock.kind, sp);
      var winner := Holder(groups, own);
      forall group
        ensures LostWinner(removed, group, sp) <==> (!lock.concurrent && group == own) || LostWinner(rest, group, sp)
      {
        LostFirst(lock, rest, group, sp);
        assert removed == [lock] + rest;
      }
      hide LostWinner;
      if lock.concurrent || winner.None? || winner.value.lockId in emitted {
        PromotionsTell(groups, rest, emitted, sp, c);
      } else {
        PromotionsTell(groups, rest, emitted + {winner.value.lockId}, sp, c);
        forall group | group != own && Holder(groups, group).Some?
          ensures Holder(groups, group).value.lockId != winner.value.lockId
        {
          HoldersDiffer(groups, own, group, sp);
        }
        assert c == LockChange(winner.value, Added) <==> Shows(groups, own, c);
      }
    }
  }

  lemma LostFirst(lock: Lock, rest: seq<Lock>, group: GroupKey, sp: Spelling)
    ensures LostWinner([lock] + rest, group, sp) <==>
            (!lock.concurrent && group == KeyOfScope(lock.scope, lock.kind, sp)) || LostWinner(rest, group, sp)
  {
    assert forall e :: e in [lock] + rest <==> e == lock || e in rest;
  }

  /** A group lost its winner in a pass if and only if the pass takes that claim. */
  lemma PassLoses(groups: Groups, expiry: Expiry, sp: Spelling, bound: nat, ids: set<string>, group: GroupKey)
    requires LocksValid(groups, sp) && Bounded(groups, bound, ids)
    ensures LostWinner(ExpireLocks(groups, expiry).1, group, sp) <==>
            Holder(groups, group) != None && Expires(Holder(groups, group).value, expiry)
  {
    hide LocksValid, Bounded, ExpireLocks, Holder, Expires;
    HolderIsWinner(groups, group, sp);
    ExpireMovesWinner(groups, expiry, group, sp, bound, ids);
  }

  lemma DeviceLoses(regs: Registries, deviceId: string, next: nat, ids: set<string>, sp: Spelling, group: GroupKey)
    requires Sound(regs, next, ids, sp)
    ensures var first := SweepDevice(regs, deviceId, next, sp); var winner := Holder(regs.locks, group);
            && (LostWinner(first.expired, group, sp) <==> winner != None && winner.value.holder.deviceId == deviceId)
            && (winner == None || winner.value.holder.deviceId != deviceId ==>
                  Holder(first.regs.locks, group) == winner)
  {
    SoundLocks(regs, next, ids, sp);
    hide Sound, LocksValid, Bounded, Holder, LostWinner, ExpireLocks, StopAll, AllIntentChanges, ExpireIntents;
    PassLoses(regs.locks, OfDevice(deviceId), sp, next - 1, ids, group);
    ExpireMovesWinner(regs.locks, OfDevice(deviceId), group, sp, next - 1, ids);
  }

  lemma {:induction false} DevicesLose(regs: Registries, devices: seq<string>, next: nat, ids: set<string>,
                                       sp: Spelling, group: GroupKey)
    requires Sound(regs, next, ids, sp)
    ensures LostWinner(SweepDevices(regs, devices, next, sp).expired, group, sp) <==>
            Holder(regs.locks, group) != None && Stale(Holder(regs.locks, group).value, devices)
    decreases |devices|
  {
    hide Sound, Holder, LostWinner, SweepDevice;
    if devices != [] {
      var first, rest := SweepDevice(regs, devices[0], next, sp), devices[1..];
      var later := SweepDevices(first.regs, rest, next + |first.changes|, sp);
      SweepDeviceSound(regs, devices[0], next, ids, sp);
      DeviceLoses(regs, devices[0], next, ids, sp, group);
      DevicesLose(first.regs, rest, next + |first.changes|, ids, sp, group);
      LostEither(first.expired, later.expired, group, sp);
      assert devices == [devices[0]] + rest;
    } else {
      NothingLost(group, sp);
    }
  }

  lemma NothingLost(group: GroupKey, sp: Spelling)
    ensures !LostWinner([], group, sp)
  {
  }

  lemma SoundLocks(regs: Registries, next: nat, ids: set<string>, sp: Spelling)
    requires Sound(regs, next, ids, sp)
    ensures next > 0 && LocksValid(regs.locks, sp) && Bounded(regs.locks, next - 1, ids)
  {
    hide LocksValid, Bounded;
  }

  lemma LostEither(a: seq<Lock>, b: seq<Lock>, group: GroupKey, sp: Spelling)
    ensures LostWinner(a + b, group, sp) <==> LostWinner(a, group, sp) || LostWinner(b, group, sp)
  {
    assert forall e :: e in a + b <==> e in a || e in b;
  }

  /** A scope shows its next claim, because the one that it showed was of a stale device. */
  ghost predicate NextAfterStale(before: Groups, after: Groups, stale: seq<string>, c: Change) {
    exists group ::
      Holder(before, group) != None && Stale(Holder(before, group).value, stale) && Shows(after, group, c)
  }

  /** A scope shows its next claim, because the one that it showed was too old. */
  ghost predicate NextAfterAged(before: Groups, after: Groups, cutoff: int, c: Change) {
    exists group ::
      Holder(before, group) != None && Aged(Holder(before, group).value, cutoff) && Shows(after, group, c)
  }

  ghost predicate NextAfterLoss(after: Groups, removed: seq<Lock>, sp: Spelling, c: Change) {
    exists group :: LostWinner(removed, group, sp) && Shows(after, group, c)
  }

  lemma PhaseTells(after: Groups, removed: seq<Lock>, sp: Spelling, c: Change)
    requires LocksValid(after, sp)
    ensures c in Promotions(after, removed, {}, sp) <==> NextAfterLoss(after, removed, sp, c)
  {
    hide LocksValid, LostWinner, Shows, Holder;
    PromotionsTell(after, removed, {}, sp, c);
  }

  // ----- The whole sweep -----

  ghost predicate AgedClaimGone(groups: Groups, cutoff: int, c: Change) {
    exists group, bare ::
      Claimed(groups, group, bare) && Aged(bare, cutoff)
      && c == Change(LockEntry, Removed, bare.scope, bare.holder, None)
  }

  /** What has to be announced with a sweep. The device passes take everything of stale devices; every
      scope whose shown claim they took shows the next one. The age pass then takes soft claims that
      are too old, and again every scope whose shown claim it took shows the next one. */
  ghost predicate SweepTells(before: Registries, middle: Groups, after: Groups, stale: seq<string>, cutoff: int,
                             c: Change)
  {
    || StaleGone(before, stale, c)
    || NextAfterStale(before.locks, middle, stale, c)
    || AgedClaimGone(middle, cutoff, c)
    || NextAfterAged(middle, after, cutoff, c)
  }

  lemma AgedTell(groups: Groups, cutoff: int, sp: Spelling, c: Change)
    requires LocksValid(groups, sp)
    ensures c in LockRemovals(ExpireLocks(groups, SoftBefore(cutoff)).1) <==> AgedClaimGone(groups, cutoff, c)
  {
    hide LocksValid, Claimed;
    PassTells(groups, SoftBefore(cutoff), sp, c);
    assert forall bare :: Expires(bare, SoftBefore(cutoff)) <==> Aged(bare, cutoff);
  }

  lemma StaleLoss(before: Groups, after: Groups, removed: seq<Lock>, stale: seq<string>, sp: Spelling, c: Change)
    requires forall group ::
               LostWinner(removed, group, sp)
               <==> Holder(before, group) != None && Stale(Holder(before, group).value, stale)
    ensures NextAfterLoss(after, removed, sp, c) <==> NextAfterStale(before, after, stale, c)
  {
    hide LostWinner, Stale, Shows, Holder;
  }

  lemma AgedLoss(before: Groups, after: Groups, removed: seq<Lock>, cutoff: int, sp: Spelling, c: Change)
    requires forall group ::
               LostWinner(removed, group, sp)
               <==> Holder(before, group) != None && Aged(Holder(before, group).value, cutoff)
    ensures NextAfterLoss(after, removed, sp, c) <==> NextAfterAged(before, after, cutoff, c)
  {
    hide LostWinner, Aged, Shows, Holder;
  }

  lemma DevicesPromote(regs: Registries, stale: seq<string>, next: nat, ids: set<string>, sp: Spelling, c: Change)
    requires Sound(regs, next, ids, sp)
    ensures var devices := SweepDevices(regs, stale, next, sp);
            c in Promotions(devices.regs.locks, devices.expired, {}, sp) <==>
            NextAfterStale(regs.locks, devices.regs.locks, stale, c)
  {
    hide *;
    var devices := SweepDevices(regs, stale, next, sp);
    SweepDevicesSound(regs, stale, next, ids, sp);
    SoundLocks(devices.regs, next + |devices.changes|, ids, sp);
    PhaseTells(devices.regs.locks, devices.expired, sp, c);
    forall group
      ensures LostWinner(devices.expired, group, sp) <==>
              Holder(regs.locks, group) != None && Stale(Holder(regs.locks, group).value, stale)
    {
      DevicesLose(regs, stale, next, ids, sp, group);
    }
    StaleLoss(regs.locks, devices.regs.locks, devices.expired, stale, sp, c);
  }

  lemma AgedPromote(groups: Groups, cutoff: int, sp: Spelling, bound: nat, ids: set<string>, c: Change)
    requires LocksValid(groups, sp) && Bounded(groups, bound, ids)
    ensures var (after, aged) := ExpireLocks(groups, SoftBefore(cutoff));
            c in Promotions(after, aged, {}, sp) <==> NextAfterAged(groups, after, cutoff, c)
  {
    var (after, aged) := ExpireLocks(groups, SoftBefore(cutoff));
    AgedLosses(groups, cutoff, sp, bound, ids);
    hide *;
    ExpireLocksKeep(groups, SoftBefore(cutoff), sp, bound, ids);
    PhaseTells(after, aged, sp, c);
    AgedLoss(groups, after, aged, cutoff, sp, c);
  }

  lemma AgedLosses(groups: Groups, cutoff: int, sp: Spelling, bound: nat, ids: set<string>)
    requires LocksValid(groups, sp) && Bounded(groups, bound, ids)
    ensures forall group ::
              LostWinner(ExpireLocks(groups, SoftBefore(cutoff)).1, group, sp)
              <==> Holder(groups, group) != None && Aged(Holder(groups, group).value, cutoff)
  {
    hide LocksValid, Bounded, ExpireLocks, Holder, LostWinner;
    forall group
      ensures LostWinner(ExpireLocks(groups, SoftBefore(cutoff)).1, group, sp)
         <==> Holder(groups, group) != None && Aged(Holder(groups, group).value, cutoff)
    {
      PassLoses(groups, SoftBefore(cutoff), sp, bound, ids, group);
    }
  }

  /** A sweep announces its four parts one after the other. */
  lemma SweepParts(regs: Registries, stale: seq<string>, cutoff: int, next: nat, sp: Spelling)
    ensures var r, devices := Sweep(regs, stale, cutoff, next, sp), SweepDevices(regs, stale, next, sp);
            var (after, aged) := ExpireLocks(devices.regs.locks, SoftBefore(cutoff));
            && r.regs.locks == after
            && r.changes == devices.changes + Promotions(devices.regs.locks, devices.expired, {}, sp)
                            + LockRemovals(aged) + Promotions(after, aged, {}, sp)
  {
    hide SweepDevices, ExpireLocks, Promotions, LockRemovals;
  }

  lemma PartsTell(regs: Registries, stale: seq<string>, cutoff: int, next: nat, sp: Spelling, c: Change)
    ensures var r, devices := Sweep(regs, stale, cutoff, next, sp), SweepDevices(regs, stale, next, sp);
            var (after, aged) := ExpireLocks(devices.regs.locks, SoftBefore(cutoff));
            && (c in r.changes <==>
                  c in devices.changes || c in Promotions(devices.regs.locks, devices.expired, {}, sp)
                  || c in LockRemovals(aged) || c in Promotions(after, aged, {}, sp))
            && (SweepTells(regs, devices.regs.locks, r.regs.locks, stale, cutoff, c) <==>
                  StaleGone(regs, stale, c) || NextAfterStale(regs.locks, devices.regs.locks, stale, c)
                  || AgedClaimGone(devices.regs.locks, cutoff, c)
                  || NextAfterAged(devices.regs.locks, after, cutoff, c))
  {
    SweepParts(regs, stale, cutoff, next, sp);
    hide Sweep, SweepDevices, ExpireLocks, Promotions, LockRemovals, StaleGone, NextAfterStale, AgedClaimGone,
         NextAfterAged;
  }

  /** A change is announced with a sweep if and only if it has to be: in particular a claim is
      announced as removed only if it was, and a scope's next claim only if its shown one was. */
  lemma SweepAnnouncesIff(regs: Registries, stale: seq<string>, cutoff: int, next: nat, ids: set<string>, sp: Spelling,
                          c: Change)
    requires Sound(regs, next, ids, sp)
    ensures c in Sweep(regs, stale, cutoff, next, sp).changes <==>
            SweepTells(regs, SweepDevices(regs, stale, next, sp).regs.locks,
                       Sweep(regs, stale, cutoff, next, sp).regs.locks, stale, cutoff, c)
  {
    hide *;
    var devices := SweepDevices(regs, stale, next, sp);
    var start := next + |devices.changes|;
    SweepDevicesSound(regs, stale, next, ids, sp);
    SoundLocks(devices.regs, start, ids, sp);
    PartsTell(regs, stale, cutoff, next, sp, c);
    DevicesTell(regs, stale, next, ids, sp, c);
    DevicesPromote(regs, stale, next, ids, sp, c);
    AgedTell(devices.regs.locks, cutoff, sp, c);
    AgedPromote(devices.regs.locks, cutoff, sp, start - 1, ids, c);
  }
}
