/** Expiry sweeps that announce nothing: exactly when a sweep is one, and what it drops. */
module SilentSweeps {
  import opened Protocol
  import opened JsMaps
  import opened Paths
  import opened Locks
  import opened LockProofs
  import opened Intents
  import opened Presences
  import opened Registries
  import opened HostProofs

  ghost predicate Maps(regs: Registries) {
    regs.locks.Valid() && regs.intents.Valid() && regs.presence.Valid()
  }

  // ----- One device -----

  ghost predicate NoneExpires(locks: Groups, expiry: Expiry) {
    forall g, c :: g in locks.data && c in locks.data[g] ==> !Expires(c, expiry)
  }

  ghost predicate NoneActive(presence: PresenceMap, deviceId: string) {
    forall k :: k in presence.data ==> !ActiveOn(presence.data[k], deviceId)
  }

  ghost predicate OnlyPathless(intents: IntentMap, deviceId: string) {
    forall id :: id in intents.data && intents.data[id].owner.deviceId == deviceId ==> Pathless(intents.data[id])
  }

  /** The device holds no claim, no live presence, and no intent that still names a path. */
  ghost predicate Quiet(regs: Registries, deviceId: string) {
    && NoneExpires(regs.locks, OfDevice(deviceId))
    && OnlyPathless(regs.intents, deviceId)
    && NoneActive(regs.presence, deviceId)
  }

  lemma NoneExpiresIff(locks: Groups, expiry: Expiry)
    requires locks.Valid()
    ensures ExpireLocks(locks, expiry).1 == [] <==> NoneExpires(locks, expiry)
  {
    hide Expires;
    ExpireGroupsReport(locks.keys, locks, expiry);
    var reported := ExpireLocks(locks, expiry).1;
    if reported != [] {
      assert reported[0] in reported;
    }
    if g, c :| g in locks.data && c in locks.data[g] && Expires(c, expiry) {
      assert g in locks.keys && c in reported;
    }
  }

  lemma NoneActiveIff(presence: PresenceMap, deviceId: string)
    requires presence.Valid()
    ensures ActiveForDevice(presence.keys, presence.data, deviceId) == [] <==> NoneActive(presence, deviceId)
  {
    hide ActiveOn;
    ActiveMembers(presence.keys, presence.data, deviceId);
    var active := ActiveForDevice(presence.keys, presence.data, deviceId);
    if active != [] {
      assert active[0] in active;
    }
    if k :| k in presence.data && ActiveOn(presence.data[k], deviceId) {
      assert k in presence.keys && presence.data[k] in active;
    }
  }

  lemma {:induction false} PathlessSilent(intents: seq<Intent>)
    requires forall i :: i in intents ==> Pathless(i)
    ensures AllIntentChanges(intents, Removed) == []
  {
    if intents != [] {
      assert intents[0] in intents && forall i :: i in intents[1..] ==> i in intents;
      PathlessSilent(intents[1..]);
      assert |IntentChanges(intents[0], Removed)| == |intents[0].modifyPaths| + |intents[0].createPaths|;
    }
  }

  lemma OnlyPathlessIff(intents: IntentMap, deviceId: string)
    requires intents.Valid()
    ensures AllIntentChanges(OwnedBy(intents.keys, intents.data, deviceId), Removed) == [] <==>
              OnlyPathless(intents, deviceId)
  {
    hide Pathless;
    var owned := OwnedBy(intents.keys, intents.data, deviceId);
    OwnedByMembers(intents.keys, intents.data, deviceId);
    if AllIntentChanges(owned, Removed) == [] {
      SilentIntents(owned);
      forall id | id in intents.data && intents.data[id].owner.deviceId == deviceId ensures Pathless(intents.data[id]) {
        assert id in intents.keys && intents.data[id] in owned;
      }
    }
    if OnlyPathless(intents, deviceId) {
      PathlessSilent(owned);
    }
  }

  /** A device's part of the sweep announces nothing exactly when the device is quiet. */
  lemma DeviceSilentIff(regs: Registries, deviceId: string, next: nat, sp: Spelling)
    requires Maps(regs)
    ensures SweepDevice(regs, deviceId, next, sp).changes == [] <==> Quiet(regs, deviceId)
  {
    hide ExpireLocks, OwnedBy, AllIntentChanges, ActiveForDevice, NoneExpires, OnlyPathless, NoneActive, Distinct;
    NoneExpiresIff(regs.locks, OfDevice(deviceId));
    NoneActiveIff(regs.presence, deviceId);
    OnlyPathlessIff(regs.intents, deviceId);
  }

  lemma DeviceSilentResult(regs: Registries, deviceId: string, next: nat, sp: Spelling)
    requires Maps(regs) && SweepDevice(regs, deviceId, next, sp).changes == []
    ensures SweepDevice(regs, deviceId, next, sp).regs == regs.(intents := ExpireIntents(regs.intents, deviceId))
    ensures ExpireIntents(regs.intents, deviceId).Valid()
  {
    hide ActiveForDevice, ExpireLocks, OwnedBy, KeepKeys, AllIntentChanges, Distinct;
    assert |LockRemovals(ExpireLocks(regs.locks, OfDevice(deviceId)).1)| ==
           |ExpireLocks(regs.locks, OfDevice(deviceId)).1|;
    NoneExpiredAtAll(regs.locks, OfDevice(deviceId));
    KeepKeysMembers(regs.intents.keys, regs.intents.data, deviceId);
  }

  lemma {:induction false} KeepAllKeys(keys: seq<string>, data: map<string, Intent>, deviceId: string)
    requires forall k :: k in keys ==> k in data && data[k].owner.deviceId != deviceId
    ensures KeepKeys(keys, data, deviceId) == keys
  {
    if keys != [] {
      assert keys[0] in keys && forall k :: k in keys[1..] ==> k in keys;
      KeepAllKeys(keys[1..], data, deviceId);
    }
  }

  lemma ExpireNothing(intents: IntentMap, deviceId: string)
    requires intents.Valid() && forall id :: id in intents.data ==> intents.data[id].owner.deviceId != deviceId
    ensures ExpireIntents(intents, deviceId) == intents
  {
    hide Distinct;
    KeepAllKeys(intents.keys, intents.data, deviceId);
    assert ExpireIntents(intents, deviceId).data == intents.data;
  }

  // ----- All stale devices -----

  ghost predicate AllQuiet(regs: Registries, devices: seq<string>) {
    forall d :: d in devices ==> Quiet(regs, d)
  }

  /** The intents that are not of these devices. */
  ghost function Spared(data: map<string, Intent>, devices: seq<string>): map<string, Intent> {
    map id | id in data && data[id].owner.deviceId !in devices :: data[id]
  }

  /** Dropping a quiet device's intents leaves the other devices as quiet as they were. */
  lemma QuietStays(regs: Registries, gone: string, other: string)
    requires Quiet(regs, gone)
    ensures Quiet(regs.(intents := ExpireIntents(regs.intents, gone)), other) <==> Quiet(regs, other)
  {
    hide NoneExpires, NoneActive, Pathless, KeepKeys;
    var after := ExpireIntents(regs.intents, gone);
    if OnlyPathless(after, other) {
      forall id | id in regs.intents.data && regs.intents.data[id].owner.deviceId == other
        ensures Pathless(regs.intents.data[id])
      {
        if other != gone { assert id in after.data; }
      }
    }
  }

  lemma {:induction false} DevicesSilentIff(regs: Registries, devices: seq<string>, next: nat, sp: Spelling)
    requires Maps(regs)
    ensures SweepDevices(regs, devices, next, sp).changes == [] <==> AllQuiet(regs, devices)
    decreases |devices|
  {
    hide SweepDevice, Quiet;
    if devices != [] {
      var first, rest := SweepDevice(regs, devices[0], next, sp), devices[1..];
      assert forall d :: d in devices <==> d == devices[0] || d in rest;
      DeviceSilentIff(regs, devices[0], next, sp);
      if first.changes == [] {
        DeviceSilentResult(regs, devices[0], next, sp);
        DevicesSilentIff(first.regs, rest, next, sp);
        forall d ensures Quiet(first.regs, d) <==> Quiet(regs, d) {
          QuietStays(regs, devices[0], d);
        }
      }
    }
  }

  lemma {:induction false} DevicesSilentResult(regs: Registries, devices: seq<string>, next: nat, sp: Spelling)
    requires Maps(regs) && SweepDevices(regs, devices, next, sp).changes == []
    ensures var after := SweepDevices(regs, devices, next, sp).regs;
            && after == regs.(intents := after.intents) && after.intents.data == Spared(regs.intents.data, devices)
            && (Spared(regs.intents.data, devices) == regs.intents.data ==> after == regs)
    decreases |devices|
  {
    hide SweepDevice, Distinct, KeepKeys;
    if devices != [] {
      var first, rest := SweepDevice(regs, devices[0], next, sp), devices[1..];
      assert forall d :: d in devices <==> d == devices[0] || d in rest;
      DeviceSilentResult(regs, devices[0], next, sp);
      DevicesSilentResult(first.regs, rest, next + |first.changes|, sp);
      assert Spared(first.regs.intents.data, rest) == Spared(regs.intents.data, devices);
      if Spared(regs.intents.data, devices) == regs.intents.data {
        forall id | id in regs.intents.data ensures regs.intents.data[id].owner.deviceId != devices[0] {
          assert id in Spared(regs.intents.data, devices);
        }
        ExpireNothing(regs.intents, devices[0]);
      }
    } else {
      assert Spared(regs.intents.data, []) == regs.intents.data;
    }
  }

  // ----- The whole sweep -----

  /** What makes a sweep silent, as its caller can check beforehand. */
  ghost predicate NothingToAnnounce(regs: Registries, stale: seq<string>, cutoff: int) {
    AllQuiet(regs, stale) && NoneExpires(regs.locks, SoftBefore(cutoff))
  }

  lemma SweepSilentIff(regs: Registries, stale: seq<string>, cutoff: int, next: nat, sp: Spelling)
    requires Maps(regs)
    ensures Sweep(regs, stale, cutoff, next, sp).changes == [] <==> NothingToAnnounce(regs, stale, cutoff)
  {
    hide SweepDevices, ExpireLocks, AllQuiet, NoneExpires, Spared, Distinct;
    DevicesSilentIff(regs, stale, next, sp);
    if SweepDevices(regs, stale, next, sp).changes == [] {
      var devices := SweepDevices(regs, stale, next, sp);
      DevicesSilentResult(regs, stale, next, sp);
      SilentReleasesNothing(regs, stale, next, sp);
      NoneExpiresIff(regs.locks, SoftBefore(cutoff));
      var aged := ExpireLocks(regs.locks, SoftBefore(cutoff));
      assert |LockRemovals(aged.1)| == |aged.1|;
    }
  }

  lemma {:induction false} SilentReleasesNothing(regs: Registries, devices: seq<string>, next: nat, sp: Spelling)
    requires SweepDevices(regs, devices, next, sp).changes == []
    ensures SweepDevices(regs, devices, next, sp).expired == []
    decreases |devices|
  {
    hide ExpireLocks, OwnedBy, AllIntentChanges, ActiveForDevice, StopAll;
    if devices != [] {
      var first := SweepDevice(regs, devices[0], next, sp);
      assert |LockRemovals(first.expired)| == |first.expired|;
      SilentReleasesNothing(first.regs, devices[1..], next + |first.changes|, sp);
    }
  }

  /** A silent sweep changes nothing but the intents, of which exactly those of the stale
      devices go; and it changes nothing at all exactly when there are none. */
  lemma SilentSweepDropsExactly(regs: Registries, stale: seq<string>, cutoff: int, next: nat, sp: Spelling)
    requires Maps(regs) && Sweep(regs, stale, cutoff, next, sp).changes == []
    ensures var after := Sweep(regs, stale, cutoff, next, sp).regs;
            && after == regs.(intents := after.intents) && after.intents.data == Spared(regs.intents.data, stale)
            && (after == regs <==>
                  forall id :: id in regs.intents.data ==> regs.intents.data[id].owner.deviceId !in stale)
  {
    hide SweepDevices, ExpireLocks, Distinct;
    DevicesSilentResult(regs, stale, next, sp);
    var devices := SweepDevices(regs, stale, next, sp);
    var aged := ExpireLocks(devices.regs.locks, SoftBefore(cutoff));
    assert |LockRemovals(aged.1)| == |aged.1|;
    NoneExpiredAtAll(devices.regs.locks, SoftBefore(cutoff));
    assert devices.regs.(locks := aged.0) == devices.regs;
    if forall id :: id in regs.intents.data ==> regs.intents.data[id].owner.deviceId !in stale {
      assert Spared(regs.intents.data, stale) == regs.intents.data;
    }
    if devices.regs == regs {
      forall id | id in regs.intents.data ensures regs.intents.data[id].owner.deviceId !in stale {
        assert id in Spared(regs.intents.data, stale);
      }
    }
  }
}
