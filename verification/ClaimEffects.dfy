/** Which claims every event and every sweep leaves in the lock registry, stated on the fields of
    the claims: no operation touches a claim that it is not about. */
module ClaimEffects {
  import opened Protocol
  import opened Paths
  import opened Locks
  import opened LockProofs
  import opened Intents
  import opened Presences
  import opened Registries
  import opened ClaimOrder

  /** A claim without the flag that the resolver sets. */
  ghost function Bare(claim: Lock): Lock {
    claim.(concurrent := false)
  }

  ghost predicate Among(claims: seq<Lock>, bare: Lock) {
    exists i :: 0 <= i < |claims| && Bare(claims[i]) == bare
  }

  /** The registry holds this claim in this group. */
  ghost predicate Claimed(groups: Groups, group: GroupKey, bare: Lock) {
    group in groups.data && Among(groups.data[group], bare)
  }

  lemma ResolvedBare(claims: seq<Lock>, bare: Lock)
    ensures Among(Resolved(claims), bare) <==> Among(claims, bare)
  {
    if claims != [] {
      assert forall i :: 0 <= i < |claims| ==> Bare(Resolved(claims)[i]) == Bare(claims[i]);
    }
  }

  lemma PutClaims(groups: Groups, key: GroupKey, claims: seq<Lock>, group: GroupKey, bare: Lock)
    ensures Claimed(PutGroup(groups, key, claims), group, bare) <==>
            if group == key then Among(claims, bare) else Claimed(groups, group, bare)
  {
    ResolvedBare(claims, bare);
  }

  lemma AppendAmong(claims: seq<Lock>, last: Lock, bare: Lock)
    ensures Among(claims + [last], bare) <==> Among(claims, bare) || Bare(last) == bare
  {
    var all := claims + [last];
    if i :| 0 <= i < |claims| && Bare(claims[i]) == bare { assert all[i] == claims[i]; }
    assert all[|claims|] == last;
  }

  /** Removing one of several claims with distinct ids. */
  lemma RemoveAmong(claims: seq<Lock>, i: nat, bare: Lock)
    requires i < |claims| && IdsDistinct(claims)
    ensures Among(RemoveAt(claims, i), bare) <==> Among(claims, bare) && bare != Bare(claims[i])
  {
    var rest := RemoveAt(claims, i);
    if k :| 0 <= k < |claims| && k != i && Bare(claims[k]) == bare {
      assert rest[if k < i then k else k - 1] == claims[k];
    }
  }

  // ----- Acquiring -----

  lemma AcquireClaims(groups: Groups, request: Lock, sp: Spelling, group: GroupKey, bare: Lock)
    requires !request.concurrent
    ensures var key := KeyOfScope(request.scope, request.kind, sp);
            Claimed(Acquire(groups, request, sp).groups, group, bare) <==>
            || Claimed(groups, group, bare)
            || (group == key && bare == request
                && forall c :: c in groups.Get(key, []) ==> c.holder.memberId != request.holder.memberId)
  {
    hide WinnerIndex, Resolved;
    var key := KeyOfScope(request.scope, request.kind, sp);
    var claims := groups.Get(key, []);
    var all := if ClaimOf(claims, request.holder.memberId).Some? then claims else claims + [request];
    ResolvedBare(all, bare);
    AppendAmong(claims, request, bare);
  }

  // ----- What one event does to the claims -----

  /** The earliest claim of the member in the group. */
  ghost predicate Earliest(groups: Groups, group: GroupKey, memberId: string, bare: Lock) {
    && Claimed(groups, group, bare) && bare.holder.memberId == memberId
    && forall other :: Claimed(groups, group, other) && other.holder.memberId == memberId ==>
         bare.eventRevision <= other.eventRevision
  }

  lemma HeldIsEarliest(groups: Groups, key: GroupKey, memberId: string, bare: Lock)
    requires AllInOrder(groups)
    ensures Earliest(groups, key, memberId, bare) <==>
              Holds(groups, key, memberId) && bare == Bare(HeldClaim(groups, key, memberId))
  {
    if Holds(groups, key, memberId) {
      var claims := groups.data[key];
      var i := ClaimOf(claims, memberId).value;
      assert InOrder(claims);
      assert Claimed(groups, key, Bare(claims[i]));
      if Earliest(groups, key, memberId, bare) {
        var k :| 0 <= k < |claims| && Bare(claims[k]) == bare;
      }
    }
  }

  ghost predicate NoneHeld(groups: Groups, group: GroupKey, memberId: string) {
    forall bare :: Claimed(groups, group, bare) ==> bare.holder.memberId != memberId
  }

  lemma NotHeld(groups: Groups, key: GroupKey, memberId: string)
    ensures Holds(groups, key, memberId) <==> !NoneHeld(groups, key, memberId)
    ensures (forall c :: c in groups.Get(key, []) ==> c.holder.memberId != memberId) <==>
              NoneHeld(groups, key, memberId)
  {
    var claims := groups.Get(key, []);
    if c :| c in claims && c.holder.memberId == memberId {
      var i :| 0 <= i < |claims| && claims[i] == c;
      assert Claimed(groups, key, Bare(claims[i]));
    }
    if ClaimOf(claims, memberId).Some? {
      assert Claimed(groups, key, Bare(claims[ClaimOf(claims, memberId).value]));
    }
  }

  /** The claim that an event adds, if any: an acquisition or an override where its member has none
      yet, with the event's own id, revision and time; a rename carries its member's earliest claim
      along, with the new path and revision. */
  ghost predicate Adds(groups: Groups, event: Event, revision: nat, now: int, sp: Spelling, group: GroupKey, bare: Lock)
  {
    match event.payload
    case LockAcquire(scope, kind, mode) =>
      && group == KeyOfScope(scope, kind, sp) && NoneHeld(groups, group, event.member.memberId)
      && bare == Lock(event.eventId, scope, kind, mode, event.member, revision, now, false)
    case LockOverride(scope, kind, mode, _) =>
      && group == KeyOfScope(scope, kind, sp) && NoneHeld(groups, group, event.member.memberId)
      && bare == Lock(event.eventId, scope, kind, mode, event.member, revision, now, false)
    case PathRenamed(fromPath, toPath) =>
      && group == KeyOfScope(toPath, File, sp)
      && exists old_ ::
        && Earliest(groups, KeyOfScope(fromPath, File, sp), event.member.memberId, old_)
        && bare == old_.(scope := toPath, eventRevision := revision)
    case _ => false
  }

  /** And the claim that it takes away: a release takes the winner of the scope that it names, by
      the scope or by the id of one of its claims; a rename and a deletion take their member's
      earliest claim on the path. */
  ghost predicate Takes(groups: Groups, event: Event, sp: Spelling, group: GroupKey, bare: Lock) {
    match event.payload
    case LockRelease(target) =>
      && Names(groups, target, sp, group)
      && Holder(groups, group) == Option.Some(bare)
    case PathRenamed(fromPath, _) =>
      group == KeyOfScope(fromPath, File, sp) && Earliest(groups, group, event.member.memberId, bare)
    case PathDeleted(path) =>
      group == KeyOfScope(path, File, sp) && Earliest(groups, group, event.member.memberId, bare)
    case _ => false
  }

  /** The group is the first one that the release request names. */
  ghost predicate Names(groups: Groups, target: ReleaseTarget, sp: Spelling, group: GroupKey) {
    exists i ::
      && 0 <= i < |groups.keys| && groups.keys[i] == group && Named(groups, target, sp, group)
      && forall j :: 0 <= j < i ==> !Named(groups, target, sp, groups.keys[j])
  }

  ghost predicate Named(groups: Groups, target: ReleaseTarget, sp: Spelling, group: GroupKey) {
    match target
    case ByLockId(lockId) => exists bare :: Claimed(groups, group, bare) && bare.lockId == lockId
    case ByScope(scope) =>
      (exists bare :: Claimed(groups, group, bare)) && (group == GlobGroup(scope) || group == PathGroup(sp.Key(scope)))
    case Unspecified => false
  }

  lemma NamedIff(groups: Groups, target: ReleaseTarget, sp: Spelling, group: GroupKey)
    requires LocksValid(groups, sp)
    ensures Named(groups, target, sp, group) <==> group in groups.data && Targets(group, groups.data[group], target, sp)
  {
    if group in groups.data {
      var claims := groups.data[group];
      assert GroupValid(group, claims, sp);
      assert Claimed(groups, group, Bare(claims[0]));
      match target
      case ByLockId(lockId) =>
        if i :| 0 <= i < |claims| && claims[i].lockId == lockId { assert Claimed(groups, group, Bare(claims[i])); }
      case _ =>
    }
  }

  lemma {:induction false} FindNames(groups: Groups, target: ReleaseTarget, sp: Spelling, n: nat, group: GroupKey)
    requires LocksValid(groups, sp) && n <= |groups.keys|
    requires forall j :: 0 <= j < n ==> !Named(groups, target, sp, groups.keys[j])
    ensures FindGroup(groups.keys[n..], groups.data, target, sp) == Option.Some(group) <==>
              Names(groups, target, sp, group)
    decreases |groups.keys| - n
  {
    hide Named, LocksValid, Targets;
    if n < |groups.keys| {
      var key := groups.keys[n];
      NamedIff(groups, target, sp, key);
      assert groups.keys[n..][1..] == groups.keys[n + 1..];
      if !Named(groups, target, sp, key) {
        FindNames(groups, target, sp, n + 1, group);
      } else if Names(groups, target, sp, group) {
        assert Named(groups, target, sp, group);
      }
    }
  }

  lemma NamesIff(groups: Groups, target: ReleaseTarget, sp: Spelling, group: GroupKey)
    requires LocksValid(groups, sp)
    ensures FindGroup(groups.keys, groups.data, target, sp) == Option.Some(group) <==> Names(groups, target, sp, group)
  {
    FindNames(groups, target, sp, 0, group);
    assert groups.keys[0..] == groups.keys;
  }

  lemma ReleaseClaims(groups: Groups, requester: Member, target: ReleaseTarget, sp: Spelling, group: GroupKey,
                      bare: Lock)
    requires LocksValid(groups, sp) && Release(groups, requester, target, sp).ReleaseOk?
    ensures Claimed(Release(groups, requester, target, sp).groups, group, bare) <==>
            Claimed(groups, group, bare)
            && !(Names(groups, target, sp, group) && Holder(groups, group) == Option.Some(bare))
  {
    hide Targets, PutGroup, Names, RemoveAt, Claimed, Among;
    var found := FindGroup(groups.keys, groups.data, target, sp).value;
    var claims := groups.data[found];
    NamesIff(groups, target, sp, group);
    NamesIff(groups, target, sp, found);
    WinnerHeld(groups, found, sp);
    PutClaims(groups, found, RemoveAt(claims, WinnerIndex(claims)), group, bare);
    RemoveAmong(claims, WinnerIndex(claims), bare);
    ClaimedAt(groups, group, bare);
  }

  lemma ClaimedAt(groups: Groups, group: GroupKey, bare: Lock)
    ensures Claimed(groups, group, bare) <==> group in groups.data && Among(groups.data[group], bare)
  {
  }

  lemma WinnerHeld(groups: Groups, key: GroupKey, sp: Spelling)
    requires LocksValid(groups, sp) && key in groups.data
    ensures groups.data[key] != [] && IdsDistinct(groups.data[key])
    ensures Holder(groups, key) == Option.Some(Bare(groups.data[key][WinnerIndex(groups.data[key])]))
  {
    HolderIsWinner(groups, key, sp);
    assert GroupValid(key, groups.data[key], sp);
  }

  lemma DropClaims(groups: Groups, key: GroupKey, memberId: string, sp: Spelling, group: GroupKey, bare: Lock)
    requires LocksValid(groups, sp) && AllInOrder(groups) && Holds(groups, key, memberId)
    ensures Claimed(DropClaim(groups, key, memberId), group, bare) <==>
            Claimed(groups, group, bare) && !(group == key && Earliest(groups, key, memberId, bare))
  {
    hide PutGroup, RemoveAt, Claimed, Among, Earliest, AllInOrder;
    var claims := groups.data[key];
    var i := ClaimOf(claims, memberId).value;
    WinnerHeld(groups, key, sp);
    PutClaims(groups, key, RemoveAt(claims, i), group, bare);
    RemoveAmong(claims, i, bare);
    ClaimedAt(groups, group, bare);
    HeldIsEarliest(groups, key, memberId, bare);
  }

  lemma TransferClaims(groups: Groups, member: Member, fromPath: string, toPath: string, revision: nat, sp: Spelling,
                       group: GroupKey, bare: Lock)
    requires LocksValid(groups, sp) && AllInOrder(groups)
    requires TransferPath(groups, member, fromPath, toPath, revision, sp).Some?
    ensures var from, to := KeyOfScope(fromPath, File, sp), KeyOfScope(toPath, File, sp);
            Claimed(TransferPath(groups, member, fromPath, toPath, revision, sp).value, group, bare) <==>
            || (Claimed(groups, group, bare) && !(group == from && Earliest(groups, from, member.memberId, bare)))
            || (group == to && exists old_ :: Earliest(groups, from, member.memberId, old_)
                                              && bare == old_.(scope := toPath, eventRevision := revision))
  {
    hide PutGroup, Claimed, Among, Earliest, AllInOrder, DropClaim;
    var from, to := KeyOfScope(fromPath, File, sp), KeyOfScope(toPath, File, sp);
    var held := HeldClaim(groups, from, member.memberId);
    var moved := held.(scope := toPath, eventRevision := revision, concurrent := false);
    var without := DropClaim(groups, from, member.memberId);
    DropClaims(groups, from, member.memberId, sp, group, bare);
    PutClaims(without, to, without.Get(to, []) + [moved], group, bare);
    AppendAmong(without.Get(to, []), moved, bare);
    GetAmong(without, to, bare);
    HeldIsEarliest(groups, from, member.memberId, Bare(held));
    forall old_ | Earliest(groups, from, member.memberId, old_) ensures old_ == Bare(held) {
      HeldIsEarliest(groups, from, member.memberId, old_);
    }
  }

  lemma GetAmong(groups: Groups, key: GroupKey, bare: Lock)
    ensures Among(groups.Get(key, []), bare) <==> Claimed(groups, key, bare)
  {
  }

  lemma NothingEarliest(groups: Groups, key: GroupKey, memberId: string)
    requires AllInOrder(groups) && !Holds(groups, key, memberId)
    ensures forall bare :: !Earliest(groups, key, memberId, bare)
  {
    forall bare ensures !Earliest(groups, key, memberId, bare) {
      HeldIsEarliest(groups, key, memberId, bare);
    }
  }

  /** Exactly these claims come and go with an applied event; every other claim of every member
      stays as it is. */
  lemma EventClaims(regs: Registries, event: Event, revision: nat, now: int, sp: Spelling, group: GroupKey, bare: Lock)
    requires LocksValid(regs.locks, sp) && AllInOrder(regs.locks) && Apply(regs, event, revision, now, sp).Applied?
    ensures Claimed(Apply(regs, event, revision, now, sp).regs.locks, group, bare) <==>
            || (Claimed(regs.locks, group, bare) && !Takes(regs.locks, event, sp, group, bare))
            || Adds(regs.locks, event, revision, now, sp, group, bare)
  {
    hide LocksValid, Acquire, Release, TransferPath, DropClaim, Transition, Claimed, Names, Earliest, NoneHeld, Holder,
         AllInOrder,
         AllEventChanges, AllAfter, Intents.Declare, Intents.Update, Intents.Withdraw, IntentChanges, Report;
    match event.payload
    case LockAcquire(scope, kind, mode) =>
      var request := Lock(event.eventId, scope, kind, mode, event.member, revision, now, false);
      AcquireClaims(regs.locks, request, sp, group, bare);
      NotHeld(regs.locks, KeyOfScope(scope, kind, sp), event.member.memberId);
    case LockOverride(scope, kind, mode, _) =>
      var request := Lock(event.eventId, scope, kind, mode, event.member, revision, now, false);
      AcquireClaims(regs.locks, request, sp, group, bare);
      NotHeld(regs.locks, KeyOfScope(scope, kind, sp), event.member.memberId);
    case LockRelease(target) => ReleaseClaims(regs.locks, event.member, target, sp, group, bare);
    case PathRenamed(fromPath, toPath) =>
      if TransferPath(regs.locks, event.member, fromPath, toPath, revision, sp).Some? {
        TransferClaims(regs.locks, event.member, fromPath, toPath, revision, sp, group, bare);
      } else {
        NotTransferred(regs.locks, event.member, fromPath, toPath, revision, sp);
      }
    case PathDeleted(path) =>
      var key := KeyOfScope(path, File, sp);
      if Holds(regs.locks, key, event.member.memberId) {
        DropClaims(regs.locks, key, event.member.memberId, sp, group, bare);
      } else {
        NothingEarliest(regs.locks, key, event.member.memberId);
      }
    case _ =>
  }

  lemma NotTransferred(groups: Groups, member: Member, fromPath: string, toPath: string, revision: nat, sp: Spelling)
    requires AllInOrder(groups) && TransferPath(groups, member, fromPath, toPath, revision, sp).None?
    ensures forall bare :: !Earliest(groups, KeyOfScope(fromPath, File, sp), member.memberId, bare)
  {
    NothingEarliest(groups, KeyOfScope(fromPath, File, sp), member.memberId);
  }

  // ----- What a sweep does to the claims -----

  /** What the two passes of a sweep take: everything of a stale device, and soft claims that were
      acquired before the cutoff. Hard and coordination-required claims never age. */
  predicate Stale(claim: Lock, devices: seq<string>) {
    claim.holder.deviceId in devices
  }

  predicate Aged(claim: Lock, cutoff: int) {
    claim.mode == Soft && claim.acquiredAt < cutoff
  }

  lemma {:induction false} SurvivorsAmong(claims: seq<Lock>, expiry: Expiry, bare: Lock)
    ensures Among(Survivors(claims, expiry), bare) <==> Among(claims, bare) && !Expires(bare, expiry)
  {
    if claims != [] {
      var rest := Survivors(claims[1..], expiry);
      SurvivorsAmong(claims[1..], expiry, bare);
      FirstAmong(claims[0], claims[1..], bare);
      FirstAmong(claims[0], rest, bare);
      assert claims == [claims[0]] + claims[1..] && [] + rest == rest;
      hide Among;
    }
  }

  lemma FirstAmong(first: Lock, rest: seq<Lock>, bare: Lock)
    ensures Among([first] + rest, bare) <==> Bare(first) == bare || Among(rest, bare)
  {
    var all := [first] + rest;
    assert all[0] == first;
    if i :| 0 <= i < |rest| && Bare(rest[i]) == bare { assert all[i + 1] == rest[i]; }
  }

  lemma PassClaims(groups: Groups, expiry: Expiry, sp: Spelling, group: GroupKey, bare: Lock)
    requires LocksValid(groups, sp)
    ensures Claimed(ExpireLocks(groups, expiry).0, group, bare) <==>
              Claimed(groups, group, bare) && !Expires(bare, expiry)
  {
    hide Expires, Resolved, Among;
    forall k | k in groups.data ensures Resolved(groups.data[k]) == groups.data[k] {
      assert GroupValid(k, groups.data[k], sp);
    }
    ExpireGroupsData(groups.keys, groups, expiry);
    var after := ExpireLocks(groups, expiry).0;
    GetAmong(after, group, bare);
    GetAmong(groups, group, bare);
    if group in groups.data {
      ResolvedBare(Survivors(groups.data[group], expiry), bare);
      SurvivorsAmong(groups.data[group], expiry, bare);
    }
  }

  /** The age pass reports a claim of the registry if and only if it is soft and was acquired before
      the cutoff, a device pass if and only if that device holds it. */
  lemma PassReports(groups: Groups, claim: Lock, cutoff: int, deviceId: string, sp: Spelling)
    requires LocksValid(groups, sp)
    requires var group := KeyOfScope(claim.scope, claim.kind, sp); group in groups.data && claim in groups.data[group]
    ensures claim in ExpireLocks(groups, SoftBefore(cutoff)).1 <==> claim.mode == Soft && claim.acquiredAt < cutoff
    ensures claim in ExpireLocks(groups, OfDevice(deviceId)).1 <==> claim.holder.deviceId == deviceId
  {
    hide ExpireLocks, LocksValid;
    ReportedGroup(groups, SoftBefore(cutoff), claim, sp);
    ReportedGroup(groups, OfDevice(deviceId), claim, sp);
  }

  lemma {:induction false} DevicesClaims(regs: Registries, devices: seq<string>, next: nat, sp: Spelling, bound: nat,
                                         ids: set<string>, group: GroupKey, bare: Lock)
    requires LocksValid(regs.locks, sp) && Bounded(regs.locks, bound, ids)
    ensures var after := SweepDevices(regs, devices, next, sp).regs.locks;
            && (Claimed(after, group, bare) <==> Claimed(regs.locks, group, bare) && !Stale(bare, devices))
            && LocksValid(after, sp) && Bounded(after, bound, ids)
    decreases |devices|
  {
    hide LocksValid, Bounded, Claimed, ExpireLocks, OwnedBy, AllIntentChanges, ActiveForDevice, StopAll, ExpireIntents;
    if devices != [] {
      var first := SweepDevice(regs, devices[0], next, sp);
      PassClaims(regs.locks, OfDevice(devices[0]), sp, group, bare);
      ExpireLocksKeep(regs.locks, OfDevice(devices[0]), sp, bound, ids);
      DevicesClaims(first.regs, devices[1..], next + |first.changes|, sp, bound, ids, group, bare);
    }
  }

  /** A sweep leaves exactly the claims that are neither of a stale device nor aged. */
  lemma SweepClaims(regs: Registries, stale: seq<string>, cutoff: int, next: nat, sp: Spelling, bound: nat,
                    ids: set<string>,
                    group: GroupKey, bare: Lock)
    requires LocksValid(regs.locks, sp) && Bounded(regs.locks, bound, ids)
    ensures Claimed(Sweep(regs, stale, cutoff, next, sp).regs.locks, group, bare) <==>
            Claimed(regs.locks, group, bare) && !Stale(bare, stale) && !Aged(bare, cutoff)
  {
    hide LocksValid, Bounded, Claimed, ExpireLocks, SweepDevices, Promotions, Stale;
    DevicesClaims(regs, stale, next, sp, bound, ids, group, bare);
    PassClaims(SweepDevices(regs, stale, next, sp).regs.locks, SoftBefore(cutoff), sp, group, bare);
  }
}
