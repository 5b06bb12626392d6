/** The claims of a scope stand in the order of their Event_Revisions, over every run, so the
    earliest of a member's claims is the first one found. */
module ClaimOrder {
  import opened Protocol
  import opened Paths
  import opened Locks
  import opened Intents
  import opened Presences
  import opened Cache
  import opened LockProofs
  import opened Registries
  import opened States
  import opened Host
  import opened HostProofs
  import opened Runs
  import opened ClientRuns

  ghost predicate InOrder(claims: seq<Lock>) {
    forall i, j :: 0 <= i < j < |claims| ==> claims[i].eventRevision < claims[j].eventRevision
  }

  ghost predicate AllInOrder(groups: Groups) {
    forall g :: g in groups.data ==> InOrder(groups.data[g])
  }

  // ----- What keeps the order -----

  lemma PutOrdered(groups: Groups, key: GroupKey, claims: seq<Lock>)
    requires AllInOrder(groups) && InOrder(claims)
    ensures AllInOrder(PutGroup(groups, key, claims))
  {
    assert InOrder(Resolved(claims));
  }

  lemma AppendOrdered(claims: seq<Lock>, claim: Lock, bound: nat, ids: set<string>)
    requires InOrder(claims) && ClaimsBounded(claims, bound, ids) && claim.eventRevision > bound
    ensures InOrder(claims + [claim])
  {
  }

  lemma AcquireOrdered(groups: Groups, request: Lock, sp: Spelling, ids: set<string>)
    requires AllInOrder(groups) && request.eventRevision > 0 && Bounded(groups, request.eventRevision - 1, ids)
    ensures AllInOrder(Acquire(groups, request, sp).groups)
  {
    hide InOrder, WinnerIndex;
    var key := KeyOfScope(request.scope, request.kind, sp);
    var claims := groups.Get(key, []);
    assert InOrder(claims) && ClaimsBounded(claims, request.eventRevision - 1, ids) by {
      Ordered(groups, key, request.eventRevision - 1, ids);
    }
    AppendOrdered(claims, request.(concurrent := false), request.eventRevision - 1, ids);
    FlagsKeepOrder(claims);
    FlagsKeepOrder(claims + [request.(concurrent := false)]);
  }

  lemma Ordered(groups: Groups, key: GroupKey, bound: nat, ids: set<string>)
    requires AllInOrder(groups) && Bounded(groups, bound, ids)
    ensures InOrder(groups.Get(key, [])) && ClaimsBounded(groups.Get(key, []), bound, ids)
  {
  }

  lemma FlagsKeepOrder(claims: seq<Lock>)
    requires InOrder(claims)
    ensures InOrder(Resolved(claims))
  {
  }

  lemma RemoveOrdered(groups: Groups, key: GroupKey, i: nat)
    requires AllInOrder(groups) && i < |groups.Get(key, [])|
    ensures AllInOrder(PutGroup(groups, key, RemoveAt(groups.Get(key, []), i)))
  {
    assert InOrder(RemoveAt(groups.Get(key, []), i));
    PutOrdered(groups, key, RemoveAt(groups.Get(key, []), i));
  }

  lemma TransferOrdered(groups: Groups, member: Member, fromScope: string, toScope: string, revision: nat, sp: Spelling,
                        ids: set<string>)
    requires LocksValid(groups, sp) && AllInOrder(groups) && revision > 0 && Bounded(groups, revision - 1, ids)
    requires TransferPath(groups, member, fromScope, toScope, revision, sp).Some?
    ensures AllInOrder(TransferPath(groups, member, fromScope, toScope, revision, sp).value)
  {
    hide PutGroup, InOrder, LocksValid, ClaimsBounded;
    var from, to := KeyOfScope(fromScope, File, sp), KeyOfScope(toScope, File, sp);
    var without := DropClaim(groups, from, member.memberId);
    RemoveOrdered(groups, from, ClaimOf(groups.Get(from, []), member.memberId).value);
    DropClaimKeeps(groups, from, member.memberId, sp, revision - 1, ids);
    Ordered(without, to, revision - 1, ids);
    var moved := HeldClaim(groups, from, member.memberId).(scope := toScope, eventRevision := revision,
                                                           concurrent := false);
    AppendOrdered(without.Get(to, []), moved, revision - 1, ids);
    PutOrdered(without, to, without.Get(to, []) + [moved]);
  }

  lemma {:induction false} SurvivorsMembers(claims: seq<Lock>, expiry: Expiry)
    ensures forall c :: c in Survivors(claims, expiry) ==> c in claims
  {
    if claims != [] {
      SurvivorsMembers(claims[1..], expiry);
    }
  }

  lemma RestOrdered(claims: seq<Lock>)
    requires claims != [] && InOrder(claims)
    ensures InOrder(claims[1..]) && forall c :: c in claims[1..] ==> claims[0].eventRevision < c.eventRevision
  {
  }

  lemma ConsOrdered(claim: Lock, rest: seq<Lock>)
    requires InOrder(rest) && forall c :: c in rest ==> claim.eventRevision < c.eventRevision
    ensures InOrder([claim] + rest)
  {
  }

  lemma {:induction false} SurvivorsOrdered(claims: seq<Lock>, expiry: Expiry)
    requires InOrder(claims)
    ensures InOrder(Survivors(claims, expiry))
  {
    hide InOrder;
    if claims == [] {
      assert InOrder(Survivors(claims, expiry));
    } else {
      var kept := Survivors(claims[1..], expiry);
      assert [] + kept == kept;
      RestOrdered(claims);
      SurvivorsOrdered(claims[1..], expiry);
      SurvivorsMembers(claims[1..], expiry);
      ConsOrdered(claims[0], kept);
    }
  }

  lemma {:induction false} ExpireOrdered(keys: seq<GroupKey>, groups: Groups, expiry: Expiry)
    requires AllInOrder(groups)
    ensures AllInOrder(ExpireGroups(keys, groups, expiry).0)
    decreases |keys|
  {
    hide InOrder;
    if keys != [] {
      var claims := groups.Get(keys[0], []);
      assert InOrder(claims) by { OrderedAt(groups, keys[0]); }
      SurvivorsOrdered(claims, expiry);
      PutOrdered(groups, keys[0], Survivors(claims, expiry));
      ExpireOrdered(keys[1..], ExpireGroup(groups, keys[0], expiry), expiry);
    }
  }

  lemma OrderedAt(groups: Groups, key: GroupKey)
    requires AllInOrder(groups)
    ensures InOrder(groups.Get(key, []))
  {
  }

  lemma {:induction false} DevicesOrdered(regs: Registries, devices: seq<string>, next: nat, sp: Spelling)
    requires AllInOrder(regs.locks)
    ensures AllInOrder(SweepDevices(regs, devices, next, sp).regs.locks)
    decreases |devices|
  {
    hide AllInOrder, ExpireGroups, StopAll, ExpireIntents;
    if devices != [] {
      var first := SweepDevice(regs, devices[0], next, sp);
      ExpireOrdered(regs.locks.keys, regs.locks, OfDevice(devices[0]));
      DevicesOrdered(first.regs, devices[1..], next + |first.changes|, sp);
    }
  }

  lemma SweepOrdered(regs: Registries, stale: seq<string>, cutoff: int, next: nat, sp: Spelling)
    requires AllInOrder(regs.locks)
    ensures AllInOrder(Sweep(regs, stale, cutoff, next, sp).regs.locks)
  {
    hide AllInOrder, ExpireGroups, SweepDevices, Promotions;
    var devices := SweepDevices(regs, stale, next, sp);
    DevicesOrdered(regs, stale, next, sp);
    ExpireOrdered(devices.regs.locks.keys, devices.regs.locks, SoftBefore(cutoff));
  }

  lemma ApplyOrdered(regs: Registries, event: Event, revision: nat, now: int, sp: Spelling, ids: set<string>)
    requires Incoming(regs, event, revision, ids, sp) && AllInOrder(regs.locks)
    requires Apply(regs, event, revision, now, sp).Applied?
    ensures AllInOrder(Apply(regs, event, revision, now, sp).regs.locks)
  {
    hide LocksValid, Bounded, Acquire, Transition, Holder, PutGroup, AllInOrder, RemoveAt, TransferPath, WinnerIndex,
         ClaimOf,
         AllEventChanges, AllAfter, IsBlank, Intents.Declare, Intents.Update, Intents.Withdraw, IntentChanges;
    match event.payload
    case LockAcquire(scope, kind, mode) =>
      AcquireOrdered(regs.locks, Lock(event.eventId, scope, kind, mode, event.member, revision, now, false), sp, ids);
    case LockOverride(scope, kind, mode, _) =>
      AcquireOrdered(regs.locks, Lock(event.eventId, scope, kind, mode, event.member, revision, now, false), sp, ids);
    case LockRelease(target) =>
      var key := FindGroup(regs.locks.keys, regs.locks.data, target, sp).value;
      RemoveOrdered(regs.locks, key, WinnerIndex(regs.locks.data[key]));
    case PathRenamed(fromPath, toPath) =>
      if TransferPath(regs.locks, event.member, fromPath, toPath, revision, sp).Some? {
        TransferOrdered(regs.locks, event.member, fromPath, toPath, revision, sp, ids);
      }
    case PathDeleted(path) =>
      var key := KeyOfScope(path, File, sp);
      if Holds(regs.locks, key, event.member.memberId) {
        RemoveOrdered(regs.locks, key, ClaimOf(regs.locks.Get(key, []), event.member.memberId).value);
      }
    case _ =>
  }

  // ----- Over every run -----

  lemma IngestOrdered(memory: Memory, store: Durable, event: Event, checks: Checks, storageWorks: bool, now: int,
                      sp: Spelling)
    requires Running(memory, store, sp) && AllInOrder(memory.regs.locks)
    ensures AllInOrder(Ingest(memory, store, event, checks, storageWorks, now, sp).memory.regs.locks)
  {
    hide Running, Apply, AcceptReplay, Serialize, Restore, AllInOrder;
    var r := Ingest(memory, store, event, checks, storageWorks, now, sp);
    if !memory.faulted {
      FencedSubmission(memory, store, event, checks, storageWorks, now, sp);
      if r.reply.Accepted? {
        RunningIncoming(memory, store, event, sp);
        ApplyOrdered(memory.regs, event, memory.counter + 1, now, sp, AppliedIds(store));
      }
    }
  }

  lemma SweepExpiryOrdered(memory: Memory, store: Durable, stale: seq<string>, cutoff: int, storageWorks: bool,
                           sp: Spelling)
    requires Running(memory, store, sp) && AllInOrder(memory.regs.locks)
    ensures AllInOrder(SweepExpiry(memory, store, stale, cutoff, storageWorks, sp).memory.regs.locks)
  {
    hide Running, Sweep, Serialize, Restore, AllInOrder, CommitExpiry;
    SweepExpiryKeeps(memory, store, stale, cutoff, storageWorks, sp);
    SweepOrdered(memory.regs, stale, cutoff, memory.counter + 1, sp);
  }

  lemma SameLocks(memory: Memory, store: Durable, sp: Spelling)
    requires Running(memory, store, sp)
    ensures RestoredRegistries(store, sp).locks == memory.regs.locks
  {
    hide StoreSound, Sound, GateInStep, RestoredRegistries;
  }

  lemma StepOrders(w: World, step: Step, sp: Spelling)
    requires Safe(w, sp) && AllInOrder(RestoredRegistries(w.store, sp).locks)
    ensures AllInOrder(RestoredRegistries(Next(w, step, sp).store, sp).locks)
  {
    hide Running, RestoredRegistries, Ingest, SweepExpiry, AllInOrder, LogHolds, AcksHold, Increasing, StoreSound,
         UpdatesBelow;
    if w.memory.Some? {
      var memory := w.memory.value;
      SameLocks(memory, w.store, sp);
      match step
      case Submit(event, checks, now, fate) =>
        var r := Ingest(memory, w.store, event, checks, Commits(fate), now, sp);
        IngestOrdered(memory, w.store, event, checks, Commits(fate), now, sp);
        IngestKeeps(memory, w.store, event, checks, Commits(fate), now, sp);
        SameLocks(r.memory, r.store, sp);
      case SweepStep(stale, cutoff, fate) =>
        var r := SweepExpiry(memory, w.store, stale, cutoff, Commits(fate), sp);
        SweepExpiryOrdered(memory, w.store, stale, cutoff, Commits(fate), sp);
        SweepExpiryKeeps(memory, w.store, stale, cutoff, Commits(fate), sp);
        SameLocks(r.memory, r.store, sp);
      case _ =>
    }
  }

  /** Over every run the claims of every scope stand in the order of their revisions. */
  lemma {:induction false} ClaimsStayInOrder(steps: seq<Step>, sp: Spelling)
    requires sp.Lawful()
    ensures AllInOrder(RestoredRegistries(Run(START, steps, sp).store, sp).locks)
    ensures Run(START, steps, sp).memory.Some? ==> AllInOrder(Run(START, steps, sp).memory.value.regs.locks)
  {
    hide Safe, Next, Running, AllInOrder;
    RunIsSafe(steps, sp);
    if steps == [] {
      assert AllInOrder(RestoredRegistries(FRESH_STORE, sp).locks) by { NothingOrdered(sp); }
    } else {
      ClaimsStayInOrder(steps[..|steps| - 1], sp);
      RunIsSafe(steps[..|steps| - 1], sp);
      StepOrders(Run(START, steps[..|steps| - 1], sp), steps[|steps| - 1], sp);
    }
    if Run(START, steps, sp).memory.Some? {
      SafeRunning(Run(START, steps, sp), sp);
      SameLocks(Run(START, steps, sp).memory.value, Run(START, steps, sp).store, sp);
    }
  }

  lemma NothingOrdered(sp: Spelling)
    ensures AllInOrder(RestoredRegistries(FRESH_STORE, sp).locks)
  {
  }

  // ----- What it means for acknowledgements -----

  /** In order, the first claim of a group wins it, so nobody wins with a later claim of their own. */
  lemma FirstClaimWins(groups: Groups, key: GroupKey, memberId: string, sp: Spelling)
    requires LocksValid(groups, sp) && AllInOrder(groups)
    ensures key in groups.data ==> Holder(groups, key) == Option.Some(groups.data[key][0])
    ensures !LaterClaimWins(groups, key, memberId)
  {
    if key in groups.data {
      var claims := groups.data[key];
      assert GroupValid(key, claims, sp);
      EarliestIsWinner(claims, 0);
      HolderIsWinner(groups, key, sp);
    }
  }

  /** In every run an accepted lock request is answered with a conflict exactly when another
      member wins the scope; the answer names the winner, and a duplicate is told the same. */
  lemma EveryConflictNamesTheWinner(steps: seq<Step>, event: Event, checks: Checks, now: int, sp: Spelling)
    requires sp.Lawful() && Run(START, steps, sp).memory.Some?
             && (event.payload.LockAcquire? || event.payload.LockOverride?)
    requires var w := Run(START, steps, sp);
             Ingest(w.memory.value, w.store, event, checks, true, now, sp).reply.Accepted?
    ensures var w := Run(START, steps, sp); var r := Ingest(w.memory.value, w.store, event, checks, true, now, sp);
            var winner := Holder(r.memory.regs.locks, KeyOfScope(event.payload.scope, event.payload.kind, sp));
            && winner.Some?
            && r.reply.conflict == (if winner.value.holder.memberId == event.member.memberId then None
                                    else Some(LockConflict(event.payload.scope, winner.value.holder,
                                                           winner.value.eventRevision)))
            && CurrentConflict(r.memory.regs, event, sp) == r.reply.conflict
  {
    hide Run, Safe, Running, Apply, Holder, Serialize, Restore, AcceptReplay, LaterClaimWins, CurrentConflict,
         LocksValid, AllInOrder;
    RunIsSafe(steps, sp);
    ClaimsStayInOrder(steps, sp);
    var w := Run(START, steps, sp);
    var memory := w.memory.value;
    SafeRunning(w, sp);
    RunningIncoming(memory, w.store, event, sp);
    ConflictNamesTheWinner(memory.regs, event, memory.counter + 1, now, sp, AppliedIds(w.store));
    FirstClaimWins(memory.regs.locks, KeyOfScope(event.payload.scope, event.payload.kind, sp), event.member.memberId,
                   sp);
  }
}
