/** What every event and every sweep does to intents, presence, known files and audits, entry by
    entry: who may change what, and what stays as it is. */
module EntryEffects {
  import opened Protocol
  import opened Paths
  import opened Locks
  import opened Intents
  import opened Presences
  import opened Registries
  import opened States
  import opened SweepConvergence
  import opened SilentSweeps

  // ----- Who may change an intent -----

  predicate TooLong(paths: seq<string>) {
    exists p :: p in paths && |p| > 4096
  }

  predicate Malformed(modifyPaths: seq<string>, createPaths: seq<string>) {
    (modifyPaths == [] && createPaths == []) || TooLong(modifyPaths) || TooLong(createPaths)
  }

  /** Why an event about an intent is refused: it names an unknown one, one of another member, or
      impossible paths. */
  function WhyRefused(intents: IntentMap, event: Event): Option<IntentError> {
    match event.payload
    case IntentDeclare(modifyPaths, createPaths, _) =>
      if Malformed(modifyPaths, createPaths) then Some(IntentError.FormatError) else None
    case IntentUpdate(id, modifyPaths, createPaths, _) =>
      if id !in intents.data then Some(IntentError.NotFound)
      else if intents.data[id].owner.memberId != event.member.memberId then Some(IntentError.NotOwner)
      else if Malformed(modifyPaths, createPaths) then Some(IntentError.FormatError)
      else None
    case IntentWithdraw(id) =>
      if id !in intents.data then Some(IntentError.NotFound)
      else if intents.data[id].owner.memberId != event.member.memberId then Some(IntentError.NotOwner)
      else None
    case _ => None
  }

  predicate AboutIntents(payload: Payload) {
    payload.IntentDeclare? || payload.IntentUpdate? || payload.IntentWithdraw?
  }

  lemma IntentEventRefusedIff(regs: Registries, event: Event, revision: nat, now: int, sp: Spelling)
    requires AboutIntents(event.payload)
    ensures var r := Apply(regs, event, revision, now, sp);
            match WhyRefused(regs.intents, event)
            case Some(error) => r == Refused(IntentRejection(error))
            case None => r.Applied?
  {
    hide Reclassify, IntentChanges;
    match event.payload
    case IntentDeclare(modifyPaths, createPaths, _) => AcceptableIff(modifyPaths, createPaths);
    case IntentUpdate(_, modifyPaths, createPaths, _) => AcceptableIff(modifyPaths, createPaths);
    case _ =>
  }

  lemma AcceptableIff(modifyPaths: seq<string>, createPaths: seq<string>)
    ensures Acceptable(modifyPaths, createPaths) <==> !Malformed(modifyPaths, createPaths)
  {
    assert forall p :: p in modifyPaths + createPaths <==> p in modifyPaths || p in createPaths;
  }

  // ----- Which paths a declaration records -----

  /** The planned modifications are recorded in their order, then the planned creations of files that
      exist, each once; the other creations stay creations. */
  ghost predicate Recorded(tracked: set<string>, modifyPaths: seq<string>, createPaths: seq<string>, edits: seq<string>,
                           creations: seq<string>, sp: Spelling)
  {
    && |modifyPaths| <= |edits| && (forall i :: 0 <= i < |modifyPaths| ==> edits[i] == sp.normalize(modifyPaths[i]))
    && (forall p :: p in edits <==>
          || (exists q :: q in modifyPaths && p == sp.normalize(q))
          || (exists q :: q in createPaths && sp.Key(q) in tracked && p == sp.normalize(q)))
    && (forall i, j :: |modifyPaths| <= i < |edits| && 0 <= j < i ==> edits[i] != edits[j])
    && (forall p :: p in creations <==> exists q :: q in createPaths && sp.Key(q) !in tracked && p == sp.normalize(q))
  }

  lemma {:induction false} ReclassifyRecords(tracked: set<string>, edits: seq<string>, createPaths: seq<string>,
                                             sp: Spelling,
                                             known: nat)
    requires known <= |edits| && forall i, j :: known <= i < |edits| && 0 <= j < i ==> edits[i] != edits[j]
    ensures var (m, c) := Reclassify(tracked, edits, createPaths, sp);
            && edits <= m
            && (forall p :: p in m <==>
                  p in edits || exists q :: q in createPaths && sp.Key(q) in tracked && p == sp.normalize(q))
            && (forall i, j :: known <= i < |m| && 0 <= j < i ==> m[i] != m[j])
            && (forall p :: p in c <==> exists q :: q in createPaths && sp.Key(q) !in tracked && p == sp.normalize(q))
    decreases |createPaths|
  {
    if createPaths != [] {
      var first, rest := createPaths[0], createPaths[1..];
      var normalized := sp.normalize(first);
      assert forall q :: q in createPaths <==> q == first || q in rest;
      var more := if sp.Key(first) in tracked && normalized !in edits then edits + [normalized] else edits;
      ReclassifyRecords(tracked, more, rest, sp, known);
    }
  }

  lemma DeclarationRecords(tracked: set<string>, modifyPaths: seq<string>, createPaths: seq<string>, sp: Spelling)
    ensures var (edits, creations) := Reclassify(tracked, NormalizeAll(modifyPaths, sp), createPaths, sp);
            Recorded(tracked, modifyPaths, createPaths, edits, creations, sp)
  {
    hide Reclassify;
    var known := NormalizeAll(modifyPaths, sp);
    ReclassifyRecords(tracked, known, createPaths, sp, |known|);
    var (edits, creations) := Reclassify(tracked, known, createPaths, sp);
    forall p ensures p in known <==> exists q :: q in modifyPaths && p == sp.normalize(q) {
      if p in known {
        var i :| 0 <= i < |known| && known[i] == p;
        assert modifyPaths[i] in modifyPaths;
      }
      if q :| q in modifyPaths && p == sp.normalize(q) {
        var i :| 0 <= i < |modifyPaths| && modifyPaths[i] == q;
        assert known[i] == p;
      }
    }
  }

  // ----- What an event does to the intents -----

  /** The event that an accepted payload is for the path sets of intents, if it is one. */
  function AsPathEvent(event: Event): Option<PathEvent> {
    match event.payload
    case PathRenamed(fromPath, toPath) => Some(Renamed(fromPath, toPath))
    case PathDeleted(path) => Some(DeletedBy(path, event.member.memberId))
    case FileCreated(path) => Some(Created(path))
    case _ => None
  }

  ghost predicate HasKey(paths: seq<string>, key: string, sp: Spelling) {
    exists p :: p in paths && sp.Key(p) == key
  }

  ghost predicate NoneTwice(paths: seq<string>) {
    forall i, j :: 0 <= i < j < |paths| ==> paths[i] != paths[j]
  }

  ghost predicate NoKeyTwice(paths: seq<string>, sp: Spelling) {
    forall i, j :: 0 <= i < j < |paths| ==> sp.Key(paths[i]) != sp.Key(paths[j])
  }

  /** A rename, whoever reports it, replaces the old path by the new one; a creation turns no plan
      to create the file into anything else, it just ends; a deletion takes the path only from the
      intents of the member that reports it. */
  ghost predicate PathsMoved(before: Intent, after: Intent, event: PathEvent, sp: Spelling) {
    match event
    case Renamed(fromPath, toPath) =>
      && (forall p :: p in after.modifyPaths <==>
            || (p in before.modifyPaths && sp.Key(p) != sp.Key(fromPath))
            || (p == sp.normalize(toPath) && HasKey(before.modifyPaths, sp.Key(fromPath), sp)))
      && (forall k :: HasKey(after.createPaths, k, sp) <==>
            || (k != sp.Key(fromPath) && HasKey(before.createPaths, k, sp))
            || (k == sp.Key(toPath) && HasKey(before.createPaths, sp.Key(fromPath), sp)))
      && (if HasKey(before.modifyPaths, sp.Key(fromPath), sp) || HasKey(before.createPaths, sp.Key(fromPath), sp) then
            NoneTwice(after.modifyPaths) && NoKeyTwice(after.createPaths, sp)
          else after == before)
    case Created(path) =>
      && after.modifyPaths == before.modifyPaths
      && (forall p :: p in after.createPaths <==> p in before.createPaths && sp.Key(p) != sp.Key(path))
    case DeletedBy(path, memberId) =>
      if before.owner.memberId != memberId then after == before
      else
        && (forall p :: p in after.modifyPaths <==> p in before.modifyPaths && sp.Key(p) != sp.Key(path))
        && (forall p :: p in after.createPaths <==> p in before.createPaths && sp.Key(p) != sp.Key(path))
  }

  ghost predicate OnlyPaths(before: Intent, after: Intent) {
    after == before.(modifyPaths := after.modifyPaths, createPaths := after.createPaths)
  }

  lemma {:induction false} DedupeOnce(paths: seq<string>)
    ensures NoneTwice(Dedupe(paths))
  {
    if paths != [] {
      DedupeOnce(paths[..|paths| - 1]);
    }
  }

  lemma {:induction false} DedupeKeys(paths: seq<string>, sp: Spelling)
    ensures NoKeyTwice(DedupeByKey(paths, sp), sp)
    ensures forall k :: HasKey(DedupeByKey(paths, sp), k, sp) <==> HasKey(paths, k, sp)
  {
    if paths != [] {
      var init, last := paths[..|paths| - 1], paths[|paths| - 1];
      var kept := DedupeByKey(init, sp);
      DedupeKeys(init, sp);
      assert paths == init + [last];
      assert HasKey(kept, sp.Key(last), sp) <==> Mentions(kept, sp.Key(last), sp);
      forall k ensures HasKey(paths, k, sp) <==> HasKey(init, k, sp) || sp.Key(last) == k {
        assert last in paths;
      }
      forall k ensures HasKey(kept + [last], k, sp) <==> HasKey(kept, k, sp) || sp.Key(last) == k {
        assert last in kept + [last];
      }
      assert forall i :: 0 <= i < |kept| ==> kept[i] in kept;
    }
  }

  lemma MovedMembers(paths: seq<string>, key: string, to: string, sp: Spelling)
    ensures forall p :: p in MovePath(paths, key, to, sp) <==>
              (p in paths && sp.Key(p) != key) || (p == to && HasKey(paths, key, sp))
  {
    var moved := MovePath(paths, key, to, sp);
    forall p ensures p in moved <==> (p in paths && sp.Key(p) != key) || (p == to && HasKey(paths, key, sp)) {
      if p in moved {
        var i :| 0 <= i < |moved| && moved[i] == p;
        assert paths[i] in paths;
      }
      if p in paths && sp.Key(p) != key {
        var i :| 0 <= i < |paths| && paths[i] == p;
        assert moved[i] == p;
      }
      if p == to && HasKey(paths, key, sp) {
        var q :| q in paths && sp.Key(q) == key;
        var i :| 0 <= i < |paths| && paths[i] == q;
        assert moved[i] == to;
      }
    }
  }

  lemma AfterEventMoves(intent: Intent, event: PathEvent, sp: Spelling)
    requires sp.Lawful()
    ensures PathsMoved(intent, AfterEvent(intent, event, sp), event, sp)
            && OnlyPaths(intent, AfterEvent(intent, event, sp))
  {
    hide NoneTwice, NoKeyTwice, Dedupe, DedupeByKey;
    match event
    case Renamed(fromPath, toPath) =>
      var key, to := sp.Key(fromPath), sp.normalize(toPath);
      assert sp.Key(to) == sp.Key(toPath);
      MovedMembers(intent.modifyPaths, key, to, sp);
      MovedMembers(intent.createPaths, key, to, sp);
      DedupeOnce(MovePath(intent.modifyPaths, key, to, sp));
      DedupeKeys(MovePath(intent.createPaths, key, to, sp), sp);
      MovedKeys(intent.createPaths, key, to, sp);
      assert Mentions(intent.modifyPaths, key, sp) <==> HasKey(intent.modifyPaths, key, sp);
      assert Mentions(intent.createPaths, key, sp) <==> HasKey(intent.createPaths, key, sp);
    case Created(path) =>
    case DeletedBy(path, memberId) =>
  }

  lemma MovedKeys(paths: seq<string>, key: string, to: string, sp: Spelling)
    ensures forall k :: HasKey(MovePath(paths, key, to, sp), k, sp) <==>
              (k != key && HasKey(paths, k, sp)) || (k == sp.Key(to) && HasKey(paths, key, sp))
  {
    MovedMembers(paths, key, to, sp);
  }

  /** One intent entry per id: what each event does to them. */
  ghost predicate IntentsChangeBy(before: map<string, Intent>, after: map<string, Intent>, tracked: set<string>,
                                  event: Event,
                                  revision: nat, sp: Spelling)
  {
    match event.payload
    case IntentDeclare(modifyPaths, createPaths, description) =>
      && after.Keys == before.Keys + {event.eventId}
         && (forall id :: id in before && id != event.eventId ==> after[id] == before[id])
      && var i := after[event.eventId];
         && i.intentId == event.eventId && i.owner == event.member && i.description == description
         && i.eventRevision == revision
         && Recorded(tracked, modifyPaths, createPaths, i.modifyPaths, i.createPaths, sp)
    case IntentUpdate(id, modifyPaths, createPaths, description) =>
      && id in before && after.Keys == before.Keys
         && (forall other :: other in before && other != id ==> after[other] == before[other])
      && var i := after[id];
         && i.intentId == before[id].intentId && i.owner == before[id].owner && i.description == description
         && i.eventRevision == revision
         && Recorded(tracked, modifyPaths, createPaths, i.modifyPaths, i.createPaths, sp)
    case IntentWithdraw(id) => id in before && after == before - {id}
    case _ =>
      && after.Keys == before.Keys
      && match AsPathEvent(event)
         case None => after == before
         case Some(change) =>
           forall id :: id in before ==>
             PathsMoved(before[id], after[id], change, sp) && OnlyPaths(before[id], after[id])
  }

  lemma EventIntents(regs: Registries, event: Event, revision: nat, now: int, sp: Spelling)
    requires sp.Lawful() && Apply(regs, event, revision, now, sp).Applied?
    ensures IntentsChangeBy(regs.intents.data, Apply(regs, event, revision, now, sp).regs.intents.data, regs.tracked,
                            event, revision,
                            sp)
  {
    hide Reclassify, Recorded, IntentChanges, AllEventChanges, RenameLocks, DeleteLock, AfterEvent, PathsMoved, Acquire,
         Release,
         Transition, Report;
    match event.payload
    case IntentDeclare(modifyPaths, createPaths, _) => DeclarationRecords(regs.tracked, modifyPaths, createPaths, sp);
    case IntentUpdate(_, modifyPaths, createPaths, _) => DeclarationRecords(regs.tracked, modifyPaths, createPaths, sp);
    case PathRenamed(fromPath, toPath) => AllMoved(regs.intents, Renamed(fromPath, toPath), sp);
    case PathDeleted(path) => AllMoved(regs.intents, DeletedBy(path, event.member.memberId), sp);
    case FileCreated(path) => AllMoved(regs.intents, Created(path), sp);
    case _ =>
  }

  lemma AllMoved(intents: IntentMap, event: PathEvent, sp: Spelling)
    requires sp.Lawful()
    ensures var after := AllAfter(intents, event, sp).data;
            && after.Keys == intents.data.Keys
            && forall id :: id in intents.data ==>
                 PathsMoved(intents.data[id], after[id], event, sp) && OnlyPaths(intents.data[id], after[id])
  {
    hide AfterEvent, PathsMoved;
    forall id | id in intents.data
      ensures PathsMoved(intents.data[id], AfterEvent(intents.data[id], event, sp), event, sp)
              && OnlyPaths(intents.data[id], AfterEvent(intents.data[id], event, sp))
    {
      AfterEventMoves(intents.data[id], event, sp);
    }
  }

  /** An event of another member leaves an intent as it is, but for a rename or a creation of one of
      its files. */
  lemma OthersLeaveIntents(regs: Registries, event: Event, revision: nat, now: int, sp: Spelling, id: string)
    requires sp.Lawful() && Apply(regs, event, revision, now, sp).Applied? && id in regs.intents.data
    requires regs.intents.data[id].owner.memberId != event.member.memberId && id != event.eventId
    ensures var after := Apply(regs, event, revision, now, sp).regs.intents.data;
            && id in after && OnlyPaths(regs.intents.data[id], after[id])
            && (!event.payload.PathRenamed? && !event.payload.FileCreated? ==> after[id] == regs.intents.data[id])
  {
    hide Apply, Recorded;
    EventIntents(regs, event, revision, now, sp);
    if AboutIntents(event.payload) {
      IntentEventRefusedIff(regs, event, revision, now, sp);
    }
  }

  // ----- Presence and known files -----

  /** A report replaces the member's record on the path; no other event touches presence. */
  lemma EventPresence(regs: Registries, event: Event, revision: nat, now: int, sp: Spelling)
    requires PresenceBounded(regs.presence, revision) && Apply(regs, event, revision, now, sp).Applied?
    ensures var after := Apply(regs, event, revision, now, sp).regs.presence;
            match event.payload
            case PresenceReport(path, state) =>
              after.data == regs.presence.data[PresenceKey(event.member.memberId, sp.Key(path)) :=
                                                 PresenceRecord(event.member, sp.normalize(path), state, revision)]
            case _ => after == regs.presence
  {
    hide Acquire, Release, RenameLocks, DeleteLock, AllEventChanges, AllAfter, Intents.Declare, Intents.Update,
         Intents.Withdraw,
         IntentChanges, Transition;
  }

  /** A file is known from its creation on, and under its new name after a rename, until it is
      deleted; no other event says anything about files. */
  lemma EventFiles(regs: Registries, event: Event, revision: nat, now: int, sp: Spelling, key: string)
    requires Apply(regs, event, revision, now, sp).Applied?
    ensures key in Apply(regs, event, revision, now, sp).regs.tracked <==>
            match event.payload
            case FileCreated(path) => key == sp.Key(path) || key in regs.tracked
            case PathDeleted(path) => key != sp.Key(path) && key in regs.tracked
            case PathRenamed(fromPath, toPath) =>
              if sp.Key(fromPath) in regs.tracked then key == sp.Key(toPath)
                 || (key != sp.Key(fromPath) && key in regs.tracked)
              else key in regs.tracked
            case _ => key in regs.tracked
  {
    hide Acquire, Release, RenameLocks, DeleteLock, AllEventChanges, AllAfter, Intents.Declare, Intents.Update,
         Intents.Withdraw,
         IntentChanges, Transition, Report;
  }

  // ----- Audits -----

  /** The action that an accepted event is audited as, and on which scope, if it is. */
  function AuditedAs(event: Event, after: Registries, before: Registries): Option<(AuditAction, string)> {
    match event.payload
    case LockOverride(scope, _, _, _) => Some((OverrideAction, scope))
    case IntentDeclare(_, _, _) =>
      if event.eventId !in after.intents.data then None
      else
        var i := after.intents.data[event.eventId];
        Some((Create, if i.modifyPaths != [] then i.modifyPaths[0] else if i.createPaths != [] then i.createPaths[0]
              else ""))
    case IntentUpdate(id, _, _, _) =>
      if id !in after.intents.data then None
      else Some((UpdateAction, if after.intents.data[id].modifyPaths != [] then after.intents.data[id].modifyPaths[0]
                 else ""))
    case IntentWithdraw(id) =>
      if id !in before.intents.data then None
      else Some((WithdrawAction,
                 if before.intents.data[id].modifyPaths != [] then before.intents.data[id].modifyPaths[0] else ""))
    case PathRenamed(_, toPath) => Some((UpdateAction, toPath))
    case PathDeleted(path) => Some((UpdateAction, path))
    case _ => None
  }

  /** Overrides, declarations, updates, withdrawals, renames and deletions leave one audit each, in
      the member's name, under the event's revision and on the path concerned; nothing else does. */
  lemma EventAudits(regs: Registries, event: Event, revision: nat, now: int, sp: Spelling)
    requires Apply(regs, event, revision, now, sp).Applied?
    ensures var r := Apply(regs, event, revision, now, sp);
            match AuditedAs(event, r.regs, regs)
            case None => r.audits == []
            case Some(entry) => r.audits == [Audit(event.member, entry.0, entry.1, revision)]
  {
    hide Acquire, Release, RenameLocks, DeleteLock, AllEventChanges, AllAfter, Reclassify, IntentChanges, Transition,
         Report;
  }

  // ----- A sweep -----

  /** The record, stopped. */
  predicate StoppedLater(before: PresenceRecord, after: PresenceRecord) {
    after == before.(state := Stopped, eventRevision := after.eventRevision)
  }

  /** Stopping writes the listed records only. */
  lemma {:induction false} StopAllWrites(presence: PresenceMap, active: seq<PresenceRecord>, next: nat, sp: Spelling,
                                         k: PresenceKey)
    requires k in presence.data
    ensures var after := StopAll(presence, active, next, sp).data;
            && k in after
            && (after[k] == presence.data[k]
                || exists p :: p in active && KeyOfPresence(p.member, p.path, sp) == k
                               && after[k] == PresenceRecord(p.member, sp.normalize(p.path), Stopped,
                                                             after[k].eventRevision))
    decreases |active|
  {
    if active != [] {
      var first, rest := active[0], active[1..];
      var step := Report(presence, first.member, first.path, Stopped, next, sp);
      StopAllWrites(step, rest, next + 1, sp, k);
      assert first in active && forall p :: p in rest ==> p in active;
    }
  }

  predicate StoppedIf(before: PresenceRecord, after: PresenceRecord, deviceId: string) {
    if !before.state.Stopped? && before.member.deviceId == deviceId then StoppedLater(before, after)
    else after == before
  }

  lemma DeviceRecord(presence: PresenceMap, deviceId: string, start: nat, sp: Spelling, k: PresenceKey)
    requires sp.Lawful() && PresenceValid(presence, sp) && start > 0 && PresenceBounded(presence, start - 1)
    requires k in presence.data
    ensures var active := ActiveForDevice(presence.keys, presence.data, deviceId);
            var after := StopAll(presence, active, start, sp).data;
            k in after && StoppedIf(presence.data[k], after[k], deviceId)
  {
    hide StopAll, ActiveForDevice, PresenceValid, PresenceBounded, AreRecordsOf;
    var active := ActiveForDevice(presence.keys, presence.data, deviceId);
    ActiveMembers(presence.keys, presence.data, deviceId);
    ActiveAreRecords(presence, active, deviceId, sp);
    StopAllStops(presence, active, start, sp);
    StopAllWrites(presence, active, start, sp, k);
    ActiveAt(presence, active, deviceId, sp, k);
  }

  lemma DeviceStops(presence: PresenceMap, deviceId: string, start: nat, sp: Spelling)
    requires sp.Lawful() && PresenceValid(presence, sp) && start > 0 && PresenceBounded(presence, start - 1)
    ensures var active := ActiveForDevice(presence.keys, presence.data, deviceId);
            var after := StopAll(presence, active, start, sp);
            && PresenceValid(after, sp) && PresenceBounded(after, start + |active| - 1)
            && after.data.Keys == presence.data.Keys
  {
    hide StopAll, ActiveForDevice, PresenceValid, PresenceBounded, AreRecordsOf, ActiveOn;
    var active := ActiveForDevice(presence.keys, presence.data, deviceId);
    ActiveMembers(presence.keys, presence.data, deviceId);
    ActiveAreRecords(presence, active, deviceId, sp);
    StopAllStops(presence, active, start, sp);
  }

  lemma DevicePresence(presence: PresenceMap, deviceId: string, start: nat, sp: Spelling)
    requires sp.Lawful() && PresenceValid(presence, sp) && start > 0 && PresenceBounded(presence, start - 1)
    ensures var active := ActiveForDevice(presence.keys, presence.data, deviceId);
            var after := StopAll(presence, active, start, sp);
            && PresenceValid(after, sp) && PresenceBounded(after, start + |active| - 1)
            && after.data.Keys == presence.data.Keys
            && (forall k :: k in presence.data ==> StoppedIf(presence.data[k], after.data[k], deviceId))
  {
    hide *;
    var after := StopAll(presence, ActiveForDevice(presence.keys, presence.data, deviceId), start, sp);
    DeviceStops(presence, deviceId, start, sp);
    forall k | k in presence.data
      ensures k in after.data && StoppedIf(presence.data[k], after.data[k], deviceId)
    {
      DeviceRecord(presence, deviceId, start, sp, k);
    }
  }

  lemma DeviceEntries(regs: Registries, deviceId: string, next: nat, sp: Spelling)
    requires sp.Lawful() && PresenceValid(regs.presence, sp) && next > 0 && PresenceBounded(regs.presence, next - 1)
    ensures var part := SweepDevice(regs, deviceId, next, sp); var after := part.regs;
            && after.intents.data == Spared(regs.intents.data, [deviceId]) && after.tracked == regs.tracked
            && PresenceValid(after.presence, sp) && PresenceBounded(after.presence, next + |part.changes| - 1)
            && after.presence.data.Keys == regs.presence.data.Keys
            && (forall k :: k in regs.presence.data ==>
                  StoppedIf(regs.presence.data[k], after.presence.data[k], deviceId))
  {
    hide ExpireLocks, StopAll, ActiveForDevice, AllIntentChanges, OwnedBy, KeepKeys, PresenceValid, PresenceBounded,
         StoppedIf;
    var start := next + |ExpireLocks(regs.locks, OfDevice(deviceId)).1|
                 + |AllIntentChanges(OwnedBy(regs.intents.keys, regs.intents.data, deviceId), Removed)|;
    PresenceBoundedMore(regs.presence, next - 1, start - 1);
    DevicePresence(regs.presence, deviceId, start, sp);
  }

  lemma ActiveAreRecords(presence: PresenceMap, active: seq<PresenceRecord>, deviceId: string, sp: Spelling)
    requires PresenceValid(presence, sp)
    requires forall p :: p in active <==>
               ActiveOn(p, deviceId) && exists k :: k in presence.keys && k in presence.data && presence.data[k] == p
    ensures AreRecordsOf(active, presence, sp)
  {
    forall p | p in active
      ensures KeyOfPresence(p.member, p.path, sp) in presence.data && sp.normalize(p.path) == p.path
    {
      var k :| k in presence.keys && k in presence.data && presence.data[k] == p;
      assert RecordValid(k, p, sp);
    }
  }

  /** The record of a key is active exactly if it is listed, and no other listed one has its key. */
  lemma ActiveAt(presence: PresenceMap, active: seq<PresenceRecord>, deviceId: string, sp: Spelling, k: PresenceKey)
    requires PresenceValid(presence, sp) && k in presence.data
    requires forall p :: p in active <==>
               ActiveOn(p, deviceId) && exists k :: k in presence.keys && k in presence.data && presence.data[k] == p
    ensures forall p :: p in active && KeyOfPresence(p.member, p.path, sp) == k ==> p == presence.data[k]
    ensures presence.data[k] in active <==> ActiveOn(presence.data[k], deviceId)
    ensures KeyOfPresence(presence.data[k].member, presence.data[k].path, sp) == k
    ensures sp.normalize(presence.data[k].path) == presence.data[k].path
  {
    assert RecordValid(k, presence.data[k], sp) && k in presence.keys;
    forall p | p in active && KeyOfPresence(p.member, p.path, sp) == k ensures p == presence.data[k] {
      var h :| h in presence.keys && h in presence.data && presence.data[h] == p;
      assert RecordValid(h, p, sp);
    }
  }

  lemma {:induction false} DevicesEntries(regs: Registries, devices: seq<string>, next: nat, sp: Spelling)
    requires sp.Lawful() && PresenceValid(regs.presence, sp) && next > 0 && PresenceBounded(regs.presence, next - 1)
    ensures var after := SweepDevices(regs, devices, next, sp).regs;
            && after.intents.data == Spared(regs.intents.data, devices) && after.tracked == regs.tracked
            && after.presence.data.Keys == regs.presence.data.Keys
            && (forall k :: k in regs.presence.data ==>
                  SweptRecord(regs.presence.data[k], after.presence.data[k], devices))
    decreases |devices|
  {
    hide PresenceValid, PresenceBounded, SweepDevice;
    if devices != [] {
      var first, rest := SweepDevice(regs, devices[0], next, sp), devices[1..];
      assert forall d :: d in devices <==> d == devices[0] || d in rest;
      DeviceEntries(regs, devices[0], next, sp);
      DevicesEntries(first.regs, rest, next + |first.changes|, sp);
      assert Spared(first.regs.intents.data, rest) == Spared(regs.intents.data, devices);
    } else {
      assert Spared(regs.intents.data, []) == regs.intents.data;
    }
  }

  /** Live presence of a stale device is stopped, every other record is left alone. */
  predicate SweptRecord(before: PresenceRecord, after: PresenceRecord, stale: seq<string>) {
    if !before.state.Stopped? && before.member.deviceId in stale then StoppedLater(before, after) else after == before
  }

  /** A sweep drops exactly the intents that stale devices own and stops exactly their live presence;
      every other entry stays as it is. */
  lemma SweepEntries(regs: Registries, stale: seq<string>, cutoff: int, next: nat, sp: Spelling)
    requires sp.Lawful() && PresenceValid(regs.presence, sp) && next > 0 && PresenceBounded(regs.presence, next - 1)
    ensures var after := Sweep(regs, stale, cutoff, next, sp).regs;
            && (forall id :: id in after.intents.data <==>
                  id in regs.intents.data && regs.intents.data[id].owner.deviceId !in stale)
            && (forall id :: id in after.intents.data ==> after.intents.data[id] == regs.intents.data[id])
            && after.tracked == regs.tracked && after.presence.data.Keys == regs.presence.data.Keys
            && (forall k :: k in regs.presence.data ==>
                  SweptRecord(regs.presence.data[k], after.presence.data[k], stale))
  {
    hide PresenceValid, PresenceBounded, SweepDevices, ExpireLocks, Promotions;
    DevicesEntries(regs, stale, next, sp);
  }
}
