/** Replaying the host's broadcast changes and projecting its snapshot give an
    agent the same entries: stated per cache slot, per event, with the exact
    condition under which the code meets it. */
module Convergence {
  import opened Protocol
  import opened JsMaps
  import opened Paths
  import opened Locks
  import opened LockProofs
  import opened Intents
  import opened Presences
  import opened Cache
  import opened Registries
  import opened States

  // ----- What the authoritative state shows in a slot -----

  function LockSlot(lock: Lock, sp: Spelling): EntryKey {
    KeyOf(LockChange(lock, Added), sp)
  }

  function GroupOfSlot(key: EntryKey, sp: Spelling): GroupKey {
    PathGroup(sp.fold(key.path))
  }

  function ShownLock(locks: Groups, key: EntryKey, sp: Spelling): Option<string> {
    var holder := Holder(locks, GroupOfSlot(key, sp));
    if holder.Some? && LockSlot(holder.value, sp) == key then Some("") else None
  }

  function PresenceSlot(record: PresenceRecord, sp: Spelling): EntryKey {
    KeyOf(PresenceChange(record.member, record.path, Added), sp)
  }

  function ShownPresence(presence: PresenceMap, key: EntryKey, sp: Spelling): Option<string> {
    var candidate := PresenceKey(key.memberId, sp.fold(key.path));
    if candidate in presence.data && !presence.data[candidate].state.Stopped?
       && PresenceSlot(presence.data[candidate], sp) == key then Some("") else None
  }

  function PathsOf(intent: Intent, entryType: EntryType): seq<string> {
    if entryType == IntentEntry then intent.modifyPaths else intent.createPaths
  }

  predicate OwnsSlot(intent: Intent, key: EntryKey) {
    key.intentId == intent.intentId && key.memberId == intent.owner.memberId && key.deviceId == intent.owner.deviceId
  }

  function ShownIn(intent: Intent, key: EntryKey): Option<string> {
    if OwnsSlot(intent, key) && key.path in PathsOf(intent, key.entryType) then Some(intent.description) else None
  }

  function ShownIntent(intents: IntentMap, key: EntryKey): Option<string> {
    if key.intentId in intents.data then ShownIn(intents.data[key.intentId], key) else None
  }

  /** The projection of the winning locks, the live presence and the live intents. */
  function Shown(regs: Registries, key: EntryKey, sp: Spelling): Option<string> {
    match key.entryType
    case LockEntry => ShownLock(regs.locks, key, sp)
    case PresenceEntry => ShownPresence(regs.presence, key, sp)
    case _ => ShownIntent(regs.intents, key)
  }

  /** The changes take the projection of one state to that of the other. */
  ghost predicate Carries(changes: seq<Change>, before: Registries, after: Registries, sp: Spelling) {
    forall key :: Net(changes, key, sp).On(Shown(before, key, sp)) == Shown(after, key, sp)
  }

  // ----- Locks -----

  /** A lock of a path group is shown in a slot of that group. */
  lemma SlotGroup(lock: Lock, group: GroupKey, sp: Spelling)
    requires KeyOfScope(lock.scope, lock.kind, sp) == group && group.PathGroup?
    ensures GroupOfSlot(LockSlot(lock, sp), sp) == group
  {
  }

  lemma LockChangeEffect(lock: Lock, op: Op, key: EntryKey, sp: Spelling)
    ensures EffectOf(LockChange(lock, op), key, sp) ==
            if LockSlot(lock, sp) != key then Untouched else if op.Removed? then Gone else Put("")
  {
  }

  /** The net effect of announcing a change of winner. */
  lemma TransitionNet(previous: Option<Lock>, next: Option<Lock>, key: EntryKey, sp: Spelling)
    ensures Net(Transition(previous, next), key, sp) ==
            if previous.Some? && next.Some? && previous.value.lockId == next.value.lockId then Untouched
            else if next.Some? && key == LockSlot(next.value, sp) then Put("")
            else if previous.Some? && key == LockSlot(previous.value, sp) then Gone
            else Untouched
  {
    var removed := if previous.Some? then [LockChange(previous.value, Removed)] else [];
    var added := if next.Some? then [LockChange(next.value, Added)] else [];
    NetConcat(removed, added, key, sp);
    NetOne(removed, key, sp);
    NetOne(added, key, sp);
    if previous.Some? { LockChangeEffect(previous.value, Removed, key, sp); }
    if next.Some? { LockChangeEffect(next.value, Added, key, sp); }
  }

  lemma NetOne(changes: seq<Change>, key: EntryKey, sp: Spelling)
    requires |changes| <= 1
    ensures Net(changes, key, sp) == if changes == [] then Untouched else EffectOf(changes[0], key, sp)
  {
    if changes != [] {
      assert Net(changes[1..], key, sp) == Untouched;
    }
  }

  /** The winner was respelled in place: same claim, another slot. */
  ghost predicate Respelled(previous: Option<Lock>, next: Option<Lock>, sp: Spelling) {
    previous.Some? && next.Some? && previous.value.lockId == next.value.lockId
    && LockSlot(previous.value, sp) != LockSlot(next.value, sp)
  }

  /** Announcing the transition of a group carries its slots, unless the winner was respelled. */
  lemma TransitionCarries(before: Groups, after: Groups, group: GroupKey, key: EntryKey, sp: Spelling)
    requires LocksValid(before, sp) && LocksValid(after, sp) && group.PathGroup? && GroupOfSlot(key, sp) == group
    requires !Respelled(Holder(before, group), Holder(after, group), sp)
    ensures Net(Transition(Holder(before, group), Holder(after, group)), key, sp).On(ShownLock(before, key, sp)) ==
            ShownLock(after, key, sp)
  {
    TransitionNet(Holder(before, group), Holder(after, group), key, sp);
  }

  /** Announcing the transition of a group leaves the slots of every other group alone. */
  lemma TransitionElsewhere(before: Groups, after: Groups, group: GroupKey, key: EntryKey, sp: Spelling)
    requires LocksValid(before, sp) && LocksValid(after, sp) && group.PathGroup? && GroupOfSlot(key, sp) != group
    ensures Net(Transition(Holder(before, group), Holder(after, group)), key, sp) == Untouched
  {
    TransitionNet(Holder(before, group), Holder(after, group), key, sp);
    HolderIsWinner(before, group, sp);
    HolderIsWinner(after, group, sp);
    if Holder(before, group).Some? { SlotGroup(Holder(before, group).value, group, sp); }
    if Holder(after, group).Some? { SlotGroup(Holder(after, group).value, group, sp); }
  }

  lemma OneGroupCarries(before: Groups, after: Groups, group: GroupKey, key: EntryKey, sp: Spelling)
    requires LocksValid(before, sp) && LocksValid(after, sp) && group.PathGroup?
    requires forall h :: h != group ==> Holder(after, h) == Holder(before, h)
    requires !Respelled(Holder(before, group), Holder(after, group), sp)
    ensures Net(Transition(Holder(before, group), Holder(after, group)), key, sp).On(ShownLock(before, key, sp)) ==
            ShownLock(after, key, sp)
  {
    if GroupOfSlot(key, sp) == group {
      TransitionCarries(before, after, group, key, sp);
    } else {
      TransitionElsewhere(before, after, group, key, sp);
    }
  }

  lemma SameHolder(before: Groups, after: Groups, key: EntryKey, sp: Spelling)
    requires Holder(after, GroupOfSlot(key, sp)) == Holder(before, GroupOfSlot(key, sp))
    ensures ShownLock(after, key, sp) == ShownLock(before, key, sp)
  {
  }

  // ----- Renaming a lock -----

  /** The sole claim of a group is renamed to another spelling of the same path:
      the registry respells the claim and nothing is announced. This happens only
      on hosts that fold letter case. */
  ghost predicate RespelledByRename(locks: Groups, memberId: string, fromPath: string, toPath: string, sp: Spelling) {
    var from := KeyOfScope(fromPath, File, sp);
    && from == KeyOfScope(toPath, File, sp) && Holds(locks, from, memberId) && |locks.data[from]| == 1
    && sp.normalize(locks.data[from][0].scope) != sp.normalize(toPath)
  }

  lemma DropsLastClaim(groups: Groups, key: GroupKey, memberId: string)
    requires Holds(groups, key, memberId)
    ensures key in groups.data
    ensures key in DropClaim(groups, key, memberId).data <==> |groups.data[key]| > 1
    ensures |groups.data[key]| == 1 ==>
              HeldClaim(groups, key, memberId) == groups.data[key][0] && WinnerIndex(groups.data[key]) == 0
  {
  }

  lemma SlotsOfSpellings(lock: Lock, moved: Lock, toPath: string, sp: Spelling)
    requires moved.scope == toPath && moved.holder == lock.holder
    ensures LockSlot(lock, sp) == LockSlot(moved, sp) <==> sp.normalize(lock.scope) == sp.normalize(toPath)
  {
  }

  lemma SameGroupRename(locks: Groups, event: Event, fromPath: string, toPath: string, revision: nat, sp: Spelling,
                        ids: set<string>)
    requires LocksValid(locks, sp) && revision > 0 && Bounded(locks, revision - 1, ids)
    requires KeyOfScope(fromPath, File, sp) == KeyOfScope(toPath, File, sp)
    requires TransferPath(locks, event.member, fromPath, toPath, revision, sp).Some?
    ensures var from := KeyOfScope(fromPath, File, sp);
            var after := TransferPath(locks, event.member, fromPath, toPath, revision, sp).value;
            && LocksValid(after, sp) && (forall h :: h != from ==> Holder(after, h) == Holder(locks, h))
            && (Respelled(Holder(locks, from), Holder(after, from), sp) <==>
                RespelledByRename(locks, event.member.memberId, fromPath, toPath, sp))
  {
    hide LocksValid, Bounded, Ids, Holder, DropClaim, LockSlot;
    var from := KeyOfScope(fromPath, File, sp);
    var memberId := event.member.memberId;
    var without := DropClaim(locks, from, memberId);
    var after := TransferPath(locks, event.member, fromPath, toPath, revision, sp).value;
    DropClaimKeeps(locks, from, memberId, sp, revision - 1, ids);
    TransferKeeps(locks, event.member, fromPath, toPath, revision, sp, ids);
    HolderIsWinner(locks, from, sp);
    HolderIsWinner(without, from, sp);
    DropsLastClaim(locks, from, memberId);
    if |locks.data[from]| == 1 {
      SlotsOfSpellings(locks.data[from][0], Holder(after, from).value, toPath, sp);
    }
  }

  lemma RenameLocksCarries(regs: Registries, event: Event, fromPath: string, toPath: string, revision: nat,
                           sp: Spelling,
                           ids: set<string>, key: EntryKey)
    requires LocksValid(regs.locks, sp) && revision > 0 && Bounded(regs.locks, revision - 1, ids)
    requires !RespelledByRename(regs.locks, event.member.memberId, fromPath, toPath, sp)
    ensures var (after, changes) := RenameLocks(regs, event, fromPath, toPath, revision, sp);
            Net(changes, key, sp).On(ShownLock(regs.locks, key, sp)) == ShownLock(after, key, sp)
  {
    hide LocksValid, Bounded, Net, Transition, ShownLock, Holder, Respelled, RespelledByRename, DropClaim, GroupOfSlot;
    var before := regs.locks;
    var (after, changes) := RenameLocks(regs, event, fromPath, toPath, revision, sp);
    NetOne([], key, sp);
    if TransferPath(before, event.member, fromPath, toPath, revision, sp).Some? {
      var from, to := KeyOfScope(fromPath, File, sp), KeyOfScope(toPath, File, sp);
      var memberId := event.member.memberId;
      var first := Transition(Holder(before, from), Holder(after, from));
      var second := Transition(Holder(before, to), Holder(after, to));
      NetConcat(first, second, key, sp);
      TransferKeeps(before, event.member, fromPath, toPath, revision, sp, ids);
      DropClaimKeeps(before, from, memberId, sp, revision - 1, ids);
      if from == to {
        SameGroupRename(before, event, fromPath, toPath, revision, sp, ids);
        OneGroupCarries(before, after, from, key, sp);
        TransitionNet(Holder(before, from), Holder(after, from), key, sp);
      } else {
        var held := HeldClaim(before, from, memberId);
        DifferentGroupRename(before, event, fromPath, toPath, revision, sp, ids);
        if GroupOfSlot(key, sp) == from {
          TransitionElsewhere(before, after, to, key, sp);
          TransitionCarries(before, after, from, key, sp);
        } else if GroupOfSlot(key, sp) == to {
          TransitionElsewhere(before, after, from, key, sp);
          TransitionCarries(before, after, to, key, sp);
        } else {
          TransitionElsewhere(before, after, from, key, sp);
          TransitionElsewhere(before, after, to, key, sp);
          SameHolder(before, after, key, sp);
        }
      }
    }
  }

  lemma DifferentGroupRename(locks: Groups, event: Event, fromPath: string, toPath: string, revision: nat, sp: Spelling,
                             ids: set<string>)
    requires LocksValid(locks, sp) && revision > 0 && Bounded(locks, revision - 1, ids)
    requires KeyOfScope(fromPath, File, sp) != KeyOfScope(toPath, File, sp)
    requires TransferPath(locks, event.member, fromPath, toPath, revision, sp).Some?
    ensures var from, to := KeyOfScope(fromPath, File, sp), KeyOfScope(toPath, File, sp);
            var after := TransferPath(locks, event.member, fromPath, toPath, revision, sp).value;
            && LocksValid(after, sp) && (forall h :: h != from && h != to ==> Holder(after, h) == Holder(locks, h))
            && !Respelled(Holder(locks, from), Holder(after, from), sp)
               && !Respelled(Holder(locks, to), Holder(after, to), sp)
  {
    var from, to := KeyOfScope(fromPath, File, sp), KeyOfScope(toPath, File, sp);
    var without := DropClaim(locks, from, event.member.memberId);
    var after := TransferPath(locks, event.member, fromPath, toPath, revision, sp).value;
    DropClaimKeeps(locks, from, event.member.memberId, sp, revision - 1, ids);
    TransferKeeps(locks, event.member, fromPath, toPath, revision, sp, ids);
    NotRespelled(Holder(locks, from), Holder(after, from), sp);
    assert Holder(without, to) == Holder(locks, to);
    if Holder(locks, to).Some? {
      assert Holder(after, to) == Holder(locks, to);
    }
  }

  lemma NotRespelled(previous: Option<Lock>, next: Option<Lock>, sp: Spelling)
    requires previous != next && previous.Some? && next.Some? ==> previous.value.lockId != next.value.lockId
    ensures !Respelled(previous, next, sp)
  {
  }

  /** The respelled claim is shown in a slot that nobody was told about. */
  lemma RespelledIsLost(regs: Registries, event: Event, fromPath: string, toPath: string, revision: nat, sp: Spelling,
                        ids: set<string>) returns (key: EntryKey)
    requires LocksValid(regs.locks, sp) && revision > 0 && Bounded(regs.locks, revision - 1, ids)
    requires RespelledByRename(regs.locks, event.member.memberId, fromPath, toPath, sp)
    ensures key.entryType == LockEntry
    ensures var (after, changes) := RenameLocks(regs, event, fromPath, toPath, revision, sp);
            Net(changes, key, sp).On(ShownLock(regs.locks, key, sp)) != ShownLock(after, key, sp)
  {
    var from := KeyOfScope(fromPath, File, sp);
    var (after, changes) := RenameLocks(regs, event, fromPath, toPath, revision, sp);
    SameGroupRename(regs.locks, event, fromPath, toPath, revision, sp, ids);
    HolderIsWinner(after, from, sp);
    key := LockSlot(Holder(after, from).value, sp);
    SlotGroup(Holder(after, from).value, from, sp);
    var transition := Transition(Holder(regs.locks, from), Holder(after, from));
    NetConcat(transition, transition, key, sp);
    TransitionNet(Holder(regs.locks, from), Holder(after, from), key, sp);
  }

  // ----- Presence -----

  /** The report meets the member's live record only in that record's own slot: the
      registry keeps one record per member and path, the caches one per device. */
  predicate SameSlot(presence: PresenceMap, member: Member, path: string, sp: Spelling) {
    var key := KeyOfPresence(member, path, sp);
    key in presence.data && !presence.data[key].state.Stopped? ==>
      PresenceSlot(presence.data[key], sp) == KeyOf(PresenceChange(member, path, Added), sp)
  }

  lemma PresenceNet(member: Member, path: string, op: Op, key: EntryKey, sp: Spelling)
    ensures Net([PresenceChange(member, path, op)], key, sp) ==
            if key != KeyOf(PresenceChange(member, path, Added), sp) then Untouched
            else if op.Removed? then Gone else Put("")
  {
    NetOne([PresenceChange(member, path, op)], key, sp);
  }

  lemma ReportCarries(presence: PresenceMap, member: Member, path: string, state: PresenceState, revision: nat,
                      sp: Spelling, key: EntryKey)
    requires sp.Lawful() && PresenceValid(presence, sp) && PresenceBounded(presence, revision)
             && key.entryType == PresenceEntry
    requires SameSlot(presence, member, path, sp)
    ensures var changes := [PresenceChange(member, path, if state.Stopped? then Removed else Added)];
            Net(changes, key, sp).On(ShownPresence(presence, key, sp)) ==
            ShownPresence(Report(presence, member, path, state, revision, sp), key, sp)
  {
    PresenceNet(member, path, if state.Stopped? then Removed else Added, key, sp);
    var after := Report(presence, member, path, state, revision, sp);
    var slot := KeyOfPresence(member, path, sp);
    assert sp.normalize(sp.normalize(path)) == sp.normalize(path);
    if slot in presence.data { assert RecordValid(slot, presence.data[slot], sp); }
    var candidate := PresenceKey(key.memberId, sp.fold(key.path));
    if candidate != slot {
      assert ShownPresence(after, key, sp) == ShownPresence(presence, key, sp);
    }
  }

  /** Otherwise the earlier device's entry stays in every cache. */
  lemma SecondDeviceIsKept(presence: PresenceMap, member: Member, path: string, state: PresenceState, revision: nat,
                           sp: Spelling) returns (key: EntryKey)
    requires sp.Lawful() && PresenceValid(presence, sp) && PresenceBounded(presence, revision)
    requires !SameSlot(presence, member, path, sp)
    ensures key.entryType == PresenceEntry
    ensures var changes := [PresenceChange(member, path, if state.Stopped? then Removed else Added)];
            Net(changes, key, sp).On(ShownPresence(presence, key, sp)) == Some("")
            && ShownPresence(Report(presence, member, path, state, revision, sp), key, sp) == None
  {
    var slot := KeyOfPresence(member, path, sp);
    assert RecordValid(slot, presence.data[slot], sp);
    key := PresenceSlot(presence.data[slot], sp);
    PresenceNet(member, path, if state.Stopped? then Removed else Added, key, sp);
    assert sp.normalize(sp.normalize(path)) == sp.normalize(path);
  }

  // ----- Intents -----

  ghost predicate Names(paths: seq<string>, path: string, sp: Spelling) {
    exists p :: p in paths && sp.normalize(p) == path
  }

  lemma NormalNames(paths: seq<string>, path: string, sp: Spelling)
    requires Normal(paths, sp)
    ensures Names(paths, path, sp) <==> path in paths
  {
  }

  lemma IntentChangeEffect(intent: Intent, entryType: EntryType, op: Op, path: string, key: EntryKey, sp: Spelling)
    requires IsIntentEntry(entryType) && intent.intentId != ""
    ensures EffectOf(IntentChange(intent, entryType, op, path), key, sp) ==
            if key.intentId != "" then
              if key.entryType == entryType && OwnsSlot(intent, key) && key.path == sp.normalize(path) then
                if op.Removed? then Gone else Put(intent.description)
              else Untouched
            else if op.Removed? && key ==
                    KeyOf(IntentChange(intent, entryType, op, path), sp).(intentId := "") then Gone
            else Untouched
  {
  }

  lemma {:induction false} PathChangesNet(intent: Intent, entryType: EntryType, op: Op, paths: seq<string>,
                                          key: EntryKey,
                                          sp: Spelling)
    requires IsIntentEntry(entryType) && intent.intentId != "" && key.intentId != ""
    ensures Net(PathChanges(intent, entryType, op, paths), key, sp) ==
            if key.entryType == entryType && OwnsSlot(intent, key) && Names(paths, key.path, sp) then
              if op.Removed? then Gone else Put(intent.description)
            else Untouched
  {
    if paths != [] {
      IntentChangeEffect(intent, entryType, op, paths[0], key, sp);
      PathChangesNet(intent, entryType, op, paths[1..], key, sp);
      assert PathChanges(intent, entryType, op, paths)[1..] == PathChanges(intent, entryType, op, paths[1..]);
      assert paths == [paths[0]] + paths[1..];
    }
  }

  lemma IntentChangesNet(intent: Intent, op: Op, key: EntryKey, sp: Spelling)
    requires intent.intentId != "" && key.intentId != ""
    ensures Net(IntentChanges(intent, op), key, sp) ==
            if IsIntentEntry(key.entryType) && OwnsSlot(intent, key)
               && Names(PathsOf(intent, key.entryType), key.path, sp) then
              if op.Removed? then Gone else Put(intent.description)
            else Untouched
  {
    PathChangesNet(intent, IntentEntry, op, intent.modifyPaths, key, sp);
    PathChangesNet(intent, CreationEntry, op, intent.createPaths, key, sp);
    NetConcat(PathChanges(intent, IntentEntry, op, intent.modifyPaths),
              PathChanges(intent, CreationEntry, op, intent.createPaths), key, sp);
  }

  /** Changes to named intents, which never install an unnamed slot. */
  ghost predicate NamedIntentChanges(changes: seq<Change>) {
    forall c :: c in changes ==> IsIntentEntry(c.entryType) && c.intent.Some? && c.intent.value.intentId != ""
  }

  lemma {:induction false} UnnamedNet(changes: seq<Change>, key: EntryKey, sp: Spelling)
    requires NamedIntentChanges(changes) && key.intentId == ""
    ensures Net(changes, key, sp).On(None) == None
  {
    if changes != [] {
      UnnamedNet(changes[1..], key, sp);
    }
  }

  ghost predicate OfTypes(changes: seq<Change>, types: set<EntryType>) {
    forall c :: c in changes ==> c.entryType in types
  }

  lemma OtherTypesNet(changes: seq<Change>, types: set<EntryType>, key: EntryKey, sp: Spelling)
    requires OfTypes(changes, types) && key.entryType !in types
    ensures Net(changes, key, sp) == Untouched
  {
    NetUntouched(changes, key, sp);
  }

  lemma DeclaredCarries(before: IntentMap, intent: Intent, key: EntryKey, sp: Spelling)
    requires intent.intentId != "" && IsIntentEntry(key.entryType) && key.intentId != ""
    requires intent.intentId !in before.data
    requires Normal(intent.modifyPaths, sp) && Normal(intent.createPaths, sp)
    ensures Net(IntentChanges(intent, Added), key, sp).On(ShownIntent(before, key)) ==
            ShownIntent(before.Set(intent.intentId, intent), key)
  {
    IntentChangesNet(intent, Added, key, sp);
    NormalNames(PathsOf(intent, key.entryType), key.path, sp);
  }

  lemma UpdatedCarries(before: IntentMap, intent: Intent, key: EntryKey, sp: Spelling)
    requires NamedIntents(before, sp) && IsIntentEntry(key.entryType) && key.intentId != ""
    requires intent.intentId in before.data && before.data[intent.intentId].owner == intent.owner
    requires Normal(intent.modifyPaths, sp) && Normal(intent.createPaths, sp)
    ensures Net(IntentChanges(before.data[intent.intentId], Removed) + IntentChanges(intent, Added), key, sp)
              .On(ShownIntent(before, key)) == ShownIntent(before.Set(intent.intentId, intent), key)
  {
    var stored := before.data[intent.intentId];
    assert NamedIntent(intent.intentId, stored, sp);
    NetConcat(IntentChanges(stored, Removed), IntentChanges(intent, Added), key, sp);
    IntentChangesNet(stored, Removed, key, sp);
    IntentChangesNet(intent, Added, key, sp);
    NormalNames(PathsOf(stored, key.entryType), key.path, sp);
    NormalNames(PathsOf(intent, key.entryType), key.path, sp);
  }

  lemma WithdrawnCarries(before: IntentMap, id: string, key: EntryKey, sp: Spelling)
    requires NamedIntents(before, sp) && IsIntentEntry(key.entryType) && key.intentId != "" && id in before.data
    ensures Net(IntentChanges(before.data[id], Removed), key, sp).On(ShownIntent(before, key)) ==
            ShownIntent(before.Delete(id), key)
  {
    var stored := before.data[id];
    assert NamedIntent(id, stored, sp);
    IntentChangesNet(stored, Removed, key, sp);
    NormalNames(PathsOf(stored, key.entryType), key.path, sp);
  }

  // ----- Renames, creations and deletions seen by intents -----

  /** The registry matches paths by folded key, the broadcast by exact spelling:
      the two meet the same paths. */
  predicate MoveAgrees(paths: seq<string>, fromPath: string, toPath: string, sp: Spelling) {
    forall p :: p in paths && sp.Key(p) == sp.Key(fromPath) ==>
                  sp.normalize(p) == sp.normalize(fromPath) || sp.normalize(p) == sp.normalize(toPath)
  }

  predicate DropAgrees(paths: seq<string>, path: string, sp: Spelling) {
    forall p :: p in paths && sp.Key(p) == sp.Key(path) ==> sp.normalize(p) == sp.normalize(path)
  }

  /** No two different paths share a match key, so none is dropped as a duplicate. */
  predicate KeysApart(paths: seq<string>, sp: Spelling) {
    forall p, q :: p in paths && q in paths && sp.Key(p) == sp.Key(q) ==> p == q
  }

  predicate Agrees(intent: Intent, event: PathEvent, sp: Spelling) {
    match event
    case Renamed(fromPath, toPath) =>
      MoveAgrees(intent.modifyPaths, fromPath, toPath, sp) && MoveAgrees(intent.createPaths, fromPath, toPath, sp)
      && KeysApart(MovePath(intent.createPaths, sp.Key(fromPath), sp.normalize(toPath), sp), sp)
    case Created(path) => DropAgrees(intent.createPaths, path, sp)
    case DeletedBy(path, _) => DropAgrees(intent.modifyPaths, path, sp) && DropAgrees(intent.createPaths, path, sp)
  }

  lemma MoveChangesNet(intent: Intent, entryType: EntryType, paths: seq<string>, fromPath: string, toPath: string,
                       key: EntryKey, sp: Spelling)
    requires IsIntentEntry(entryType) && intent.intentId != "" && key.intentId != ""
    ensures Net(MoveChanges(intent, entryType, paths, fromPath, toPath, sp), key, sp) ==
            if key.entryType != entryType || !OwnsSlot(intent, key) || !SpelledIn(paths, fromPath, sp) then Untouched
            else if key.path == sp.normalize(toPath) then Put(intent.description)
            else if key.path == sp.normalize(fromPath) then Gone
            else Untouched
  {
    var removed, added :=
      IntentChange(intent, entryType, Removed, fromPath), IntentChange(intent, entryType, Added, toPath);
    NetConcat([removed], [added], key, sp);
    NetOne([removed], key, sp);
    NetOne([added], key, sp);
    IntentChangeEffect(intent, entryType, Removed, fromPath, key, sp);
    IntentChangeEffect(intent, entryType, Added, toPath, key, sp);
    assert [removed] + [added] == [removed, added];
  }

  lemma DropChangesNet(intent: Intent, entryType: EntryType, paths: seq<string>, path: string, key: EntryKey,
                       sp: Spelling)
    requires IsIntentEntry(entryType) && intent.intentId != "" && key.intentId != ""
    ensures Net(DropChanges(intent, entryType, paths, path, sp), key, sp) ==
            if key.entryType == entryType && OwnsSlot(intent, key) && SpelledIn(paths, path, sp)
               && key.path == sp.normalize(path) then Gone
            else Untouched
  {
    NetOne(DropChanges(intent, entryType, paths, path, sp), key, sp);
    IntentChangeEffect(intent, entryType, Removed, path, key, sp);
  }

  /** The net effect of the announcement of one path event for one intent. */
  lemma EventChangesNet(intent: Intent, event: PathEvent, key: EntryKey, sp: Spelling)
    requires intent.intentId != "" && key.intentId != "" && IsIntentEntry(key.entryType)
    ensures var paths := PathsOf(intent, key.entryType);
            Net(EventChanges(intent, event, sp), key, sp) ==
            match event
            case Renamed(fromPath, toPath) => Net(MoveChanges(intent, key.entryType, paths, fromPath, toPath, sp), key,
                                                  sp)
            case Created(path) =>
              if key.entryType == CreationEntry && OwnsSlot(intent, key)
                 && key.path == sp.normalize(path) then Gone else Untouched
            case DeletedBy(path, _) => Net(DropChanges(intent, key.entryType, paths, path, sp), key, sp)
  {
    match event
    case Renamed(fromPath, toPath) =>
      var first := MoveChanges(intent, IntentEntry, intent.modifyPaths, fromPath, toPath, sp);
      var second := MoveChanges(intent, CreationEntry, intent.createPaths, fromPath, toPath, sp);
      NetConcat(first, second, key, sp);
      MoveChangesNet(intent, IntentEntry, intent.modifyPaths, fromPath, toPath, key, sp);
      MoveChangesNet(intent, CreationEntry, intent.createPaths, fromPath, toPath, key, sp);
    case Created(path) =>
      NetOne(EventChanges(intent, event, sp), key, sp);
      IntentChangeEffect(intent, CreationEntry, Removed, path, key, sp);
    case DeletedBy(path, _) =>
      var first := DropChanges(intent, IntentEntry, intent.modifyPaths, path, sp);
      var second := DropChanges(intent, CreationEntry, intent.createPaths, path, sp);
      NetConcat(first, second, key, sp);
      DropChangesNet(intent, IntentEntry, intent.modifyPaths, path, key, sp);
      DropChangesNet(intent, CreationEntry, intent.createPaths, path, key, sp);
  }

  /** What moving one path does to a normalised path set. */
  lemma MovedPaths(paths: seq<string>, fromPath: string, toPath: string, sp: Spelling, x: string)
    requires sp.Lawful() && Normal(paths, sp)
    ensures x in MovePath(paths, sp.Key(fromPath), sp.normalize(toPath), sp) <==>
            (x in paths && sp.Key(x) != sp.Key(fromPath))
            || (x == sp.normalize(toPath) && Mentions(paths, sp.Key(fromPath), sp))
  {
    var moved := MovePath(paths, sp.Key(fromPath), sp.normalize(toPath), sp);
    if x in moved {
      var i :| 0 <= i < |moved| && moved[i] == x;
      assert paths[i] in paths;
    }
    if x in paths && sp.Key(x) != sp.Key(fromPath) {
      var i :| 0 <= i < |paths| && paths[i] == x;
      assert moved[i] == x;
    }
    if Mentions(paths, sp.Key(fromPath), sp) {
      var p :| p in paths && sp.Key(p) == sp.Key(fromPath);
      var i :| 0 <= i < |paths| && paths[i] == p;
      assert moved[i] == sp.normalize(toPath);
    }
  }

  /** Deduplication by key keeps everything when different paths have different keys,
      and otherwise loses a path. */
  lemma {:induction false} DedupeByKeyKeeps(paths: seq<string>, sp: Spelling)
    requires KeysApart(paths, sp)
    ensures forall p :: p in paths ==> p in DedupeByKey(paths, sp)
  {
    if paths != [] {
      var init, last := paths[..|paths| - 1], paths[|paths| - 1];
      assert paths == init + [last];
      DedupeByKeyKeeps(init, sp);
    }
  }

  lemma {:induction false} DedupeByKeyIsApart(paths: seq<string>, sp: Spelling)
    ensures KeysApart(DedupeByKey(paths, sp), sp)
  {
    if paths != [] {
      DedupeByKeyIsApart(paths[..|paths| - 1], sp);
    }
  }

  lemma DedupeByKeyLoses(paths: seq<string>, sp: Spelling) returns (lost: string)
    requires !KeysApart(paths, sp)
    ensures lost in paths && lost !in DedupeByKey(paths, sp)
  {
    DedupeByKeyIsApart(paths, sp);
    var p, q :| p in paths && q in paths && sp.Key(p) == sp.Key(q) && p != q;
    lost := if p in DedupeByKey(paths, sp) then q else p;
  }

  /** A slot after an announced move, against the registry's moved paths. */
  lemma MoveCarries(intent: Intent, entryType: EntryType, paths: seq<string>, fromPath: string, toPath: string,
                    key: EntryKey, sp: Spelling)
    requires sp.Lawful() && Normal(paths, sp) && IsIntentEntry(entryType) && intent.intentId != "" && key.intentId != ""
    requires key.entryType == entryType && OwnsSlot(intent, key)
    ensures Net(MoveChanges(intent, entryType, paths, fromPath, toPath, sp), key, sp)
              .On(if key.path in paths then Some(intent.description) else None) ==
            (if SpelledIn(paths, fromPath, sp) && key.path == sp.normalize(toPath) then Some(intent.description)
             else if SpelledIn(paths, fromPath, sp) && key.path == sp.normalize(fromPath) then None
             else if key.path in paths then Some(intent.description) else None)
  {
    MoveChangesNet(intent, entryType, paths, fromPath, toPath, key, sp);
  }

  /** When the spellings agree, announced and registered moves meet. */
  lemma MoveMeets(paths: seq<string>, fromPath: string, toPath: string, sp: Spelling, x: string)
    requires sp.Lawful() && Normal(paths, sp) && MoveAgrees(paths, fromPath, toPath, sp)
    ensures x in MovePath(paths, sp.Key(fromPath), sp.normalize(toPath), sp) <==>
            if SpelledIn(paths, fromPath, sp) && x == sp.normalize(toPath) then true
            else if SpelledIn(paths, fromPath, sp) && x == sp.normalize(fromPath) then false
            else x in paths
  {
    MovedPaths(paths, fromPath, toPath, sp, x);
    var key := sp.Key(fromPath);
    if SpelledIn(paths, fromPath, sp) {
      var p :| p in paths && sp.normalize(p) == sp.normalize(fromPath);
      assert sp.Key(p) == key && Mentions(paths, key, sp);
      if x in paths {
        assert sp.normalize(x) == x;
      }
    } else if Mentions(paths, key, sp) {
      var p :| p in paths && sp.Key(p) == key;
      assert sp.normalize(p) == p == sp.normalize(toPath);
    }
    if x == sp.normalize(fromPath) {
      assert sp.normalize(x) == x;
    }
  }

  /** Otherwise a moved path stays announced although the registry has moved it. */
  lemma MoveMisses(paths: seq<string>, fromPath: string, toPath: string, sp: Spelling) returns (x: string)
    requires sp.Lawful() && Normal(paths, sp) && !MoveAgrees(paths, fromPath, toPath, sp)
    ensures x in paths && x != sp.normalize(fromPath) && x != sp.normalize(toPath)
    ensures x !in MovePath(paths, sp.Key(fromPath), sp.normalize(toPath), sp)
  {
    x :| x in paths && sp.Key(x) == sp.Key(fromPath)
         && sp.normalize(x) != sp.normalize(fromPath) && sp.normalize(x) != sp.normalize(toPath);
    MovedPaths(paths, fromPath, toPath, sp, x);
  }

  lemma EventCarriesIntent(intent: Intent, event: PathEvent, key: EntryKey, sp: Spelling)
    requires sp.Lawful() && NamedIntent(intent.intentId, intent, sp) && Affects(intent, event, sp)
             && Agrees(intent, event, sp)
    requires IsIntentEntry(key.entryType) && key.intentId == intent.intentId
    ensures Net(EventChanges(intent, event, sp), key, sp).On(ShownIn(intent, key)) ==
            ShownIn(AfterEvent(intent, event, sp), key)
  {
    EventChangesNet(intent, event, key, sp);
    var paths := PathsOf(intent, key.entryType);
    match event
    case Renamed(fromPath, toPath) =>
      MoveChangesNet(intent, key.entryType, paths, fromPath, toPath, key, sp);
      if OwnsSlot(intent, key) {
        MoveCarries(intent, key.entryType, paths, fromPath, toPath, key, sp);
        MoveMeets(paths, fromPath, toPath, sp, key.path);
        DedupeByKeyKeeps(MovePath(intent.createPaths, sp.Key(fromPath), sp.normalize(toPath), sp), sp);
      }
    case Created(path) =>
      SpelledDrop(intent.createPaths, path, sp);
    case DeletedBy(path, _) =>
      DropChangesNet(intent, key.entryType, paths, path, key, sp);
      SpelledDrop(paths, path, sp);
  }

  lemma SpelledDrop(paths: seq<string>, path: string, sp: Spelling)
    requires Normal(paths, sp) && DropAgrees(paths, path, sp)
    ensures forall x :: x in DropPath(paths, sp.Key(path), sp) <==> x in paths && x != sp.normalize(path)
    ensures SpelledIn(paths, path, sp) <==> sp.normalize(path) in paths
  {
    forall x | x in paths
      ensures sp.Key(x) == sp.Key(path) <==> x == sp.normalize(path)
    {
      assert sp.normalize(x) == x;
    }
  }

  function SlotOf(intent: Intent, entryType: EntryType, path: string): EntryKey {
    EntryKey(entryType, path, intent.owner.memberId, intent.owner.deviceId, intent.intentId)
  }

  /** The condition is exact: whenever it fails some slot of the intent goes wrong. */
  lemma EventBreaksIntent(intent: Intent, event: PathEvent, sp: Spelling) returns (key: EntryKey)
    requires sp.Lawful() && NamedIntent(intent.intentId, intent, sp) && Affects(intent, event, sp)
             && !Agrees(intent, event, sp)
    ensures IsIntentEntry(key.entryType) && key.intentId == intent.intentId
    ensures Net(EventChanges(intent, event, sp), key,
                sp).On(ShownIn(intent, key)) != ShownIn(AfterEvent(intent, event, sp), key)
  {
    match event
    case Renamed(fromPath, toPath) =>
      key := MoveBreaks(intent, fromPath, toPath, sp);
    case Created(path) =>
      key := SlotOf(intent, CreationEntry, DropMisses(intent.createPaths, path, sp));
      EventChangesNet(intent, event, key, sp);
    case DeletedBy(path, _) =>
      var entryType := if DropAgrees(intent.modifyPaths, path, sp) then CreationEntry else IntentEntry;
      key := SlotOf(intent, entryType, DropMisses(PathsOf(intent, entryType), path, sp));
      EventChangesNet(intent, event, key, sp);
      DropChangesNet(intent, entryType, PathsOf(intent, entryType), path, key, sp);
  }

  ghost function DropMisses(paths: seq<string>, path: string, sp: Spelling): (x: string)
    requires Normal(paths, sp) && !DropAgrees(paths, path, sp)
    ensures x in paths && x !in DropPath(paths, sp.Key(path), sp) && x != sp.normalize(path)
  {
    var p :| p in paths && sp.Key(p) == sp.Key(path) && sp.normalize(p) != sp.normalize(path);
    p
  }

  lemma MoveBreaks(intent: Intent, fromPath: string, toPath: string, sp: Spelling) returns (key: EntryKey)
    requires sp.Lawful() && NamedIntent(intent.intentId, intent, sp)
    requires Affects(intent, Renamed(fromPath, toPath), sp) && !Agrees(intent, Renamed(fromPath, toPath), sp)
    ensures IsIntentEntry(key.entryType) && key.intentId == intent.intentId
    ensures Net(EventChanges(intent, Renamed(fromPath, toPath), sp), key, sp).On(ShownIn(intent, key)) !=
            ShownIn(AfterEvent(intent, Renamed(fromPath, toPath), sp), key)
  {
    var event := Renamed(fromPath, toPath);
    var moved := MovePath(intent.createPaths, sp.Key(fromPath), sp.normalize(toPath), sp);
    if !MoveAgrees(intent.modifyPaths, fromPath, toPath, sp) {
      var x := MoveMisses(intent.modifyPaths, fromPath, toPath, sp);
      key := SlotOf(intent, IntentEntry, x);
    } else if !MoveAgrees(intent.createPaths, fromPath, toPath, sp) {
      var x := MoveMisses(intent.createPaths, fromPath, toPath, sp);
      key := SlotOf(intent, CreationEntry, x);
    } else {
      var x := DedupeByKeyLoses(moved, sp);
      key := SlotOf(intent, CreationEntry, x);
      MoveMeets(intent.createPaths, fromPath, toPath, sp, x);
    }
    EventChangesNet(intent, event, key, sp);
    MoveCarries(intent, key.entryType, PathsOf(intent, key.entryType), fromPath, toPath, key, sp);
  }

  // ----- All intents at once -----

  lemma {:induction false} AllEventChangesNet(keys: seq<string>, data: map<string, Intent>, event: PathEvent,
                                              key: EntryKey,
                                              sp: Spelling)
    requires Distinct(keys) && forall k :: k in keys ==> k in data && data[k].intentId == k && k != ""
    requires IsIntentEntry(key.entryType) && key.intentId != ""
    ensures Net(AllEventChanges(keys, data, event, sp), key, sp) ==
            if key.intentId in keys && Affects(data[key.intentId], event, sp)
            then Net(EventChanges(data[key.intentId], event, sp), key, sp) else Untouched
  {
    if keys != [] {
      var first, rest := keys[0], keys[1..];
      assert forall k :: k in keys <==> k == first || k in rest;
      assert first !in rest;
      AllEventChangesNet(rest, data, event, key, sp);
      var own := if Affects(data[first], event, sp) then EventChanges(data[first], event, sp) else [];
      NetConcat(own, AllEventChanges(rest, data, event, sp), key, sp);
      if first != key.intentId {
        EventChangesNet(data[first], event, key, sp);
        OthersUntouched(data[first], event, key, sp);
      }
    }
  }

  lemma OthersUntouched(intent: Intent, event: PathEvent, key: EntryKey, sp: Spelling)
    requires intent.intentId != "" && key.intentId != "" && key.intentId != intent.intentId
             && IsIntentEntry(key.entryType)
    ensures Net(EventChanges(intent, event, sp), key, sp) == Untouched
  {
    EventChangesNet(intent, event, key, sp);
    match event
    case Renamed(fromPath, toPath) =>
      MoveChangesNet(intent, key.entryType, PathsOf(intent, key.entryType), fromPath, toPath, key, sp);
    case Created(path) =>
    case DeletedBy(path, _) =>
      DropChangesNet(intent, key.entryType, PathsOf(intent, key.entryType), path, key, sp);
  }

  /** Every intent the event affects is matched by folded key and by spelling alike. */
  predicate AllAgree(intents: IntentMap, event: PathEvent, sp: Spelling) {
    forall id :: id in intents.data && Affects(intents.data[id], event, sp) ==> Agrees(intents.data[id], event, sp)
  }

  lemma EventCarries(intents: IntentMap, event: PathEvent, key: EntryKey, sp: Spelling)
    requires sp.Lawful() && NamedIntents(intents, sp) && AllAgree(intents, event, sp) && IsIntentEntry(key.entryType)
    ensures Net(AllEventChanges(intents.keys, intents.data, event, sp), key, sp).On(ShownIntent(intents, key)) ==
            ShownIntent(AllAfter(intents, event, sp), key)
  {
    assert forall k :: k in intents.keys ==> NamedIntent(k, intents.data[k], sp);
    if key.intentId == "" {
      AllNamed(intents.keys, intents.data, event, sp);
      UnnamedNet(AllEventChanges(intents.keys, intents.data, event, sp), key, sp);
      assert "" !in intents.keys;
    } else {
      AllEventChangesNet(intents.keys, intents.data, event, key, sp);
      if key.intentId in intents.data && Affects(intents.data[key.intentId], event, sp) {
        EventCarriesIntent(intents.data[key.intentId], event, key, sp);
      }
    }
  }

  lemma EventChangesNamed(intent: Intent, event: PathEvent, sp: Spelling)
    requires intent.intentId != ""
    ensures NamedIntentChanges(EventChanges(intent, event, sp))
  {
  }

  lemma {:induction false} AllNamed(keys: seq<string>, data: map<string, Intent>, event: PathEvent, sp: Spelling)
    requires forall k :: k in keys ==> k in data && data[k].intentId == k && k != ""
    ensures NamedIntentChanges(AllEventChanges(keys, data, event, sp))
  {
    hide EventChanges, Affects;
    if keys != [] {
      assert forall k :: k in keys[1..] ==> k in keys;
      AllNamed(keys[1..], data, event, sp);
      assert keys[0] in keys;
      EventChangesNamed(data[keys[0]], event, sp);
    }
  }

  lemma EventBreaks(intents: IntentMap, event: PathEvent, sp: Spelling) returns (key: EntryKey)
    requires sp.Lawful() && NamedIntents(intents, sp) && !AllAgree(intents, event, sp)
    ensures IsIntentEntry(key.entryType)
    ensures Net(AllEventChanges(intents.keys, intents.data, event, sp), key, sp).On(ShownIntent(intents, key)) !=
            ShownIntent(AllAfter(intents, event, sp), key)
  {
    var id :| id in intents.data && Affects(intents.data[id], event, sp) && !Agrees(intents.data[id], event, sp);
    assert forall k :: k in intents.keys ==> NamedIntent(k, intents.data[k], sp);
    key := EventBreaksIntent(intents.data[id], event, sp);
    AllEventChangesNet(intents.keys, intents.data, event, key, sp);
  }
}
