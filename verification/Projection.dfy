/** The snapshot an agent falls back to shows exactly what the host's state projects
    to, so a replaced cache and a replayed one meet. */
module Projection {
  import opened Protocol
  import opened JsMaps
  import opened Paths
  import opened Locks
  import opened LockProofs
  import opened Intents
  import opened Presences
  import opened Cache
  import opened Registries
  import opened States
  import opened Convergence
  import opened EventConvergence

  // ----- Projecting a snapshot -----

  function LockEntries(locks: seq<Lock>): seq<Update> {
    if locks == [] then []
    else
      (if locks[0].concurrent then [] else [Protocol.Update(LockChange(locks[0], Added), locks[0].eventRevision)])
      + LockEntries(locks[1..])
  }

  function PresenceEntries(records: seq<PresenceRecord>): seq<Update> {
    if records == [] then []
    else
      (if records[0].state.Stopped? then []
       else [Protocol.Update(PresenceChange(records[0].member, records[0].path, Added), records[0].eventRevision)])
      + PresenceEntries(records[1..])
  }

  function EntriesOf(changes: seq<Change>, revision: nat): (updates: seq<Update>)
    ensures |updates| == |changes|
    ensures forall i :: 0 <= i < |updates| ==> updates[i] == Protocol.Update(changes[i], revision)
  {
    seq(|changes|, i requires 0 <= i < |changes| => Protocol.Update(changes[i], revision))
  }

  function IntentEntries(intents: seq<Intent>): seq<Update> {
    if intents == [] then []
    else EntriesOf(IntentChanges(intents[0], Added), intents[0].eventRevision) + IntentEntries(intents[1..])
  }

  function ProjectSnapshot(snapshot: Snapshot): seq<Update> {
    LockEntries(snapshot.locks) + PresenceEntries(snapshot.presence) + IntentEntries(snapshot.intents)
  }

  function Install(slots: map<EntryKey, Update>, updates: seq<Update>, sp: Spelling): map<EntryKey, Update>
    decreases |updates|
  {
    if updates == [] then slots else Install(slots[KeyOf(updates[0].change, sp) := updates[0]], updates[1..], sp)
  }

  /** Replace the whole cache. */
  function ApplySnapshot(snapshot: Snapshot, sp: Spelling): Entries {
    Entries(Install(map[], ProjectSnapshot(snapshot), sp), snapshot.highestRevision)
  }

  // ----- What the replaced cache shows -----

  ghost predicate Writes(updates: seq<Update>, key: EntryKey, sp: Spelling) {
    exists u :: u in updates && KeyOf(u.change, sp) == key
  }

  ghost predicate AllDescribe(updates: seq<Update>, key: EntryKey, description: string, sp: Spelling) {
    forall u :: u in updates && KeyOf(u.change, sp) == key ==> Described(u) == description
  }

  lemma {:induction false} InstallSeen(slots: map<EntryKey, Update>, updates: seq<Update>, key: EntryKey,
                                       description: string, sp: Spelling)
    requires AllDescribe(updates, key, description, sp)
    ensures Seen(Entries(Install(slots, updates, sp), 0), key) ==
            if Writes(updates, key, sp) then Some(description) else Seen(Entries(slots, 0), key)
    decreases |updates|
  {
    if updates != [] {
      var first, rest := updates[0], updates[1..];
      assert updates == [first] + rest;
      assert first in updates;
      InstallSeen(slots[KeyOf(first.change, sp) := first], rest, key, description, sp);
      assert Writes(updates, key, sp) <==> KeyOf(first.change, sp) == key || Writes(rest, key, sp);
    }
  }

  ghost predicate Typed(updates: seq<Update>, types: set<EntryType>) {
    forall u :: u in updates ==> u.change.entryType in types
  }

  // ----- Locks -----

  lemma {:induction false} LockEntriesWrite(locks: seq<Lock>, key: EntryKey, sp: Spelling)
    ensures Writes(LockEntries(locks), key, sp) <==> exists l :: l in locks && !l.concurrent && LockSlot(l, sp) == key
    ensures AllDescribe(LockEntries(locks), key, "", sp)
    ensures Typed(LockEntries(locks), {LockEntry})
  {
    if locks != [] {
      LockEntriesWrite(locks[1..], key, sp);
      assert locks == [locks[0]] + locks[1..];
      var own := if locks[0].concurrent then []
          else [Protocol.Update(LockChange(locks[0], Added), locks[0].eventRevision)];
      WritesConcat(own, LockEntries(locks[1..]), key, sp);
    }
  }

  lemma WritesConcat(a: seq<Update>, b: seq<Update>, key: EntryKey, sp: Spelling)
    ensures Writes(a + b, key, sp) <==> Writes(a, key, sp) || Writes(b, key, sp)
  {
    assert forall u :: u in a + b <==> u in a || u in b;
  }

  lemma {:induction false} ConcatMembers(keys: seq<GroupKey>, data: map<GroupKey, seq<Lock>>)
    ensures forall l :: l in Concat(keys, data) <==> exists g :: g in keys && g in data && l in data[g]
  {
    if keys != [] {
      ConcatMembers(keys[1..], data);
      assert forall g :: g in keys <==> g == keys[0] || g in keys[1..];
    }
  }

  /** The claims without a flag are exactly the winners. */
  lemma UnflaggedAreHolders(groups: Groups, lock: Lock, sp: Spelling)
    requires LocksValid(groups, sp)
    ensures lock in AllLocks(groups) && !lock.concurrent <==>
              Holder(groups, KeyOfScope(lock.scope, lock.kind, sp)) == Some(lock)
  {
    hide LocksValid, IdsDistinct, FirstUnflagged;
    ConcatMembers(groups.keys, groups.data);
    LockMapValid(groups, sp);
    var key := KeyOfScope(lock.scope, lock.kind, sp);
    HolderIsWinner(groups, key, sp);
    if lock in AllLocks(groups) && !lock.concurrent {
      var g :| g in groups.keys && g in groups.data && lock in groups.data[g];
      LockGroupValid(groups, g, sp);
      UnflaggedIsWinner(groups.data[g], lock);
      assert g == key;
    }
    if key in groups.data {
      assert key in groups.keys;
    }
  }

  lemma UnflaggedIsWinner(claims: seq<Lock>, lock: Lock)
    requires claims != [] && IdsDistinct(claims) && Resolved(claims) == claims && lock in claims && !lock.concurrent
    ensures lock == claims[WinnerIndex(claims)]
  {
    ResolvedFlags(claims);
  }

  lemma LockSlotsProjected(groups: Groups, key: EntryKey, sp: Spelling)
    requires LocksValid(groups, sp) && NoGlobs(groups)
    ensures Writes(LockEntries(AllLocks(groups)), key, sp) <==> ShownLock(groups, key, sp).Some?
  {
    hide LocksValid, Holder, AllLocks, Writes, FirstUnflagged;
    LockEntriesWrite(AllLocks(groups), key, sp);
    forall l | l in AllLocks(groups) && !l.concurrent && LockSlot(l, sp) == key
      ensures Holder(groups, GroupOfSlot(key, sp)) == Some(l)
    {
      UnflaggedAreHolders(groups, l, sp);
      HolderHasPath(groups, KeyOfScope(l.scope, l.kind, sp), sp);
      SlotGroup(l, KeyOfScope(l.scope, l.kind, sp), sp);
    }
    if ShownLock(groups, key, sp).Some? {
      var l := Holder(groups, GroupOfSlot(key, sp)).value;
      HolderIsWinner(groups, GroupOfSlot(key, sp), sp);
      UnflaggedAreHolders(groups, l, sp);
    }
  }

  lemma HolderHasPath(groups: Groups, key: GroupKey, sp: Spelling)
    requires NoGlobs(groups) && Holder(groups, key).Some?
    ensures key.PathGroup?
  {
  }

  // ----- Presence -----

  lemma {:induction false} PresenceEntriesWrite(records: seq<PresenceRecord>, key: EntryKey, sp: Spelling)
    ensures Writes(PresenceEntries(records), key, sp) <==>
              exists p :: p in records && !p.state.Stopped? && PresenceSlot(p, sp) == key
    ensures AllDescribe(PresenceEntries(records), key, "", sp)
    ensures Typed(PresenceEntries(records), {PresenceEntry})
  {
    if records != [] {
      PresenceEntriesWrite(records[1..], key, sp);
      assert records == [records[0]] + records[1..];
      var own := if records[0].state.Stopped? then []
                 else [Protocol.Update(PresenceChange(records[0].member, records[0].path, Added),
                                       records[0].eventRevision)];
      WritesConcat(own, PresenceEntries(records[1..]), key, sp);
    }
  }

  lemma {:induction false} LookupMembers<K(!new), V>(keys: seq<K>, data: map<K, V>)
    ensures forall v :: v in Lookup(keys, data) <==> exists k :: k in keys && k in data && data[k] == v
  {
    if keys != [] {
      LookupMembers(keys[1..], data);
      assert forall k :: k in keys <==> k == keys[0] || k in keys[1..];
    }
  }

  lemma PresenceSlotsProjected(presence: PresenceMap, key: EntryKey, sp: Spelling)
    requires PresenceValid(presence, sp)
    ensures Writes(PresenceEntries(presence.Values()), key, sp) <==> ShownPresence(presence, key, sp).Some?
  {
    hide Writes, PresenceEntries;
    PresenceEntriesWrite(presence.Values(), key, sp);
    LookupMembers(presence.keys, presence.data);
    var candidate := PresenceKey(key.memberId, sp.fold(key.path));
    forall p | p in presence.Values() && PresenceSlot(p, sp) == key
      ensures candidate in presence.data && presence.data[candidate] == p
    {
      var k :| k in presence.keys && k in presence.data && presence.data[k] == p;
      assert RecordValid(k, p, sp);
    }
    if candidate in presence.data {
      assert candidate in presence.keys;
      assert presence.data[candidate] in presence.Values();
    }
  }

  // ----- Intents -----

  lemma {:induction false} IntentEntriesWrite(intents: seq<Intent>, key: EntryKey, sp: Spelling)
    requires forall i :: i in intents ==> NamedIntent(i.intentId, i, sp)
    ensures Writes(IntentEntries(intents), key, sp) <==>
            exists i ::
              i in intents && IsIntentEntry(key.entryType) && OwnsSlot(i, key) && key.path in PathsOf(i, key.entryType)
    ensures Typed(IntentEntries(intents), INTENTS)
  {
    if intents != [] {
      var first, rest := intents[0], intents[1..];
      assert intents == [first] + rest;
      IntentEntriesWrite(rest, key, sp);
      var own := EntriesOf(IntentChanges(first, Added), first.eventRevision);
      WritesConcat(own, IntentEntries(rest), key, sp);
      assert NamedIntent(first.intentId, first, sp);
      OneIntentWrites(first, key, sp);
    }
  }

  lemma OneIntentWrites(intent: Intent, key: EntryKey, sp: Spelling)
    requires NamedIntent(intent.intentId, intent, sp)
    ensures var own := EntriesOf(IntentChanges(intent, Added), intent.eventRevision);
            && (Writes(own, key, sp) <==>
                  IsIntentEntry(key.entryType) && OwnsSlot(intent, key) && key.path in PathsOf(intent, key.entryType))
            && Typed(own, INTENTS) && AllDescribe(own, key, intent.description, sp)
  {
    var changes := IntentChanges(intent, Added);
    var own := EntriesOf(changes, intent.eventRevision);
    var edits := |intent.modifyPaths|;
    forall i | 0 <= i < |changes|
      ensures changes[i] == if i < edits then IntentChange(intent, IntentEntry, Added, intent.modifyPaths[i])
                            else IntentChange(intent, CreationEntry, Added, intent.createPaths[i - edits])
    {
    }
    forall i | 0 <= i < |own|
      ensures KeyOf(own[i].change, sp) ==
              if i < edits then SlotOf(intent, IntentEntry, intent.modifyPaths[i])
              else SlotOf(intent, CreationEntry, intent.createPaths[i - edits])
    {
      if i < edits { assert intent.modifyPaths[i] in intent.modifyPaths; }
      else { assert intent.createPaths[i - edits] in intent.createPaths; }
    }
    if IsIntentEntry(key.entryType) && OwnsSlot(intent, key) && key.path in PathsOf(intent, key.entryType) {
      var i :| 0 <= i < |PathsOf(intent, key.entryType)| && PathsOf(intent, key.entryType)[i] == key.path;
      assert KeyOf(own[if key.entryType == IntentEntry then i else edits + i].change, sp) == key;
      assert own[if key.entryType == IntentEntry then i else edits + i] in own;
    }
  }

  lemma {:induction false} IntentEntriesDescribe(intents: seq<Intent>, key: EntryKey, description: string, sp: Spelling)
    requires forall i :: i in intents ==> NamedIntent(i.intentId, i, sp)
    requires forall i :: i in intents && OwnsSlot(i, key) ==> i.description == description
    ensures AllDescribe(IntentEntries(intents), key, description, sp)
  {
    if intents != [] {
      var first := intents[0];
      assert intents == [first] + intents[1..];
      IntentEntriesDescribe(intents[1..], key, description, sp);
      assert NamedIntent(first.intentId, first, sp);
      OneIntentWrites(first, key, sp);
    }
  }

  lemma IntentSlotsProjected(intents: IntentMap, key: EntryKey, sp: Spelling)
    requires NamedIntents(intents, sp) && IsIntentEntry(key.entryType)
    ensures Writes(IntentEntries(intents.Values()), key, sp) <==> ShownIntent(intents, key).Some?
    ensures ShownIntent(intents, key).Some? ==>
              AllDescribe(IntentEntries(intents.Values()), key, ShownIntent(intents, key).value, sp)
  {
    hide Writes, IntentEntries, AllDescribe;
    LookupMembers(intents.keys, intents.data);
    forall i | i in intents.Values()
      ensures NamedIntent(i.intentId, i, sp) && i.intentId in intents.data && intents.data[i.intentId] == i
    {
      var k :| k in intents.keys && k in intents.data && intents.data[k] == i;
      assert NamedIntent(k, i, sp);
    }
    IntentEntriesWrite(intents.Values(), key, sp);
    if key.intentId in intents.data {
      var intent := intents.data[key.intentId];
      assert key.intentId in intents.keys && NamedIntent(key.intentId, intent, sp);
      assert intent in intents.Values();
      IntentEntriesDescribe(intents.Values(), key, intent.description, sp);
    }
  }

  // ----- The whole snapshot -----

  lemma TypedElsewhere(updates: seq<Update>, types: set<EntryType>, key: EntryKey, description: string, sp: Spelling)
    requires Typed(updates, types) && key.entryType !in types
    ensures !Writes(updates, key, sp) && AllDescribe(updates, key, description, sp)
  {
  }

  lemma SameDescriptions(a: seq<Update>, b: seq<Update>, key: EntryKey, description: string, sp: Spelling)
    requires AllDescribe(a, key, description, sp) && AllDescribe(b, key, description, sp)
    ensures AllDescribe(a + b, key, description, sp)
  {
  }

  lemma NothingToDescribe(updates: seq<Update>, key: EntryKey, description: string, sp: Spelling)
    requires !Writes(updates, key, sp)
    ensures AllDescribe(updates, key, description, sp)
  {
  }

  /** A cache replaced by the host's snapshot shows what the host's state projects to. */
  lemma SnapshotShows(regs: Registries, highestRevision: nat, key: EntryKey, sp: Spelling)
    requires StateValid(regs, sp) && Slotted(regs, sp)
    ensures Seen(ApplySnapshot(Serialize(regs, highestRevision), sp), key) == Shown(regs, key, sp)
  {
    hide LocksValid, NamedIntents, PresenceValid, NoGlobs, LockEntries, PresenceEntries, IntentEntries, Writes,
         AllDescribe, Typed, Install,
         ShownIntent, ShownPresence, ShownLock, AllLocks;
    var a, b, c := LockEntries(AllLocks(regs.locks)), PresenceEntries(regs.presence.Values()),
        IntentEntries(regs.intents.Values());
    var shown := Shown(regs, key, sp);
    LockEntriesWrite(AllLocks(regs.locks), key, sp);
    PresenceEntriesWrite(regs.presence.Values(), key, sp);
    IntentEntriesTyped(regs.intents, sp);
    LockSlotsProjected(regs.locks, key, sp);
    PresenceSlotsProjected(regs.presence, key, sp);
    if key.entryType != LockEntry { TypedElsewhere(a, {LockEntry}, key, shown.GetOr(""), sp); }
    if key.entryType != PresenceEntry { TypedElsewhere(b, {PresenceEntry}, key, shown.GetOr(""), sp); }
    if IsIntentEntry(key.entryType) {
      IntentSlotsProjected(regs.intents, key, sp);
      if shown.None? { NothingToDescribe(c, key, "", sp); }
    } else {
      TypedElsewhere(c, INTENTS, key, shown.GetOr(""), sp);
      OtherShownDescription(regs, key, sp);
    }
    SameDescriptions(a, b, key, shown.GetOr(""), sp);
    SameDescriptions(a + b, c, key, shown.GetOr(""), sp);
    WritesConcat(a, b, key, sp);
    WritesConcat(a + b, c, key, sp);
    InstallSeen(map[], a + b + c, key, shown.GetOr(""), sp);
  }

  lemma OtherShownDescription(regs: Registries, key: EntryKey, sp: Spelling)
    requires !IsIntentEntry(key.entryType)
    ensures Shown(regs, key, sp).GetOr("") == ""
  {
  }

  lemma IntentEntriesTyped(intents: IntentMap, sp: Spelling)
    requires NamedIntents(intents, sp)
    ensures Typed(IntentEntries(intents.Values()), INTENTS)
  {
    LookupMembers(intents.keys, intents.data);
    forall i | i in intents.Values() ensures NamedIntent(i.intentId, i, sp) {
      var k :| k in intents.keys && k in intents.data && intents.data[k] == i;
      assert NamedIntent(k, i, sp);
    }
    IntentEntriesWrite(intents.Values(), EntryKey(LockEntry, "", "", "", ""), sp);
  }
}
