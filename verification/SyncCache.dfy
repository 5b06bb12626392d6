/** The agent's cache as it is updated in place (packages/core-state/src/sync.ts),
    proved against the functions of Cache and Projection. */
module SyncCache {
  import opened Protocol
  import opened JsMaps
  import opened Paths
  import opened Locks
  import opened Intents
  import opened Presences
  import opened Cache
  import opened Registries
  import opened Projection
  import opened Host
  import opened Runs

  method ProjectLocks(locks: seq<Lock>) returns (entries: seq<Update>)
    ensures entries == LockEntries(locks)
  {
    entries := [];
    for i := 0 to |locks|
      invariant entries + LockEntries(locks[i..]) == LockEntries(locks)
    {
      assert locks[i..][1..] == locks[i + 1..];
      if !locks[i].concurrent {
        var entry := Protocol.Update(LockChange(locks[i], Added), locks[i].eventRevision);
        Associates(entries, [entry], LockEntries(locks[i + 1..]));
        entries := entries + [entry];
      }
    }
  }

  method ProjectPresence(records: seq<PresenceRecord>) returns (entries: seq<Update>)
    ensures entries == PresenceEntries(records)
  {
    entries := [];
    for i := 0 to |records|
      invariant entries + PresenceEntries(records[i..]) == PresenceEntries(records)
    {
      assert records[i..][1..] == records[i + 1..];
      if !records[i].state.Stopped? {
        var entry := Protocol.Update(PresenceChange(records[i].member, records[i].path, Added),
                                     records[i].eventRevision);
        Associates(entries, [entry], PresenceEntries(records[i + 1..]));
        entries := entries + [entry];
      }
    }
  }

  method ProjectIntents(intents: seq<Intent>) returns (entries: seq<Update>)
    ensures entries == IntentEntries(intents)
  {
    entries := [];
    for i := 0 to |intents|
      invariant entries + IntentEntries(intents[i..]) == IntentEntries(intents)
    {
      assert intents[i..][1..] == intents[i + 1..];
      var own := EntriesOf(IntentChanges(intents[i], Added), intents[i].eventRevision);
      Associates(entries, own, IntentEntries(intents[i + 1..]));
      entries := entries + own;
    }
  }

  class AgentSyncCache {
    const spelling: Spelling
    var slots: map<EntryKey, Update>
    var highest: nat
    var stale: bool

    constructor (spelling: Spelling)
      ensures Contents() == NOTHING && !stale && this.spelling == spelling
    {
      this.spelling := spelling;
      slots, highest, stale := map[], 0, false;
    }

    function Contents(): Entries
      reads this
    {
      Entries(slots, highest)
    }

    method MarkStale()
      modifies `stale
      ensures stale
    {
      stale := true;
    }

    /** An update that is not newer than the cursor is ignored. */
    method ApplyUpdate(update: Update)
      modifies `slots, `highest
      ensures Contents() == Cache.ApplyUpdate(old(Contents()), update, spelling)
    {
      if update.eventRevision <= highest {
        return;
      }
      var change := update.change;
      var key := KeyOf(change, spelling);
      if change.op.Removed? {
        if IsIntentEntry(change.entryType) && change.intent.None? {
          slots := map k | k in slots && k.(intentId := "") != key.(intentId := "") :: slots[k];
        } else {
          slots := slots - {key};
          if IsIntentEntry(change.entryType) {
            slots := slots - {key.(intentId := "")};
          }
        }
        assert slots == Cache.Without(old(slots), change, spelling);
      } else {
        slots := slots[key := update];
      }
      highest := update.eventRevision;
    }

    /** Whatever order the updates come in, they are applied by rising revision. */
    method ApplyEvents(events: seq<Update>)
      modifies `slots, `highest
      ensures Contents() == Cache.ApplyEvents(old(Contents()), events, spelling)
    {
      var ordered := SortByRevision(events);
      for i := 0 to |ordered|
        invariant ApplyAll(Contents(), ordered[i..], spelling) == ApplyAll(old(Contents()), ordered, spelling)
      {
        assert ordered[i..][1..] == ordered[i + 1..];
        ApplyUpdate(ordered[i]);
      }
      assert ordered[|ordered|..] == [];
    }

    /** Throw everything away and install the projection of a snapshot. */
    method ApplySnapshot(snapshot: Snapshot)
      modifies `slots, `highest
      ensures Contents() == Projection.ApplySnapshot(snapshot, spelling)
    {
      var locks := ProjectLocks(snapshot.locks);
      var presence := ProjectPresence(snapshot.presence);
      var intents := ProjectIntents(snapshot.intents);
      var entries := locks + presence + intents;
      var installed := InstallAll(entries);
      slots, highest := installed, snapshot.highestRevision;
    }

    method InstallAll(entries: seq<Update>) returns (installed: map<EntryKey, Update>)
      ensures installed == Install(map[], entries, spelling)
    {
      hide KeyOf;
      installed := map[];
      for i := 0 to |entries|
        invariant Install(installed, entries[i..], spelling) == Install(map[], entries, spelling)
      {
        assert entries[i..][1..] == entries[i + 1..];
        installed := installed[KeyOf(entries[i].change, spelling) := entries[i]];
      }
      assert entries[|entries|..] == [];
    }

    /** A completed sync clears the staleness marker. */
    method ApplySync(response: SyncResponse)
      modifies this
      ensures Contents() == Runs.ApplySync(old(Contents()), response, spelling) && !stale
    {
      match response {
        case SyncEvents(events) => ApplyEvents(events);
        case SyncSnapshot(snapshot) => ApplySnapshot(snapshot);
      }
      stale := false;
    }
  }
}
