/** The revision counter, ingest gate, event log and tables as the host updates them,
    proved against the functions of Host. */
module HostParts {
  import opened Protocol
  import opened JsMaps
  import opened Registries
  import opened Host

  class RevisionCounter {
    var counter: nat

    constructor ()
      ensures counter == 0
    {
      counter := 0;
    }

    method Next() returns (revision: nat)
      modifies this
      ensures counter == old(counter) + 1 == revision
    {
      counter := counter + 1;
      revision := counter;
    }

    /** Only ever raises the counter. */
    method Resume(maxPersistedRevision: nat)
      modifies this
      ensures counter == Max(old(counter), maxPersistedRevision)
    {
      counter := Max(counter, maxPersistedRevision);
    }

    /** May lower the counter; reserved for rolling back what nobody has seen. */
    method RestoreCheckpoint(highestRevision: nat)
      modifies this
      ensures counter == highestRevision
    {
      counter := highestRevision;
    }
  }

  datatype Admission =
    | GateRejected(reply: Reply)
    | GateDuplicate(revision: nat)
    | GateAssigned(revision: nat)

  class IngestGate {
    var guard: ReplayGuard
    var applied: map<string, nat>

    /** Seeded with the persisted counters of every device and the applied events. */
    constructor (seed: ReplayGuard, appliedEvents: seq<AppliedRow>)
      ensures guard == seed && applied == AppliedIndex(appliedEvents)
    {
      guard := seed;
      applied := map[];
      new;
      for i := 0 to |appliedEvents|
        invariant guard == seed && applied == AppliedIndex(appliedEvents[..i])
      {
        assert appliedEvents[..i + 1][..i] == appliedEvents[..i];
        RecordApplied(appliedEvents[i].eventId, appliedEvents[i].eventRevision);
      }
      assert appliedEvents[..|appliedEvents|] == appliedEvents;
    }

    method RecordApplied(eventId: string, eventRevision: nat)
      modifies `applied
      ensures applied == old(applied)[eventId := eventRevision]
    {
      applied := applied[eventId := eventRevision];
    }

    method AcceptReplay(deviceId: string, counter: int, nonce: string) returns (accepted: bool)
      modifies `guard
      ensures var next := Host.AcceptReplay(old(guard), deviceId, counter, nonce);
              accepted == next.Some? && guard == next.GetOr(old(guard))
    {
      var record := if deviceId in guard then guard[deviceId] else NOT_SEEN;
      if counter <= record.highestCounter {
        return false;
      }
      if nonce in record.usedNonces {
        return false;
      }
      guard := guard[deviceId := ReplayRecord(counter, record.usedNonces + {nonce})];
      return true;
    }

    /** The gate's checks in order; only an event that passes them all consumes its
        replay counter and a revision. */
    method Admit(event: Event, checks: Checks, revisions: RevisionCounter) returns (admission: Admission)
      modifies `guard, revisions
      ensures match admission
              case GateRejected(reply) =>
                && guard == old(guard) && revisions.counter == old(revisions.counter)
                && (if !checks.wellFormed then reply == Reply.FormatError
                    else if !checks.permitted then reply == NotPermitted
                    else event.eventId !in applied && reply == Reply.FormatError
                         && Host.AcceptReplay(old(guard), event.member.deviceId, event.counter, event.nonce).None?)
              case GateDuplicate(revision) =>
                && guard == old(guard) && revisions.counter == old(revisions.counter)
                && checks.wellFormed && checks.permitted && event.eventId in applied
                   && revision == applied[event.eventId]
              case GateAssigned(revision) =>
                && checks.wellFormed && checks.permitted && event.eventId !in applied
                && Host.AcceptReplay(old(guard), event.member.deviceId, event.counter, event.nonce) == Some(guard)
                && revisions.counter == old(revisions.counter) + 1 == revision
    {
      if !checks.wellFormed {
        return GateRejected(Reply.FormatError);
      }
      if !checks.permitted {
        return GateRejected(NotPermitted);
      }
      if event.eventId in applied {
        return GateDuplicate(applied[event.eventId]);
      }
      var accepted := AcceptReplay(event.member.deviceId, event.counter, event.nonce);
      if !accepted {
        return GateRejected(Reply.FormatError);
      }
      var revision := revisions.Next();
      return GateAssigned(revision);
    }
  }

  lemma SinceStep(updates: seq<Update>, i: nat, revision: nat)
    requires i < |updates|
    ensures Since(updates[i..], revision) ==
            (if updates[i].eventRevision > revision then [updates[i]] else []) + Since(updates[i + 1..], revision)
  {
    assert updates[i..][1..] == updates[i + 1..];
  }

  lemma NoneSinceEnd(updates: seq<Update>, revision: nat)
    ensures Since(updates[|updates|..], revision) == []
  {
  }

  class CoordinationEventLog {
    var updates: seq<Update>
    var compactedThrough: nat

    constructor ()
      ensures updates == [] && compactedThrough == 0
    {
      updates := [];
      compactedThrough := 0;
    }

    function Contents(): Log
      reads this
    {
      Log(updates, compactedThrough)
    }

    /** Appending out of order is refused. */
    method Append(update: Update) returns (ok: bool)
      modifies `updates
      ensures ok <==> update.eventRevision > 0
                      && (old(updates) == [] || old(updates)[|old(updates)| - 1].eventRevision < update.eventRevision)
      ensures updates == if ok then old(updates) + [update] else old(updates)
    {
      if update.eventRevision <= 0 {
        return false;
      }
      if updates != [] && update.eventRevision <= updates[|updates| - 1].eventRevision {
        return false;
      }
      updates := updates + [update];
      return true;
    }

    method Filter(revision: nat) returns (kept: seq<Update>)
      ensures kept == Since(updates, revision)
    {
      hide Since;
      kept := [];
      assert updates[0..] == updates;
      for i := 0 to |updates|
        invariant kept + Since(updates[i..], revision) == Since(updates, revision)
      {
        SinceStep(updates, i, revision);
        if updates[i].eventRevision > revision {
          Associates(kept, [updates[i]], Since(updates[i + 1..], revision));
          kept := kept + [updates[i]];
        }
      }
      NoneSinceEnd(updates, revision);
    }

    /** Discard what is not newer than a revision; the mark only advances. */
    method Compact(throughRevision: nat)
      modifies this
      ensures Contents() == Host.Compact(old(Contents()), throughRevision)
    {
      compactedThrough := Max(compactedThrough, throughRevision);
      updates := Filter(compactedThrough);
    }

    method SyncFrom(fromRevision: nat, snapshot: Snapshot) returns (response: SyncResponse)
      ensures response == Host.SyncFrom(Contents(), fromRevision, snapshot)
    {
      if fromRevision < compactedThrough {
        return SyncSnapshot(snapshot);
      }
      var events := Filter(fromRevision);
      return SyncEvents(events);
    }
  }

  // ----- The tables -----

  class SqliteStore {
    var events: seq<EventRow>
    var applied: seq<AppliedRow>
    var audits: seq<Audit>
    var snapshot: Option<Snapshot>
    var watermark: nat

    constructor ()
      ensures Tables() == FRESH_STORE
    {
      events, applied, audits, snapshot, watermark := [], [], [], None, 0;
    }

    function Tables(): Durable
      reads this
    {
      Durable(events, applied, audits, snapshot, watermark)
    }

    /** `false` stands for the exception of a violated constraint. */
    method AppendEvent(row: EventRow) returns (inserted: bool)
      modifies `events
      ensures inserted == Insertable(old(events), row)
      ensures events == if inserted then old(events) + [row] else old(events)
    {
      for i := 0 to |events|
        invariant events == old(events)
        invariant forall j :: 0 <= j < i ==>
                    events[j].eventRevision != row.eventRevision && events[j].eventId != row.eventId
      {
        if events[i].eventRevision == row.eventRevision || events[i].eventId == row.eventId {
          assert events[i] in events;
          return false;
        }
      }
      events := events + [row];
      return true;
    }

    method RecordApplied(eventId: string, eventRevision: nat)
      modifies `applied
      ensures applied == Host.RecordApplied(old(applied), eventId, eventRevision)
    {
      for i := 0 to |applied|
        invariant applied == old(applied) && forall j :: 0 <= j < i ==> applied[j].eventId != eventId
      {
        if applied[i].eventId == eventId {
          assert applied[i] in applied;
          return;
        }
      }
      applied := applied + [AppliedRow(eventId, eventRevision)];
    }

    method AppendAudits(records: seq<Audit>)
      modifies `audits
      ensures audits == old(audits) + records
    {
      for i := 0 to |records|
        invariant audits == old(audits) + records[..i]
      {
        audits := audits + [records[i]];
        assert records[..i + 1] == records[..i] + [records[i]];
      }
      assert records[..|records|] == records;
    }

    method SaveSessionWatermark(highestRevision: nat)
      modifies `watermark
      ensures watermark == Max(old(watermark), highestRevision)
    {
      watermark := Max(watermark, highestRevision);
    }

    /** Undo everything since the transaction began. */
    method Rollback(before: Durable)
      modifies this
      ensures Tables() == before
    {
      events, applied, audits, snapshot, watermark :=
        before.events, before.applied, before.audits, before.snapshot, before.watermark;
    }

    /** All effects of one event, or none of them: the statements of the transaction run
        in turn, and a violated constraint or a failing `COMMIT` rolls them back. */
    method CommitMutation(row: EventRow, recordApplied: bool, records: seq<Audit>, state: Snapshot, storageWorks: bool)
      returns (ok: bool)
      modifies this
      ensures var committed := Host.CommitMutation(old(Tables()), row, recordApplied, records, state);
              ok == (storageWorks && committed.Some?) && Tables() == if ok then committed.value else old(Tables())
    {
      var before := Tables();
      var highest := Max(row.eventRevision, Max(state.highestRevision, MaxAudited(records)));
      var inserted := AppendEvent(row);
      if !inserted {
        Rollback(before);
        return false;
      }
      if recordApplied {
        RecordApplied(row.eventId, row.eventRevision);
      }
      AppendAudits(records);
      snapshot := Some(state);
      SaveSessionWatermark(highest);
      if !storageWorks {
        Rollback(before);
        return false;
      }
      return true;
    }

    method CommitExpiry(records: seq<Audit>, state: Snapshot, storageWorks: bool) returns (ok: bool)
      modifies this
      ensures ok == storageWorks
              && Tables() == if ok then Host.CommitExpiry(old(Tables()), records, state) else old(Tables())
    {
      var before := Tables();
      AppendAudits(records);
      snapshot := Some(state);
      SaveSessionWatermark(Max(state.highestRevision, MaxAudited(records)));
      if !storageWorks {
        Rollback(before);
        return false;
      }
      return true;
    }

    /** `SELECT device_id, MAX(replay_counter) … GROUP BY device_id`. */
    method DeviceCounters() returns (counters: ReplayGuard)
      ensures counters == Host.DeviceCounters(events)
    {
      counters := map[];
      for i := 0 to |events|
        invariant counters == Host.DeviceCounters(events[..i])
      {
        assert events[..i + 1][..i] == events[..i];
        var row := events[i];
        var highest := if row.deviceId in counters then counters[row.deviceId].highestCounter else 0;
        counters := counters[row.deviceId := ReplayRecord(if row.replayCounter > highest then row.replayCounter
                                                          else highest, {})];
      }
      assert events[..|events|] == events;
    }
  }
}
