/** One mutation from the ingest gate to the durable commit, the expiry sweep, the
    fence after a failed commit, and recovery (apps/host/src/authority.ts,
    apps/host/src/store.ts, packages/core-state/src/ingest.ts), for one session. */
module Host {
  import opened Protocol
  import opened Paths
  import opened Locks
  import opened Cache
  import opened Registries
  import opened States

  // ----- Durable state -----

  datatype EventRow = EventRow(eventRevision: nat, eventId: string, deviceId: string, replayCounter: int)

  datatype AppliedRow = AppliedRow(eventId: string, eventRevision: nat)

  /** The tables of one session. `events` has a unique revision and a unique event id
      per row, `applied` a unique event id. */
  datatype Durable = Durable(events: seq<EventRow>, applied: seq<AppliedRow>, audits: seq<Audit>,
                             snapshot: Option<Snapshot>, watermark: nat)

  const FRESH_STORE := Durable([], [], [], None, 0)

  function Max(a: nat, b: nat): nat {
    if a < b then b else a
  }

  function MaxAudited(audits: seq<Audit>): nat {
    if audits == [] then 0 else Max(audits[0].eventRevision, MaxAudited(audits[1..]))
  }

  predicate Insertable(events: seq<EventRow>, row: EventRow) {
    forall e :: e in events ==> e.eventRevision != row.eventRevision && e.eventId != row.eventId
  }

  /** `INSERT OR IGNORE`. */
  function RecordApplied(applied: seq<AppliedRow>, eventId: string, eventRevision: nat): seq<AppliedRow> {
    if exists r :: r in applied && r.eventId == eventId then applied else applied + [AppliedRow(eventId, eventRevision)]
  }

  /** The index that the gate is seeded with. */
  function AppliedIndex(applied: seq<AppliedRow>): map<string, nat> {
    if applied == [] then map[]
    else AppliedIndex(applied[..|applied| - 1])[applied[|applied| - 1].eventId := applied[|applied| - 1].eventRevision]
  }

  function MaxApplied(applied: seq<AppliedRow>): nat {
    if applied == [] then 0 else Max(applied[0].eventRevision, MaxApplied(applied[1..]))
  }

  /** Event, idempotency index, audit trail, snapshot and watermark in one transaction;
      `None` when a uniqueness constraint rolls it back. */
  function CommitMutation(store: Durable, row: EventRow, recordApplied: bool, audits: seq<Audit>,
                          snapshot: Snapshot): Option<Durable>
  {
    if !Insertable(store.events, row) then None
    else
      Some(Durable(store.events + [row],
                   if recordApplied then RecordApplied(store.applied, row.eventId, row.eventRevision)
                      else store.applied,
                   store.audits + audits, Some(snapshot),
                   Max(store.watermark, Max(row.eventRevision, Max(snapshot.highestRevision, MaxAudited(audits))))))
  }

  function CommitExpiry(store: Durable, audits: seq<Audit>, snapshot: Snapshot): Durable {
    store.(audits := store.audits + audits, snapshot := Some(snapshot),
           watermark := Max(store.watermark, Max(snapshot.highestRevision, MaxAudited(audits))))
  }

  // ----- The gate -----

  datatype ReplayRecord = ReplayRecord(highestCounter: nat, usedNonces: set<string>)

  type ReplayGuard = map<string, ReplayRecord>

  const NOT_SEEN := ReplayRecord(0, {})

  /** Accept a counter above the highest one with a nonce that is new to the device. */
  function AcceptReplay(guard: ReplayGuard, deviceId: string, counter: int, nonce: string): Option<ReplayGuard> {
    var record := if deviceId in guard then guard[deviceId] else NOT_SEEN;
    if counter <= record.highestCounter || nonce in record.usedNonces then None
    else Some(guard[deviceId := ReplayRecord(counter, record.usedNonces + {nonce})])
  }

  datatype Gate = Gate(guard: ReplayGuard, applied: map<string, nat>)

  /** What the checks ahead of the gate and its own schema and permission checks say. */
  datatype Checks = Checks(authentic: bool, wellFormed: bool, permitted: bool)

  // ----- The event log -----

  datatype Log = Log(updates: seq<Update>, compactedThrough: nat)

  function Since(updates: seq<Update>, revision: nat): seq<Update> {
    if updates == [] then []
    else (if updates[0].eventRevision > revision then [updates[0]] else []) + Since(updates[1..], revision)
  }

  function Compact(log: Log, through: nat): Log {
    var watermark := Max(log.compactedThrough, through);
    Log(Since(log.updates, watermark), watermark)
  }

  datatype SyncResponse = SyncEvents(events: seq<Update>) | SyncSnapshot(snapshot: Snapshot)

  /** The updates after a revision, or the whole state when the log no longer reaches back to it. */
  function SyncFrom(log: Log, fromRevision: nat, snapshot: Snapshot): SyncResponse {
    if fromRevision < log.compactedThrough then SyncSnapshot(snapshot) else SyncEvents(Since(log.updates, fromRevision))
  }

  // ----- One event -----

  datatype Memory = Memory(regs: Registries, gate: Gate, counter: nat, log: Log, faulted: bool)

  datatype Reply =
    | NotAuthentic | StorageError | FormatError | NotPermitted
    | RuleRejection(rejection: Rejection, revision: nat)
    | DuplicateOf(revision: nat, conflict: Option<LockConflict>)
    | Accepted(revision: nat, broadcasts: seq<Update>, conflict: Option<LockConflict>)

  datatype Ingested = Ingested(memory: Memory, store: Durable, reply: Reply)

  function Snapshotted(memory: Memory): Snapshot {
    Serialize(memory.regs, memory.counter)
  }

  /** The conflict that a duplicate acknowledgement reports: the current winner. */
  function CurrentConflict(regs: Registries, event: Event, sp: Spelling): Option<LockConflict> {
    if !event.payload.LockAcquire? && !event.payload.LockOverride? then None
    else
      var winner := Holder(regs.locks, KeyOfScope(event.payload.scope, event.payload.kind, sp));
      if winner.None? || winner.value.holder.memberId == event.member.memberId then None
      else Some(LockConflict(event.payload.scope, winner.value.holder, winner.value.eventRevision))
  }

  /** Registries and counter go back to the state before the event, and nothing
      further is accepted. The gate cannot be rewound; neither is the set of
      existing files, which the snapshot does not hold. */
  function Fenced(before: Memory, during: Memory, sp: Spelling): Memory {
    during.(regs := Restore(Snapshotted(before), during.regs.tracked, sp), counter := before.counter, faulted := true)
  }

  /** The gate has passed the event: its replay counter and a revision are consumed. */
  function Admitted(memory: Memory, guard: ReplayGuard): Memory {
    memory.(gate := memory.gate.(guard := guard), counter := memory.counter + 1)
  }

  function RowOf(event: Event, revision: nat): EventRow {
    EventRow(revision, event.eventId, event.member.deviceId, event.counter)
  }

  /** Apply an admitted event and commit what it did, if the storage works. */
  function ApplyAndCommit(before: Memory, admitted: Memory, store: Durable, event: Event, storageWorks: bool, now: int,
                          sp: Spelling)
    : Ingested
  {
    var revision := admitted.counter;
    match Apply(before.regs, event, revision, now, sp)
    case Refused(rejection) =>
      var committed := CommitMutation(store, RowOf(event, revision), false, [], Snapshotted(admitted));
      if !storageWorks || committed.None? then Ingested(Fenced(before, admitted, sp), store, StorageError)
      else Ingested(admitted, committed.value, RuleRejection(rejection, revision))
    case Applied(regs, changes, furtherRevisions, audits, conflict) =>
      var done := admitted.(regs := regs, counter := LastRevision(revision, changes, furtherRevisions),
                            gate := admitted.gate.(applied := admitted.gate.applied[event.eventId := revision]));
      var committed := CommitMutation(store, RowOf(event, revision), true, audits, Snapshotted(done));
      if !storageWorks || committed.None? then Ingested(Fenced(before, done, sp), store, StorageError)
      else
        var updates := Stamp(changes, revision);
        Ingested(done.(log := done.log.(updates := done.log.updates + updates)), committed.value,
                 Accepted(revision, updates, conflict))
  }

  function Ingest(memory: Memory, store: Durable, event: Event, checks: Checks, storageWorks: bool, now: int,
                  sp: Spelling): Ingested
  {
    if !checks.authentic then Ingested(memory, store, NotAuthentic)
    else if memory.faulted then Ingested(memory, store, StorageError)
    else if !checks.wellFormed then Ingested(memory, store, Reply.FormatError)
    else if !checks.permitted then Ingested(memory, store, NotPermitted)
    else if event.eventId in memory.gate.applied then
      Ingested(memory, store, DuplicateOf(memory.gate.applied[event.eventId], CurrentConflict(memory.regs, event, sp)))
    else
      var guard := AcceptReplay(memory.gate.guard, event.member.deviceId, event.counter, event.nonce);
      if guard.None? then Ingested(memory, store, Reply.FormatError)
      else ApplyAndCommit(memory, Admitted(memory, guard.value), store, event, storageWorks, now, sp)
  }

  // ----- The sweep -----

  function ExpiryAudits(updates: seq<Update>): (audits: seq<Audit>)
    ensures |audits| == |updates|
    ensures forall i :: 0 <= i < |audits| ==> audits[i].eventRevision == updates[i].eventRevision
  {
    seq(|updates|, i requires 0 <= i < |updates| =>
      Audit(updates[i].change.member, Expire, updates[i].change.path, updates[i].eventRevision))
  }

  datatype SweptHost = SweptHost(memory: Memory, store: Durable, removals: seq<Update>)

  function SweepExpiry(memory: Memory, store: Durable, stale: seq<string>, cutoff: int, storageWorks: bool,
                       sp: Spelling): SweptHost
  {
    if memory.faulted then SweptHost(memory, store, [])
    else
      var swept := Sweep(memory.regs, stale, cutoff, memory.counter + 1, sp);
      var removals := Stamp(swept.changes, memory.counter + 1);
      var done := memory.(regs := swept.regs, counter := memory.counter + |removals|);
      if removals == [] then SweptHost(done, store, [])
      else if !storageWorks then SweptHost(Fenced(memory, done, sp), store, [])
      else
        SweptHost(done.(log := done.log.(updates := done.log.updates + removals)),
                  CommitExpiry(store, ExpiryAudits(removals), Snapshotted(done)), removals)
  }

  // ----- Recovery -----

  /** The highest persisted counter of every device; nonces are not persisted. */
  function DeviceCounters(events: seq<EventRow>): ReplayGuard {
    if events == [] then map[]
    else
      var init, last := DeviceCounters(events[..|events| - 1]), events[|events| - 1];
      var highest := if last.deviceId in init then init[last.deviceId].highestCounter else 0;
      init[last.deviceId := ReplayRecord(if last.replayCounter > highest then last.replayCounter else highest, {})]
  }

  function RestoredRegistries(store: Durable, sp: Spelling): Registries {
    if store.snapshot.None? then NO_STATE else Restore(store.snapshot.value, {}, sp)
  }

  /** Rebuild everything from the tables. */
  function Recovered(store: Durable, sp: Spelling): Memory {
    var revision := Max(store.watermark,
                        Max(if store.snapshot.Some? then store.snapshot.value.highestRevision
                            else 0, MaxApplied(store.applied)));
    Memory(RestoredRegistries(store, sp), Gate(DeviceCounters(store.events), AppliedIndex(store.applied)), revision,
           Compact(Log([], 0), revision), false)
  }
}
