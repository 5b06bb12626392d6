/** Whole runs of the host: events, rejections, sweeps, failed commits, crashes at any
    point and restarts, with one client that connects, syncs and falls off. */
module Runs {
  import opened Protocol
  import opened Paths
  import opened Cache
  import opened Registries
  import opened Host
  import opened HostProofs
  import opened Projection
  import opened SilentSweeps

  // ----- The world -----

  datatype SyncState = Awaited | Served(position: nat, response: SyncResponse) | Received

  /** A connection delivers broadcasts in order: `joined` is where it began, `next` is the
      first one still to be delivered, and the answer to the sync request stands at its own
      place between them. */
  datatype Link = Down | Up(next: nat, joined: nat, fromRevision: nat, sync: SyncState)

  datatype Client = Client(cache: Entries, link: Link)

  datatype Ack = Ack(eventId: string, revision: nat)

  /** `history` holds the updates of every committed transaction, `published` those that
      were also broadcast. */
  datatype World = World(memory: Option<Memory>, store: Durable, history: seq<Update>, published: seq<Update>,
                         acks: seq<Ack>,
                         client: Client)

  datatype Fate = Works | StorageFails | CrashesBeforeCommit | CrashesAfterCommit

  datatype Step =
    | Submit(event: Event, checks: Checks, now: int, fate: Fate)
    | SweepStep(stale: seq<string>, cutoff: int, fate: Fate)
    | Crash
    | Restart
    | Connect
    | ServeSync
    | Deliver
    | Disconnect

  const START := World(None, FRESH_STORE, [], [], [], Client(NOTHING, Down))

  predicate Commits(fate: Fate) {
    fate.Works? || fate.CrashesAfterCommit?
  }

  predicate Crashes(fate: Fate) {
    fate.CrashesBeforeCommit? || fate.CrashesAfterCommit?
  }

  function Broadcasts(reply: Reply): seq<Update> {
    if reply.Accepted? then reply.broadcasts else []
  }

  function Acks(event: Event, reply: Reply): seq<Ack> {
    match reply
    case Accepted(revision, _, _) => [Ack(event.eventId, revision)]
    case DuplicateOf(revision, _) => [Ack(event.eventId, revision)]
    case _ => []
  }

  /** Commit `updates` and, unless the process crashes, broadcast them and acknowledge. */
  function Committed(w: World, memory: Memory, store: Durable, updates: seq<Update>, acks: seq<Ack>, fate: Fate): World
  {
    if Crashes(fate) then
      w.(memory := None, store := store, history := w.history + updates, client := w.client.(link := Down))
    else
      w.(memory := Some(memory), store := store, history := w.history + updates, published := w.published + updates,
         acks := w.acks + acks)
  }

  function Next(w: World, step: Step, sp: Spelling): World {
    match step
    case Submit(event, checks, now, fate) =>
      if w.memory.None? then w
      else
        var r := Ingest(w.memory.value, w.store, event, checks, Commits(fate), now, sp);
        Committed(w, r.memory, r.store, Broadcasts(r.reply), Acks(event, r.reply), fate)
    case SweepStep(stale, cutoff, fate) =>
      if w.memory.None? then w
      else
        var r := SweepExpiry(w.memory.value, w.store, stale, cutoff, Commits(fate), sp);
        Committed(w, r.memory, r.store, r.removals, [], fate)
    case Crash => w.(memory := None, client := w.client.(link := Down))
    case Restart => if w.memory.Some? then w else w.(memory := Some(Recovered(w.store, sp)))
    case Connect =>
      if w.memory.None? || w.client.link.Up? then w
      else w.(client := w.client.(link := Up(|w.history|, |w.history|, w.client.cache.highest, Awaited)))
    case ServeSync =>
      if w.memory.None? || w.client.link.Down? || !w.client.link.sync.Awaited? then w
      else
        var response := SyncFrom(w.memory.value.log, w.client.link.fromRevision, Snapshotted(w.memory.value));
        w.(client := w.client.(link := w.client.link.(sync := Served(|w.history|, response))))
    case Deliver => w.(client := Delivered(w.client, w.history, sp))
    case Disconnect => w.(client := w.client.(link := Down))
  }

  function ApplySync(cache: Entries, response: SyncResponse, sp: Spelling): Entries {
    match response
    case SyncEvents(events) => ApplyEvents(cache, events, sp)
    case SyncSnapshot(snapshot) => ApplySnapshot(snapshot, sp)
  }

  /** The next message of the connection reaches the client. */
  function Delivered(client: Client, history: seq<Update>, sp: Spelling): Client {
    match client.link
    case Down => client
    case Up(next, _, _, sync) =>
      if sync.Served? && next == sync.position then
        Client(ApplySync(client.cache, sync.response, sp), client.link.(sync := Received))
      else if next < |history| then
        Client(ApplyEvents(client.cache, [history[next]], sp), client.link.(next := next + 1))
      else client
  }

  function Run(w: World, steps: seq<Step>, sp: Spelling): World {
    if steps == [] then w else Next(Run(w, steps[..|steps| - 1], sp), steps[|steps| - 1], sp)
  }

  // ----- What every run keeps -----

  ghost predicate UpdatesBelow(updates: seq<Update>, watermark: nat) {
    forall u :: u in updates ==> u.eventRevision <= watermark
  }

  ghost predicate AcksHold(acks: seq<Ack>, store: Durable) {
    forall a :: a in acks ==>
      a.eventId in AppliedIndex(store.applied) && AppliedIndex(store.applied)[a.eventId] == a.revision
  }

  /** The log is the part of the history after its compaction mark. */
  ghost predicate LogHolds(log: Log, history: seq<Update>) {
    exists start ::
      && 0 <= start <= |history| && log.updates == history[start..]
      && UpdatesBelow(history[..start], log.compactedThrough)
  }

  ghost predicate Safe(w: World, sp: Spelling) {
    && StoreSound(w.store, sp)
    && Increasing(w.history) && UpdatesBelow(w.history, w.store.watermark)
    && Increasing(w.published) && (forall u :: u in w.published ==> u in w.history)
    && AcksHold(w.acks, w.store)
    && (w.memory.Some? ==> Running(w.memory.value, w.store, sp) && LogHolds(w.memory.value.log, w.history))
  }

  lemma StartIsSafe(sp: Spelling)
    requires sp.Lawful()
    ensures Safe(START, sp)
  {
  }

  lemma IncreasingAppend(old_: seq<Update>, new_: seq<Update>, watermark: nat)
    requires Increasing(old_) && UpdatesBelow(old_, watermark) && Increasing(new_)
    requires forall u :: u in new_ ==> u.eventRevision > watermark
    ensures Increasing(old_ + new_)
  {
    var all := old_ + new_;
    forall i, j | 0 <= i < j < |all| ensures all[i].eventRevision < all[j].eventRevision {
      if i < |old_| { assert all[i] in old_; }
      if j >= |old_| { assert all[j] == new_[j - |old_|] && all[j] in new_; }
    }
  }

  /** Stamped updates lie between two watermarks. */
  lemma StampedBetween(changes: seq<Change>, first: nat, watermark: nat, later: nat)
    requires first == watermark + 1 && later >= watermark + |changes|
    ensures Increasing(Stamp(changes, first))
    ensures forall u :: u in Stamp(changes, first) ==> watermark < u.eventRevision <= later
  {
  }

  lemma LogGrows(log: Log, history: seq<Update>, updates: seq<Update>)
    requires LogHolds(log, history)
    ensures LogHolds(log.(updates := log.updates + updates), history + updates)
  {
    var start :| 0 <= start <= |history| && log.updates == history[start..]
        && UpdatesBelow(history[..start], log.compactedThrough);
    assert (history + updates)[start..] == history[start..] + updates;
    assert (history + updates)[..start] == history[..start];
  }

  // ----- What a submission and a sweep do to revisions and acknowledgements -----

  ghost predicate Extends(store: Durable, later: Durable) {
    && store.watermark <= later.watermark
    && forall id :: id in AppliedIndex(store.applied) ==>
         id in AppliedIndex(later.applied) && AppliedIndex(later.applied)[id] == AppliedIndex(store.applied)[id]
  }

  lemma IngestCommits(memory: Memory, store: Durable, event: Event, checks: Checks, storageWorks: bool, now: int,
                      sp: Spelling)
    requires Running(memory, store, sp)
    ensures var r := Ingest(memory, store, event, checks, storageWorks, now, sp); var updates := Broadcasts(r.reply);
            && Running(r.memory, r.store, sp) && Extends(store, r.store)
            && Increasing(updates)
               && (forall u :: u in updates ==> store.watermark < u.eventRevision <= r.store.watermark)
            && r.memory.log == memory.log.(updates := memory.log.updates + updates)
            && AcksHold(Acks(event, r.reply), r.store)
  {
    hide StoreSound, InStep, Apply, GuardCovers, AppliedIndex, Insertable, Serialize, Restore;
    IngestKeeps(memory, store, event, checks, storageWorks, now, sp);
    CounterIsWatermark(memory, store, sp);
    var r := Ingest(memory, store, event, checks, storageWorks, now, sp);
    CounterIsWatermark(r.memory, r.store, sp);
    assert memory.log.updates + [] == memory.log.updates;
    if r.reply.Accepted? {
      var applied := Apply(memory.regs, event, memory.counter + 1, now, sp);
      StampedBetween(applied.changes, memory.counter + 1, store.watermark, r.store.watermark);
      IndexGrows(store.applied, event.eventId, memory.counter + 1);
    }
  }

  lemma SweepCommits(memory: Memory, store: Durable, stale: seq<string>, cutoff: int, storageWorks: bool, sp: Spelling)
    requires Running(memory, store, sp)
    ensures var r := SweepExpiry(memory, store, stale, cutoff, storageWorks, sp);
            && Running(r.memory, r.store, sp) && Extends(store, r.store)
            && Increasing(r.removals)
               && (forall u :: u in r.removals ==> store.watermark < u.eventRevision <= r.store.watermark)
            && r.memory.log == memory.log.(updates := memory.log.updates + r.removals)
  {
    hide StoreSound, InStep, Sweep, GateInStep, AppliedIndex, Serialize, Restore, RestoredRegistries, Mirrors;
    SweepExpiryKeeps(memory, store, stale, cutoff, storageWorks, sp);
    CounterIsWatermark(memory, store, sp);
    var r := SweepExpiry(memory, store, stale, cutoff, storageWorks, sp);
    CounterIsWatermark(r.memory, r.store, sp);
    assert memory.log.updates + [] == memory.log.updates;
    if r.removals != [] {
      StampedBetween(Sweep(memory.regs, stale, cutoff, memory.counter + 1, sp).changes, memory.counter + 1,
                     store.watermark, r.store.watermark);
    }
  }

  lemma AcksStay(acks: seq<Ack>, more: seq<Ack>, store: Durable, later: Durable)
    requires AcksHold(acks, store) && Extends(store, later) && AcksHold(more, later)
    ensures AcksHold(acks, later) && AcksHold(acks + more, later)
  {
    hide AppliedIndex;
  }

  lemma CommittedIsSafe(w: World, memory: Memory, store: Durable, updates: seq<Update>, acks: seq<Ack>, fate: Fate,
                        sp: Spelling)
    requires Safe(w, sp) && w.memory.Some? && Running(memory, store, sp) && Extends(w.store, store)
    requires Increasing(updates)
             && (forall u :: u in updates ==> w.store.watermark < u.eventRevision <= store.watermark)
    requires memory.log == w.memory.value.log.(updates := w.memory.value.log.updates + updates)
    requires AcksHold(acks, store)
    ensures Safe(Committed(w, memory, store, updates, acks, fate), sp)
  {
    hide StoreSound, InStep, GateInStep, AppliedIndex, Increasing, AcksHold, Extends, LogHolds;
    WatermarkGrows(w.store, store);
    IncreasingAppend(w.history, updates, w.store.watermark);
    IncreasingAppend(w.published, updates, w.store.watermark);
    LogGrows(w.memory.value.log, w.history, updates);
    AcksStay(w.acks, acks, w.store, store);
  }

  lemma WatermarkGrows(store: Durable, later: Durable)
    requires Extends(store, later)
    ensures store.watermark <= later.watermark
  {
  }

  /** Every step keeps a safe world safe, whatever fails and wherever it crashes. */
  lemma StepIsSafe(w: World, step: Step, sp: Spelling)
    requires Safe(w, sp)
    ensures Safe(Next(w, step, sp), sp)
  {
    hide StoreSound, InStep, GateInStep, AppliedIndex, Increasing, AcksHold, Extends, LogHolds, Ingest, SweepExpiry,
         UpdatesBelow;
    match step
    case Submit(event, checks, now, fate) =>
      if w.memory.Some? {
        IngestCommits(w.memory.value, w.store, event, checks, Commits(fate), now, sp);
        var r := Ingest(w.memory.value, w.store, event, checks, Commits(fate), now, sp);
        CommittedIsSafe(w, r.memory, r.store, Broadcasts(r.reply), Acks(event, r.reply), fate, sp);
      }
    case SweepStep(stale, cutoff, fate) =>
      if w.memory.Some? {
        SweepCommits(w.memory.value, w.store, stale, cutoff, Commits(fate), sp);
        var r := SweepExpiry(w.memory.value, w.store, stale, cutoff, Commits(fate), sp);
        NoAcks(r.store);
        CommittedIsSafe(w, r.memory, r.store, r.removals, [], fate, sp);
      }
    case Restart =>
      if w.memory.None? {
        RecoveredRuns(w.store, sp);
        RestartedLog(w.history, w.store.watermark);
      }
    case _ =>
  }

  lemma NoAcks(store: Durable)
    ensures AcksHold([], store)
  {
  }

  lemma RestartedLog(history: seq<Update>, watermark: nat)
    requires UpdatesBelow(history, watermark)
    ensures LogHolds(Log([], watermark), history)
  {
    assert history[|history|..] == [] && history[..|history|] == history;
  }

  lemma {:induction false} RunIsSafe(steps: seq<Step>, sp: Spelling)
    requires sp.Lawful()
    ensures Safe(Run(START, steps, sp), sp)
  {
    hide Safe, Next;
    if steps == [] {
      StartIsSafe(sp);
    } else {
      RunIsSafe(steps[..|steps| - 1], sp);
      StepIsSafe(Run(START, steps[..|steps| - 1], sp), steps[|steps| - 1], sp);
    }
  }

  // ----- Every update stands in the tables -----

  /** The revision belongs to the row of an applied event: the row is the last transaction at
      or before it, among all events and expiries. */
  ghost predicate InRange(revision: nat, row: EventRow, store: Durable) {
    && row in store.events && row.eventRevision <= revision
    && row.eventId in AppliedIndex(store.applied) && AppliedIndex(store.applied)[row.eventId] == row.eventRevision
    && (forall other :: other in store.events && row.eventRevision < other.eventRevision ==>
          revision < other.eventRevision)
    && (forall a :: a in store.audits && a.action.Expire? && row.eventRevision < a.eventRevision ==>
          revision < a.eventRevision)
  }

  /** The update came from the event of a row, or has an expiry audit of its own that names its
      member, its path and its revision. */
  ghost predicate Recorded(u: Update, store: Durable) {
    || (exists row :: InRange(u.eventRevision, row, store))
    || Audit(u.change.member, Expire, u.change.path, u.eventRevision) in store.audits
  }

  ghost predicate AllRecorded(updates: seq<Update>, store: Durable) {
    forall u :: u in updates ==> Recorded(u, store)
  }

  ghost predicate ExpiriesBelow(audits: seq<Audit>, watermark: nat) {
    forall a :: a in audits && a.action.Expire? ==> a.eventRevision <= watermark
  }

  /** The later tables add rows and expiries above the watermark only. */
  ghost predicate AddsAbove(store: Durable, later: Durable) {
    && Extends(store, later)
    && (forall row :: row in store.events ==> row in later.events)
    && (forall row :: row in later.events && row !in store.events ==> row.eventRevision > store.watermark)
    && (forall a :: a in store.audits ==> a in later.audits)
    && (forall a :: a in later.audits && a !in store.audits && a.action.Expire? ==>
          store.watermark < a.eventRevision <= later.watermark)
  }

  lemma RecordedStays(updates: seq<Update>, store: Durable, later: Durable)
    requires AllRecorded(updates, store) && UpdatesBelow(updates, store.watermark) && AddsAbove(store, later)
    ensures AllRecorded(updates, later)
  {
    hide AppliedIndex;
    forall u | u in updates ensures Recorded(u, later) {
      if row :| InRange(u.eventRevision, row, store) {
        assert InRange(u.eventRevision, row, later);
      }
    }
  }

  /** The rows and audits of one submission. */
  lemma IngestAdds(memory: Memory, store: Durable, event: Event, checks: Checks, storageWorks: bool, now: int,
                   sp: Spelling)
    requires Running(memory, store, sp)
    ensures var r := Ingest(memory, store, event, checks, storageWorks, now, sp);
            && (r.store.events == store.events || r.store.events == store.events + [RowOf(event, memory.counter + 1)])
            && (exists added: seq<Audit> :: r.store.audits == store.audits + added && forall a :: a in added ==>
                  !a.action.Expire?)
            && (r.reply.Accepted? ==>
                  && r.store.events == store.events + [RowOf(event, memory.counter + 1)]
                  && event.eventId in AppliedIndex(r.store.applied)
                  && AppliedIndex(r.store.applied)[event.eventId] == memory.counter + 1)
  {
    hide StoreSound, InStep, Apply, GuardCovers, AppliedIndex, RecordApplied, Insertable, Serialize, Restore,
         AcceptReplay;
    var r := Ingest(memory, store, event, checks, storageWorks, now, sp);
    assert r.store == store ==> r.store.audits == store.audits + [];
    if r.reply.Accepted? {
      AuditsOfEvent(memory.regs, event, memory.counter + 1, now, sp);
      IndexGrows(store.applied, event.eventId, memory.counter + 1);
    }
  }

  lemma IngestRecorded(memory: Memory, store: Durable, event: Event, checks: Checks, storageWorks: bool, now: int,
                       sp: Spelling)
    requires Running(memory, store, sp) && ExpiriesBelow(store.audits, store.watermark)
    ensures var r := Ingest(memory, store, event, checks, storageWorks, now, sp);
            && AddsAbove(store, r.store) && ExpiriesBelow(r.store.audits, r.store.watermark)
            && AllRecorded(Broadcasts(r.reply), r.store)
  {
    hide Running, Ingest, AppliedIndex, Extends;
    var r := Ingest(memory, store, event, checks, storageWorks, now, sp);
    var row := RowOf(event, memory.counter + 1);
    IngestCommits(memory, store, event, checks, storageWorks, now, sp);
    IngestAdds(memory, store, event, checks, storageWorks, now, sp);
    WatermarkGrows(store, r.store);
    RowsAreBelow(memory, store, sp);
    var added: seq<Audit> :| r.store.audits == store.audits + added && forall a :: a in added ==> !a.action.Expire?;
    if r.reply.Accepted? {
      forall u | u in Broadcasts(r.reply) ensures Recorded(u, r.store) {
        assert InRange(u.eventRevision, row, r.store);
      }
    }
  }

  lemma RowsAreBelow(memory: Memory, store: Durable, sp: Spelling)
    requires Running(memory, store, sp)
    ensures memory.counter == store.watermark
    ensures forall row :: row in store.events ==> row.eventRevision <= store.watermark
  {
    hide RowsOrdered, Mirrors, GateInStep, RestoredRegistries, Serialize;
  }

  lemma SweepRecorded(memory: Memory, store: Durable, stale: seq<string>, cutoff: int, storageWorks: bool, sp: Spelling)
    requires Running(memory, store, sp) && ExpiriesBelow(store.audits, store.watermark)
    ensures var r := SweepExpiry(memory, store, stale, cutoff, storageWorks, sp);
            && AddsAbove(store, r.store) && ExpiriesBelow(r.store.audits, r.store.watermark)
               && AllRecorded(r.removals, r.store)
  {
    hide Running, Sweep, AppliedIndex, Extends, Serialize, Restore;
    var r := SweepExpiry(memory, store, stale, cutoff, storageWorks, sp);
    SweepCommits(memory, store, stale, cutoff, storageWorks, sp);
    WatermarkGrows(store, r.store);
    if r.removals != [] {
      var audits := ExpiryAudits(r.removals);
      assert r.store.audits == store.audits + audits;
      forall a | a in audits ensures a.action.Expire? && store.watermark < a.eventRevision <= r.store.watermark {
        var i :| 0 <= i < |audits| && audits[i] == a;
        assert r.removals[i] in r.removals;
      }
      forall u | u in r.removals ensures Recorded(u, r.store) {
        var i :| 0 <= i < |r.removals| && r.removals[i] == u;
        assert audits[i] in r.store.audits;
      }
    }
  }

  ghost predicate HistoryRecorded(w: World) {
    AllRecorded(w.history, w.store) && ExpiriesBelow(w.store.audits, w.store.watermark)
  }

  lemma StepRecords(w: World, step: Step, sp: Spelling)
    requires Safe(w, sp) && HistoryRecorded(w)
    ensures HistoryRecorded(Next(w, step, sp))
  {
    hide Running, LogHolds, AcksHold, Increasing, StoreSound, Ingest, SweepExpiry, Recorded, ExpiriesBelow, AddsAbove,
         UpdatesBelow;
    match step
    case Submit(event, checks, now, fate) =>
      if w.memory.Some? {
        IngestRecorded(w.memory.value, w.store, event, checks, Commits(fate), now, sp);
        RecordedStays(w.history, w.store, Ingest(w.memory.value, w.store, event, checks, Commits(fate), now, sp).store);
      }
    case SweepStep(stale, cutoff, fate) =>
      if w.memory.Some? {
        SweepRecorded(w.memory.value, w.store, stale, cutoff, Commits(fate), sp);
        RecordedStays(w.history, w.store, SweepExpiry(w.memory.value, w.store, stale, cutoff, Commits(fate), sp).store);
      }
    case _ =>
  }

  lemma {:induction false} RunRecords(steps: seq<Step>, sp: Spelling)
    requires sp.Lawful()
    ensures HistoryRecorded(Run(START, steps, sp))
  {
    hide Safe, Next;
    if steps != [] {
      RunRecords(steps[..|steps| - 1], sp);
      RunIsSafe(steps[..|steps| - 1], sp);
      StepRecords(Run(START, steps[..|steps| - 1], sp), steps[|steps| - 1], sp);
    }
  }

  // ----- The guarantees -----

  /** Over every run: whatever was broadcast or acknowledged is durable, broadcast
      revisions strictly increase even across crashes, every device's persisted replay
      counters strictly increase, and the running host's state is the durable one. */
  lemma PublishedIsDurable(steps: seq<Step>, sp: Spelling)
    requires sp.Lawful()
    ensures var w := Run(START, steps, sp);
            && Increasing(w.published)
            && (forall u :: u in w.published ==> u.eventRevision <= w.store.watermark && Recorded(u, w.store))
            && (forall a :: a in w.acks ==>
                  a.eventId in AppliedIndex(w.store.applied) && AppliedIndex(w.store.applied)[a.eventId] == a.revision)
            && RowsOrdered(w.store.events)
            && (w.memory.Some? ==>
                  && w.memory.value.counter == w.store.watermark
                  && Mirrors(RestoredRegistries(w.store, sp), w.memory.value.regs))
  {
    hide Recorded;
    RunIsSafe(steps, sp);
    RunRecords(steps, sp);
  }

  /** No revision that was broadcast is handed out again: the next one, also after a
      crash and a restart, lies above all of them. */
  lemma RevisionsAreFresh(steps: seq<Step>, sp: Spelling)
    requires sp.Lawful() && Run(START, steps, sp).memory.Some?
    ensures var w := Run(START, steps, sp);
            forall u :: u in w.published ==> u.eventRevision < w.memory.value.counter + 1
  {
    RunIsSafe(steps, sp);
  }

  /** A step that fences the host, for whatever reason its commit failed: the storage, a row
      that is already there, or a sweep. Registries, revision counter, tables and log are as
      before, and nothing is published or acknowledged. */
  lemma FailedCommitRollsBack(steps: seq<Step>, step: Step, sp: Spelling)
    requires sp.Lawful() && Run(START, steps, sp).memory.Some? && !Run(START, steps, sp).memory.value.faulted
    requires var after := Next(Run(START, steps, sp), step, sp); after.memory.Some? && after.memory.value.faulted
    ensures var w := Run(START, steps, sp); var after := Next(w, step, sp);
            && after.memory.value.regs == w.memory.value.regs.(tracked := after.memory.value.regs.tracked)
            && after.memory.value.counter == w.memory.value.counter && after.memory.value.log == w.memory.value.log
            && after.store == w.store && after.published == w.published && after.acks == w.acks
               && after.history == w.history
  {
    hide StoreSound, InStep, GateInStep, Increasing, AcksHold, LogHolds, UpdatesBelow, Ingest, SweepExpiry,
         RestoredRegistries;
    RunIsSafe(steps, sp);
    var w := Run(START, steps, sp);
    assert w.published + [] == w.published && w.acks + [] == w.acks && w.history + [] == w.history;
    match step
    case Submit(event, checks, now, fate) => FencedSubmission(w.memory.value, w.store, event, checks, Commits(fate),
                                                              now, sp);
    case SweepStep(stale, cutoff, fate) => SweepExpiryKeeps(w.memory.value, w.store, stale, cutoff, Commits(fate), sp);
    case _ =>
  }

  lemma FencedSubmission(memory: Memory, store: Durable, event: Event, checks: Checks, storageWorks: bool, now: int,
                         sp: Spelling)
    requires Running(memory, store, sp) && !memory.faulted
    ensures var r := Ingest(memory, store, event, checks, storageWorks, now, sp);
            && (r.memory.faulted <==> r.reply.StorageError?)
            && (r.memory.faulted ==>
                  && r.store == store && r.memory.counter == memory.counter && r.memory.log == memory.log
                  && r.memory.regs == memory.regs.(tracked := r.memory.regs.tracked))
  {
    hide StoreSound, InStep, GateInStep, ApplyAndCommit, AcceptReplay, RestoredRegistries;
    var guard := AcceptReplay(memory.gate.guard, event.member.deviceId, event.counter, event.nonce);
    if event.eventId !in memory.gate.applied && guard.Some? {
      AdmittedKeeps(memory, store, event, storageWorks, now, sp);
    }
  }

  predicate EndsProcess(step: Step) {
    step.Crash? || ((step.Submit? || step.SweepStep?) && Crashes(step.fate))
  }

  /** Once fenced, a process accepts, changes and publishes nothing for as long as it lives. */
  lemma {:induction false} FencedStaysFenced(w: World, steps: seq<Step>, sp: Spelling)
    requires w.memory.Some? && w.memory.value.faulted && forall s :: s in steps ==> !EndsProcess(s)
    ensures var after := Run(w, steps, sp);
            after.memory == w.memory && after.store == w.store && after.published == w.published && after.acks == w.acks
  {
    hide ApplyAndCommit, AcceptReplay, Sweep;
    if steps != [] {
      var init, last := steps[..|steps| - 1], steps[|steps| - 1];
      assert last in steps && forall s :: s in init ==> s in steps;
      FencedStaysFenced(w, init, sp);
      var before := Run(w, init, sp);
      assert before.published + [] == before.published && before.acks + [] == before.acks;
    }
  }

  // ----- Idempotency -----

  /** An acknowledged event id stays recorded with its revision over the rest of any run. */
  lemma {:induction false} AppliedForever(w: World, steps: seq<Step>, sp: Spelling)
    requires Safe(w, sp)
    ensures Safe(Run(w, steps, sp), sp) && Extends(w.store, Run(w, steps, sp).store)
  {
    hide Safe, Next;
    if steps != [] {
      var init := steps[..|steps| - 1];
      AppliedForever(w, init, sp);
      StepIsSafe(Run(w, init, sp), steps[|steps| - 1], sp);
      StepExtends(Run(w, init, sp), steps[|steps| - 1], sp);
      ExtendsThrough(w.store, Run(w, init, sp).store, Run(w, steps, sp).store);
    } else {
      ExtendsItself(w.store);
    }
  }

  lemma ExtendsItself(store: Durable)
    ensures Extends(store, store)
  {
  }

  lemma ExtendsThrough(a: Durable, b: Durable, c: Durable)
    requires Extends(a, b) && Extends(b, c)
    ensures Extends(a, c)
  {
    hide AppliedIndex;
  }

  lemma StepExtends(w: World, step: Step, sp: Spelling)
    requires Safe(w, sp)
    ensures Extends(w.store, Next(w, step, sp).store)
  {
    hide StoreSound, InStep, GateInStep, Increasing, AcksHold, Extends, LogHolds, Ingest, SweepExpiry, UpdatesBelow;
    ExtendsItself(w.store);
    match step
    case Submit(event, checks, now, fate) =>
      if w.memory.Some? { IngestCommits(w.memory.value, w.store, event, checks, Commits(fate), now, sp); }
    case SweepStep(stale, cutoff, fate) =>
      if w.memory.Some? { SweepCommits(w.memory.value, w.store, stale, cutoff, Commits(fate), sp); }
    case _ =>
  }

  /** An event is applied at most once: after it was acknowledged at some revision, any
      later submission of its id, also after crashes and restarts, changes nothing and
      is answered with that revision. */
  lemma AppliedAtMostOnce(steps: seq<Step>, later: seq<Step>, ack: Ack, event: Event, checks: Checks,
                          storageWorks: bool, now: int,
                          sp: Spelling)
    requires sp.Lawful() && ack in Run(START, steps, sp).acks && event.eventId == ack.eventId
    requires var w := Run(Run(START, steps, sp), later, sp); w.memory.Some? && !w.memory.value.faulted
    requires checks.authentic && checks.wellFormed && checks.permitted
    ensures var w := Run(Run(START, steps, sp), later, sp);
            var r := Ingest(w.memory.value, w.store, event, checks, storageWorks, now, sp);
            r.memory == w.memory.value && r.store == w.store && r.reply.DuplicateOf? && r.reply.revision == ack.revision
  {
    hide StoreSound, InStep, Increasing, LogHolds, UpdatesBelow, ApplyAndCommit, AcceptReplay, GuardCovers,
         AppliedIndex;
    RunIsSafe(steps, sp);
    AppliedForever(Run(START, steps, sp), later, sp);
  }

  // ----- A rejected event id -----

  /** The commit of an admitted event fails although the storage works exactly when an
      earlier event of that id was rejected: its row is already in the table, but not in
      the index that recognises duplicates. The host is then fenced. */
  lemma RetryOfRejectedFences(memory: Memory, store: Durable, event: Event, checks: Checks, now: int, sp: Spelling)
    requires Running(memory, store, sp) && !memory.faulted && checks.authentic && checks.wellFormed && checks.permitted
    requires event.eventId !in memory.gate.applied
    requires AcceptReplay(memory.gate.guard, event.member.deviceId, event.counter, event.nonce).Some?
    ensures var r := Ingest(memory, store, event, checks, true, now, sp);
            (r.memory.faulted <==> exists e :: e in store.events && e.eventId == event.eventId)
            && (r.reply.StorageError? <==> r.memory.faulted)
  {
    hide StoreSound, InStep, GateInStep, Apply, AcceptReplay, Restore, Serialize, RestoredRegistries;
    CounterIsWatermark(memory, store, sp);
    CommitsUnlessKnown(memory, store, event, sp);
  }

  /** The id of a rejected event. */
  ghost predicate Rejected(store: Durable, eventId: string) {
    eventId !in AppliedIndex(store.applied) && exists e :: e in store.events && e.eventId == eventId
  }

  lemma RejectionIsRecorded(memory: Memory, store: Durable, event: Event, checks: Checks, now: int, sp: Spelling)
    requires Running(memory, store, sp) && Ingest(memory, store, event, checks, true, now, sp).reply.RuleRejection?
    ensures Rejected(Ingest(memory, store, event, checks, true, now, sp).store, event.eventId)
  {
    hide StoreSound, InStep, GuardCovers, Apply, AcceptReplay, Restore, Serialize, RestoredRegistries, AppliedIndex,
         Insertable;
    var row := RowOf(event, memory.counter + 1);
    assert row in store.events + [row] && row.eventId == event.eventId;
  }

  lemma StepKeepsRejected(w: World, step: Step, eventId: string, sp: Spelling)
    requires Safe(w, sp) && Rejected(w.store, eventId)
    ensures Rejected(Next(w, step, sp).store, eventId)
  {
    hide StoreSound, InStep, Increasing, AcksHold, LogHolds, UpdatesBelow, GuardCovers, AcceptReplay, Apply, Sweep,
         Restore, Serialize,
         AppliedIndex, RecordApplied, RestoredRegistries;
    if step.Submit? && w.memory.Some? {
      var r := Ingest(w.memory.value, w.store, step.event, step.checks, Commits(step.fate), step.now, sp);
      if r.reply.Accepted? {
        IndexGrows(w.store.applied, step.event.eventId, w.memory.value.counter + 1);
      }
    }
  }

  /** A rejected event can never turn into an applied one: not on a retry, not after a restart. */
  lemma {:induction false} RejectedNeverApplies(w: World, steps: seq<Step>, eventId: string, sp: Spelling)
    requires Safe(w, sp) && Rejected(w.store, eventId)
    ensures eventId !in AppliedIndex(Run(w, steps, sp).store.applied) && Rejected(Run(w, steps, sp).store, eventId)
    ensures Safe(Run(w, steps, sp), sp)
  {
    hide Safe, Next, AppliedIndex;
    if steps != [] {
      RejectedNeverApplies(w, steps[..|steps| - 1], eventId, sp);
      StepIsSafe(Run(w, steps[..|steps| - 1], sp), steps[|steps| - 1], sp);
      StepKeepsRejected(Run(w, steps[..|steps| - 1], sp), steps[|steps| - 1], eventId, sp);
    }
  }

  // ----- A silent sweep -----

  lemma RunningMaps(memory: Memory, store: Durable, sp: Spelling)
    requires Running(memory, store, sp)
    ensures Maps(memory.regs)
  {
    hide StoreSound, Mirrors, GateInStep, RestoredRegistries;
  }

  /** With working storage a sweep is silent exactly when no stale device holds a claim, live
      presence or an intent with a path, and no soft claim is too old. */
  lemma SilentSweepIff(memory: Memory, store: Durable, stale: seq<string>, cutoff: int, sp: Spelling)
    requires Running(memory, store, sp) && !memory.faulted
    ensures SweepExpiry(memory, store, stale, cutoff, true, sp).removals == [] <==>
            NothingToAnnounce(memory.regs, stale, cutoff)
  {
    hide Running, Sweep, Serialize, NothingToAnnounce, CommitExpiry, Maps;
    RunningMaps(memory, store, sp);
    SweepSilentIff(memory.regs, stale, cutoff, memory.counter + 1, sp);
  }

  /** A silent sweep commits nothing. It drops exactly the intents of the stale devices, which
      have no path left, and a restart brings them back; so memory and tables part exactly when
      some stale device still owns an intent. */
  lemma SilentSweepIsForgotten(memory: Memory, store: Durable, stale: seq<string>, cutoff: int, storageWorks: bool,
                               sp: Spelling)
    requires Running(memory, store, sp) && !memory.faulted && NothingToAnnounce(memory.regs, stale, cutoff)
    ensures var r := SweepExpiry(memory, store, stale, cutoff, storageWorks, sp);
            && r.removals == [] && r.store == store && !r.memory.faulted
            && r.memory.regs == memory.regs.(intents := r.memory.regs.intents)
            && r.memory.regs.intents.data == Spared(memory.regs.intents.data, stale)
            && (forall id :: id in memory.regs.intents.data ==>
                  id in Recovered(r.store, sp).regs.intents.data
                  && Recovered(r.store, sp).regs.intents.data[id] == memory.regs.intents.data[id])
            && (r.memory.regs == memory.regs <==>
                  forall id :: id in memory.regs.intents.data ==> memory.regs.intents.data[id].owner.deviceId !in stale)
  {
    hide StoreSound, GateInStep, Sweep, Serialize, RestoredRegistries, NothingToAnnounce, Maps, Spared;
    RunningMaps(memory, store, sp);
    SweepSilentIff(memory.regs, stale, cutoff, memory.counter + 1, sp);
    SilentSweepDropsExactly(memory.regs, stale, cutoff, memory.counter + 1, sp);
  }
}
