/** A client that replays broadcasts, misses some, and syncs: it ends up with the
    projection of the host's state, over every run whose events the caches can follow. */
module ClientRuns {
  import opened Protocol
  import opened JsMaps
  import opened Paths
  import opened Cache
  import opened Registries
  import opened States
  import opened Convergence
  import opened SweepConvergence
  import opened EventConvergence
  import opened Projection
  import opened Host
  import opened HostProofs
  import opened Runs

  // ----- Cutting a history at a revision -----

  /** How many updates come before or at a revision. */
  function Reach(history: seq<Update>, revision: nat): (n: nat)
    ensures n <= |history|
  {
    if history == [] || history[0].eventRevision > revision then 0 else 1 + Reach(history[1..], revision)
  }

  lemma {:induction false} ReachSplits(history: seq<Update>, revision: nat)
    requires Increasing(history)
    ensures forall i :: 0 <= i < Reach(history, revision) ==> history[i].eventRevision <= revision
    ensures forall i :: Reach(history, revision) <= i < |history| ==> history[i].eventRevision > revision
    ensures Since(history, revision) == history[Reach(history, revision)..]
  {
    if history != [] {
      IncreasingTail(history);
      ReachSplits(history[1..], revision);
      assert forall i :: 0 <= i < |history| - 1 ==> history[1..][i] == history[i + 1];
      if history[0].eventRevision > revision {
        AllSince(history, revision);
      }
    }
  }

  lemma IncreasingTail(history: seq<Update>)
    requires Increasing(history) && history != []
    ensures Increasing(history[1..])
  {
  }

  lemma {:induction false} AllSince(updates: seq<Update>, revision: nat)
    requires forall u :: u in updates ==> u.eventRevision > revision
    ensures Since(updates, revision) == updates
  {
    if updates != [] {
      assert updates[0] in updates;
      AllSince(updates[1..], revision);
    }
  }

  lemma {:induction false} NoneSince(updates: seq<Update>, revision: nat)
    requires forall u :: u in updates ==> u.eventRevision <= revision
    ensures Since(updates, revision) == []
  {
    if updates != [] {
      assert updates[0] in updates;
      NoneSince(updates[1..], revision);
    }
  }

  lemma {:induction false} SinceConcat(a: seq<Update>, b: seq<Update>, revision: nat)
    ensures Since(a + b, revision) == Since(a, revision) + Since(b, revision)
  {
    if a == [] {
      assert a + b == b;
    } else {
      assert (a + b)[1..] == a[1..] + b;
      SinceConcat(a[1..], b, revision);
    }
  }

  /** The cut is where the revisions say it is. */
  lemma ReachIs(history: seq<Update>, revision: nat, n: nat)
    requires Increasing(history) && n <= |history|
    requires n == 0 || history[n - 1].eventRevision <= revision
    requires n == |history| || history[n].eventRevision > revision
    ensures Reach(history, revision) == n
  {
    ReachSplits(history, revision);
    if n > 0 { assert forall i :: 0 <= i < n ==> history[i].eventRevision <= history[n - 1].eventRevision; }
  }

  lemma ReachGrown(history: seq<Update>, updates: seq<Update>, revision: nat)
    requires Increasing(history + updates) && forall u :: u in updates ==> u.eventRevision > revision
    ensures Reach(history + updates, revision) == Reach(history, revision)
    ensures (history + updates)[..Reach(history, revision)] == history[..Reach(history, revision)]
  {
    var all := history + updates;
    assert forall i :: 0 <= i < |history| ==> all[i] == history[i];
    assert Increasing(history);
    ReachSplits(history, revision);
    var n := Reach(history, revision);
    if n == |history| && updates != [] { assert all[n] == updates[0] && updates[0] in updates; }
    ReachIs(all, revision, n);
  }

  // ----- Following and projecting -----

  /** What a client shows that has replayed a list of updates from nothing. */
  ghost predicate Replayed(cache: Entries, updates: seq<Update>, sp: Spelling) {
    forall key :: Seen(cache, key) == Net(ChangesOf(updates), key, sp).On(None)
  }

  /** Replaying a list of updates on an empty client shows the projection of a state. */
  ghost predicate Projects(updates: seq<Update>, regs: Registries, sp: Spelling) {
    forall key :: Net(ChangesOf(updates), key, sp).On(None) == Shown(regs, key, sp)
  }

  /** The client shows what the updates up to its cursor add up to. */
  ghost predicate Follows(cache: Entries, history: seq<Update>, sp: Spelling) {
    Replayed(cache, history[..Reach(history, cache.highest)], sp)
  }

  lemma NetFollowed(a: seq<Update>, b: seq<Update>, key: EntryKey, sp: Spelling, seen: Option<string>)
    ensures Net(ChangesOf(a + b), key, sp).On(seen) ==
            Net(ChangesOf(b), key, sp).On(Net(ChangesOf(a), key, sp).On(seen))
  {
    hide Net;
    assert ChangesOf(a + b) == ChangesOf(a) + ChangesOf(b);
    NetConcat(ChangesOf(a), ChangesOf(b), key, sp);
  }

  lemma ProjectsMore(history: seq<Update>, changes: seq<Change>, first: nat, before: Registries, after: Registries,
                     sp: Spelling)
    requires Projects(history, before, sp) && Carries(changes, before, after, sp)
    ensures Projects(history + Stamp(changes, first), after, sp)
  {
    hide Net, Shown;
    var updates := Stamp(changes, first);
    ChangesOfStamp(changes, first);
    forall key
      ensures Net(ChangesOf(history + updates), key, sp).On(None) == Shown(after, key, sp)
    {
      NetFollowed(history, updates, key, sp, None);
      assert Net(ChangesOf(history), key, sp).On(None) == Shown(before, key, sp);
    }
  }

  /** States that mirror each other show the same. */
  lemma MirrorsShow(kept: Registries, live: Registries, sp: Spelling)
    requires Mirrors(kept, live)
    ensures forall key :: Shown(kept, key, sp) == Shown(live, key, sp)
    ensures Slotted(kept, sp) && live.intents.Valid() ==> Slotted(live, sp)
  {
    forall key ensures Shown(kept, key, sp) == Shown(live, key, sp) {
      if key.intentId in kept.intents.data && key.intentId !in live.intents.data {
        assert Pathless(kept.intents.data[key.intentId]);
      }
    }
    if Slotted(kept, sp) && live.intents.Valid() {
      assert forall id :: id in kept.intents.data ==> NamedIntent(id, kept.intents.data[id], sp);
      assert forall id :: id in live.intents.data ==> NamedIntent(id, live.intents.data[id], sp);
    }
  }

  lemma TrackedShows(regs: Registries, tracked: set<string>, sp: Spelling)
    ensures forall key :: Shown(regs.(tracked := tracked), key, sp) == Shown(regs, key, sp)
    ensures Slotted(regs.(tracked := tracked), sp) <==> Slotted(regs, sp)
  {
  }

  lemma ProjectsSame(history: seq<Update>, a: Registries, b: Registries, sp: Spelling)
    requires Projects(history, a, sp) && forall key :: Shown(a, key, sp) == Shown(b, key, sp)
    ensures Projects(history, b, sp)
  {
    hide Net, Shown;
    forall key ensures Net(ChangesOf(history), key, sp).On(None) == Shown(b, key, sp) {
      assert Shown(a, key, sp) == Shown(b, key, sp);
    }
  }

  // ----- The client's side -----

  /** The client has everything before a position of the history. */
  ghost predicate CaughtUp(cache: Entries, history: seq<Update>, position: nat) {
    position <= |history| && (position == 0 || history[position - 1].eventRevision <= cache.highest)
  }

  /** An answer to a sync request brings a client that asked from `fromRevision` to `position`. */
  ghost predicate Answers(response: SyncResponse, fromRevision: nat, history: seq<Update>, position: nat,
                          watermark: nat, sp: Spelling)
    requires position <= |history|
  {
    match response
    case SyncEvents(events) => events == Since(history[..position], fromRevision)
    case SyncSnapshot(snapshot) =>
      && Replayed(ApplySnapshot(snapshot, sp), history[..position], sp)
      && Reach(history, snapshot.highestRevision) == position && fromRevision <= snapshot.highestRevision <= watermark
  }

  /** Without an answer yet, the client shows what it had when it asked and, on top of that, the
      broadcasts since it joined. */
  ghost predicate Waiting(cache: Entries, history: seq<Update>, next: nat, joined: nat, fromRevision: nat, sp: Spelling)
  {
    && Reach(history, fromRevision) <= joined <= next <= |history| && fromRevision <= cache.highest
    && cache.highest == (if joined < next then history[next - 1].eventRevision else fromRevision)
    && Replayed(cache, history[..Reach(history, fromRevision)] + history[joined..next], sp)
  }

  ghost predicate ClientSound(client: Client, history: seq<Update>, watermark: nat, sp: Spelling) {
    && client.cache.highest <= watermark
    && match client.link
       case Down => Follows(client.cache, history, sp)
       case Up(next, joined, fromRevision, sync) =>
         if sync.Received? then Follows(client.cache, history, sp) && CaughtUp(client.cache, history, next)
         else
           && Waiting(client.cache, history, next, joined, fromRevision, sp)
           && (sync.Served? ==> next <= sync.position && sync.position <= |history|
                                && Answers(sync.response, fromRevision, history, sync.position, watermark, sp))
  }

  /** The history adds up to the stored state. */
  ghost predicate HostConverging(w: World, sp: Spelling) {
    && Safe(w, sp) && sp.Lawful()
    && Slotted(RestoredRegistries(w.store, sp), sp) && Projects(w.history, RestoredRegistries(w.store, sp), sp)
  }

  /** And the client follows the history. */
  ghost predicate Converging(w: World, sp: Spelling) {
    HostConverging(w, sp) && ClientSound(w.client, w.history, w.store.watermark, sp)
  }

  // ----- The conditions under which a step is followed -----

  /** The caches can follow what the step announces. */
  ghost predicate HostFollowable(w: World, step: Step, sp: Spelling) {
    match step
    case Submit(event, checks, now, fate) =>
      w.memory.Some? && Ingest(w.memory.value, w.store, event, checks, Commits(fate), now, sp).reply.Accepted? ==>
        HasSlots(event) && Announced(w.memory.value.regs, event, sp)
    case SweepStep(stale, cutoff, _) =>
      w.memory.Some? && !w.memory.value.faulted ==>
        AgePassSafe(AfterHeartbeats(w.memory.value.regs, stale, w.memory.value.counter + 1, sp).locks, cutoff, sp)
    case _ => true
  }

  /** A broadcast has reached the client before the answer to its sync request, and there are
      updates from before it joined that it has not seen. */
  ghost predicate Overtaken(client: Client, history: seq<Update>) {
    && client.link.Up? && !client.link.sync.Received?
    && Reach(history, client.link.fromRevision) < client.link.joined < client.link.next
  }

  /** The step loses the updates that an overtaken client still misses: it ends the connection, or
      brings an answer made of updates, which the client then takes for old ones. An answer made
      of a snapshot does no harm. */
  ghost predicate Loses(w: World, step: Step) {
    && Overtaken(w.client, w.history)
    && (step.Disconnect? || (w.memory.Some? && EndsProcess(step)) || step.Crash?
        || (step.Deliver? && w.client.link.sync.Served? && w.client.link.next == w.client.link.sync.position
            && w.client.link.sync.response.SyncEvents?))
  }

  ghost predicate Followable(w: World, step: Step, sp: Spelling) {
    HostFollowable(w, step, sp) && !Loses(w, step)
  }

  // ----- The client while the history grows -----

  lemma FollowsMore(cache: Entries, history: seq<Update>, updates: seq<Update>, watermark: nat, sp: Spelling)
    requires Follows(cache, history, sp) && cache.highest <= watermark && Increasing(history + updates)
    requires forall u :: u in updates ==> u.eventRevision > watermark
    ensures Follows(cache, history + updates, sp)
  {
    hide Replayed, Increasing;
    ReachGrown(history, updates, cache.highest);
  }

  lemma AnswersMore(response: SyncResponse, fromRevision: nat, history: seq<Update>, updates: seq<Update>,
                    position: nat, watermark: nat,
                    later: nat, sp: Spelling)
    requires position <= |history| && Answers(response, fromRevision, history, position, watermark, sp)
    requires Increasing(history + updates) && watermark <= later && forall u :: u in updates ==>
               u.eventRevision > watermark
    ensures Answers(response, fromRevision, history + updates, position, later, sp)
  {
    hide Replayed, Increasing;
    assert (history + updates)[..position] == history[..position];
    if response.SyncSnapshot? {
      ReachGrown(history, updates, response.snapshot.highestRevision);
    }
  }

  lemma WaitingMore(client: Client, history: seq<Update>, updates: seq<Update>, watermark: nat, sp: Spelling)
    requires client.link.Up? && client.cache.highest <= watermark
    requires Waiting(client.cache, history, client.link.next, client.link.joined, client.link.fromRevision, sp)
    requires Increasing(history + updates) && forall u :: u in updates ==> u.eventRevision > watermark
    ensures Waiting(client.cache, history + updates, client.link.next, client.link.joined, client.link.fromRevision, sp)
  {
    hide Replayed, Increasing, Reach;
    var Up(next, joined, fromRevision, _) := client.link;
    ReachGrown(history, updates, fromRevision);
    assert (history + updates)[joined..next] == history[joined..next];
  }

  lemma ClientMore(client: Client, history: seq<Update>, updates: seq<Update>, watermark: nat, later: nat, sp: Spelling)
    requires ClientSound(client, history, watermark, sp) && watermark <= later && Increasing(history + updates)
    requires forall u :: u in updates ==> u.eventRevision > watermark
    ensures ClientSound(client, history + updates, later, sp)
  {
    hide Follows, Increasing, Answers, Waiting;
    if client.link.Down? || client.link.sync.Received? {
      FollowsMore(client.cache, history, updates, watermark, sp);
    } else {
      WaitingMore(client, history, updates, watermark, sp);
      WaitingRange(client, history, sp);
      if client.link.sync.Served? {
        AnswersMore(client.link.sync.response, client.link.fromRevision, history, updates, client.link.sync.position,
                    watermark, later, sp);
      }
    }
  }

  lemma WaitingRange(client: Client, history: seq<Update>, sp: Spelling)
    requires client.link.Up?
    requires Waiting(client.cache, history, client.link.next, client.link.joined, client.link.fromRevision, sp)
    ensures client.link.next <= |history|
  {
  }

  /** A client that is not overtaken can lose its connection without harm. */
  lemma UnovertakenFollows(client: Client, history: seq<Update>, watermark: nat, sp: Spelling)
    requires ClientSound(client, history, watermark, sp) && Increasing(history) && !Overtaken(client, history)
    ensures Follows(client.cache, history, sp)
    ensures client.link.Up? && !client.link.sync.Received? ==>
              CaughtUp(client.cache, history, client.link.next) || client.cache.highest == client.link.fromRevision
  {
    hide Replayed, Increasing, Answers, Reach;
    if client.link.Up? && !client.link.sync.Received? {
      var Up(next, joined, fromRevision, _) := client.link;
      var n := Reach(history, fromRevision);
      if joined < next {
        assert history[..n] + history[joined..next] == history[..next];
        if next < |history| { Later(history, next - 1, next); }
        ReachIs(history, history[next - 1].eventRevision, next);
      } else {
        assert history[..n] + history[joined..next] == history[..n];
      }
    }
  }

  // ----- Deliveries -----

  lemma OneEvent(cache: Entries, update: Update, sp: Spelling)
    ensures ApplyEvents(cache, [update], sp) == ApplyUpdate(cache, update, sp)
  {
    assert SortByRevision([update][1..]) == [];
    assert SortByRevision([update]) == [update];
    assert ApplyAll(ApplyUpdate(cache, update, sp), [update][1..], sp) == ApplyUpdate(cache, update, sp);
  }

  /** Newer updates that continue the history extend what the client follows. */
  lemma ReplayedMore(cache: Entries, done: seq<Update>, more: seq<Update>, sp: Spelling)
    requires Replayed(cache, done, sp) && Increasing(more) && forall u :: u in more ==> u.eventRevision > cache.highest
    ensures Replayed(ApplyAll(cache, more, sp), done + more, sp)
    ensures ApplyAll(cache, more, sp).highest == if more == [] then cache.highest else more[|more| - 1].eventRevision
  {
    hide Net;
    forall key
      ensures Seen(ApplyAll(cache, more, sp), key) == Net(ChangesOf(done + more), key, sp).On(None)
    {
      ApplyAllNet(cache, more, key, sp);
      NetFollowed(done, more, key, sp, None);
      assert Seen(cache, key) == Net(ChangesOf(done), key, sp).On(None);
    }
    ApplyAllNet(cache, more, ANY_SLOT, sp);
  }

  lemma IncreasingSlice(history: seq<Update>, a: nat, b: nat)
    requires Increasing(history) && a <= b <= |history|
    ensures Increasing(history[a..b])
    ensures forall u :: u in history[a..b] ==> exists i :: a <= i < b && history[i] == u
  {
  }

  lemma ReachedSlice(history: seq<Update>, revision: nat, position: nat)
    requires Increasing(history) && Reach(history, revision) <= position <= |history|
    ensures var more := history[Reach(history, revision)..position];
            Increasing(more) && forall u :: u in more ==> u.eventRevision > revision
  {
    hide Reach;
    ReachSplits(history, revision);
    IncreasingSlice(history, Reach(history, revision), position);
  }

  /** Replaying the history between the cursor and a later position. */
  lemma ReplayTo(cache: Entries, history: seq<Update>, position: nat, sp: Spelling)
    requires Increasing(history) && Follows(cache, history, sp)
             && Reach(history, cache.highest) <= position <= |history|
    ensures var after := ApplyAll(cache, history[Reach(history, cache.highest)..position], sp);
            && Follows(after, history, sp) && CaughtUp(after, history, position) && after.highest >= cache.highest
            && (after.highest == cache.highest
                || (position > 0 && after.highest == history[position - 1].eventRevision))
  {
    hide Replayed, Increasing, Reach, ApplyAll;
    var n := Reach(history, cache.highest);
    var more := history[n..position];
    ReachedSlice(history, cache.highest, position);
    assert history[..n] + more == history[..position];
    ReplayedMore(cache, history[..n], more, sp);
    if more != [] {
      assert more[|more| - 1] == history[position - 1];
      if position < |history| { Later(history, position - 1, position); }
      ReachIs(history, history[position - 1].eventRevision, position);
    } else {
      assert position == n && more == [];
      ReachSplits(history, cache.highest);
      NothingApplied(cache, sp);
    }
  }

  lemma NothingApplied(cache: Entries, sp: Spelling)
    ensures ApplyAll(cache, [], sp) == cache
  {
  }

  lemma Later(history: seq<Update>, i: nat, j: nat)
    requires Increasing(history) && i < j < |history|
    ensures history[i].eventRevision < history[j].eventRevision
  {
  }

  lemma StaleUpdates(cache: Entries, history: seq<Update>, a: nat, position: nat, sp: Spelling)
    requires Increasing(history) && CaughtUp(cache, history, position) && a <= position
    ensures ApplyAll(cache, history[a..position], sp) == cache
  {
    forall u | u in history[a..position] ensures u.eventRevision <= cache.highest {
      var i :| a <= i < position && history[i] == u;
      if i < position - 1 { Later(history, i, position - 1); }
    }
    ApplyAllStale(cache, history[a..position], sp);
  }

  lemma BroadcastFollowed(client: Client, history: seq<Update>, watermark: nat, sp: Spelling)
    requires Increasing(history) && UpdatesBelow(history, watermark) && ClientSound(client, history, watermark, sp)
    requires client.link.Up? && client.link.next < |history|
    requires client.link.sync.Served? ==> client.link.next != client.link.sync.position
    ensures ClientSound(Delivered(client, history, sp), history, watermark, sp)
  {
    hide Replayed, Increasing, ApplyUpdate, ApplyEvents, Answers, Follows, Waiting;
    var next := client.link.next;
    var cache := client.cache;
    OneEvent(cache, history[next], sp);
    assert history[next] in history;
    if !client.link.sync.Received? {
      WaitingBroadcast(client, history, sp);
    } else {
      ReachSplits(history, cache.highest);
      if history[next].eventRevision <= cache.highest {
        OldUpdate(cache, history[next], sp);
      } else {
        ReachIs(history, cache.highest, next);
        ReplayTo(cache, history, next + 1, sp);
        assert history[next..next + 1] == [history[next]];
        OneUpdate(cache, history[next], sp);
      }
    }
  }

  lemma WaitingBroadcast(client: Client, history: seq<Update>, sp: Spelling)
    requires Increasing(history) && client.link.Up? && client.link.next < |history|
    requires Waiting(client.cache, history, client.link.next, client.link.joined, client.link.fromRevision, sp)
    ensures var after := ApplyUpdate(client.cache, history[client.link.next], sp);
            && Waiting(after, history, client.link.next + 1, client.link.joined, client.link.fromRevision, sp)
            && after.highest == history[client.link.next].eventRevision
  {
    hide Replayed, Increasing, ApplyUpdate, Reach;
    var Up(next, joined, fromRevision, _) := client.link;
    var done := history[..Reach(history, fromRevision)] + history[joined..next];
    ReachSplits(history, fromRevision);
    if joined < next { Later(history, next - 1, next); }
    IncreasingSlice(history, next, next + 1);
    assert history[next..next + 1] == [history[next]];
    ReplayedMore(client.cache, done, [history[next]], sp);
    OneUpdate(client.cache, history[next], sp);
    assert history[joined..next + 1] == history[joined..next] + [history[next]];
    Associates(history[..Reach(history, fromRevision)], history[joined..next], [history[next]]);
  }

  lemma OldUpdate(cache: Entries, update: Update, sp: Spelling)
    requires update.eventRevision <= cache.highest
    ensures ApplyUpdate(cache, update, sp) == cache
  {
  }

  lemma OneUpdate(cache: Entries, update: Update, sp: Spelling)
    ensures ApplyAll(cache, [update], sp) == ApplyUpdate(cache, update, sp)
  {
    assert ApplyAll(ApplyUpdate(cache, update, sp), [update][1..], sp) == ApplyUpdate(cache, update, sp);
  }

  lemma PrefixSince(history: seq<Update>, position: nat, revision: nat)
    requires Increasing(history) && position <= |history|
    ensures var n := Reach(history, revision);
            Since(history[..position], revision) == if n <= position then history[n..position] else []
  {
    hide Increasing;
    var n, front := Reach(history, revision), history[..position];
    ReachSplits(history, revision);
    if n <= position {
      assert front == history[..n] + history[n..position];
      SinceConcat(history[..n], history[n..position], revision);
      NoneSince(history[..n], revision);
      AllSince(history[n..position], revision);
    } else {
      NoneSince(front, revision);
    }
  }

  lemma IncreasingFront(history: seq<Update>, revision: nat, position: nat)
    requires Increasing(history) && position <= |history|
    ensures Increasing(Since(history[..position], revision))
  {
    hide Increasing;
    PrefixSince(history, position, revision);
    IncreasingSlice(history, position, position);
    assert history[position..position] == [];
    if Reach(history, revision) <= position { IncreasingSlice(history, Reach(history, revision), position); }
  }

  lemma SyncFollowed(client: Client, history: seq<Update>, watermark: nat, sp: Spelling)
    requires Increasing(history) && UpdatesBelow(history, watermark) && ClientSound(client, history, watermark, sp)
    requires client.link.Up? && client.link.sync.Served? && client.link.next == client.link.sync.position
    requires client.link.sync.response.SyncEvents? ==> !Overtaken(client, history)
    ensures ClientSound(Delivered(client, history, sp), history, watermark, sp)
  {
    hide Replayed, Increasing, ApplyUpdate, ApplySnapshot, Reach, Overtaken, Waiting;
    var cache, link, position := client.cache, client.link, client.link.next;
    match link.sync.response {
      case SyncSnapshot(snapshot) =>
        SnapshotCaughtUp(snapshot, history, position, sp);
      case SyncEvents(events) =>
        UnovertakenFollows(client, history, watermark, sp);
        AskedFromBelow(client, history, sp);
        IncreasingFront(history, link.fromRevision, position);
        SortedAlready(events);
        EventsFollowed(cache, link.fromRevision, history, position, watermark, sp);
    }
  }

  lemma AskedFromBelow(client: Client, history: seq<Update>, sp: Spelling)
    requires client.link.Up?
    requires Waiting(client.cache, history, client.link.next, client.link.joined, client.link.fromRevision, sp)
    ensures client.link.fromRevision <= client.cache.highest
  {
  }

  lemma SnapshotCaughtUp(snapshot: Snapshot, history: seq<Update>, position: nat, sp: Spelling)
    requires Increasing(history) && Reach(history, snapshot.highestRevision) == position
    ensures ApplySnapshot(snapshot, sp).highest == snapshot.highestRevision
    ensures CaughtUp(ApplySnapshot(snapshot, sp), history, position)
  {
    ReachSplits(history, snapshot.highestRevision);
  }

  lemma EventsFollowed(cache: Entries, fromRevision: nat, history: seq<Update>, position: nat, watermark: nat,
                       sp: Spelling)
    requires Increasing(history) && UpdatesBelow(history, watermark) && Follows(cache, history, sp)
             && cache.highest <= watermark
    requires position <= |history| && (CaughtUp(cache, history, position) || cache.highest == fromRevision)
             && fromRevision <= cache.highest
    ensures var after := ApplyAll(cache, Since(history[..position], fromRevision), sp);
            Follows(after, history, sp) && CaughtUp(after, history, position)
            && fromRevision <= after.highest <= watermark
  {
    hide Replayed, Increasing, ApplyUpdate, Follows;
    PrefixSince(history, position, fromRevision);
    var n := Reach(history, fromRevision);
    if CaughtUp(cache, history, position) {
      if n <= position { StaleUpdates(cache, history, n, position, sp); }
    } else {
      ReachSplits(history, fromRevision);
      assert n <= position;
      ReplayTo(cache, history, position, sp);
      if position > 0 { assert history[position - 1] in history; }
    }
  }

  // ----- Steps -----

  lemma DeliverFollowed(w: World, sp: Spelling)
    requires Converging(w, sp) && !Loses(w, Deliver)
    ensures Converging(Next(w, Deliver, sp), sp)
  {
    hide Safe, Projects, RestoredRegistries, ClientSound, Delivered, Overtaken;
    assert Increasing(w.history) && UpdatesBelow(w.history, w.store.watermark) by { SafeHistory(w, sp); }
    StepIsSafe(w, Deliver, sp);
    var client := w.client;
    if client.link.Up? {
      NextInRange(client, w.history, w.store.watermark, sp);
      if client.link.sync.Served? && client.link.next == client.link.sync.position {
        SyncFollowed(client, w.history, w.store.watermark, sp);
      } else if client.link.next < |w.history| {
        BroadcastFollowed(client, w.history, w.store.watermark, sp);
      } else {
        NothingDelivered(client, w.history, sp);
      }
    } else {
      NothingDelivered(client, w.history, sp);
    }
  }

  lemma NothingDelivered(client: Client, history: seq<Update>, sp: Spelling)
    requires client.link.Up? ==>
               client.link.next >= |history|
               && !(client.link.sync.Served? && client.link.next == client.link.sync.position)
    ensures Delivered(client, history, sp) == client
  {
  }

  lemma NextInRange(client: Client, history: seq<Update>, watermark: nat, sp: Spelling)
    requires ClientSound(client, history, watermark, sp) && client.link.Up?
    ensures client.link.next <= |history|
  {
    hide Follows, Answers, Replayed;
  }

  lemma SafeHistory(w: World, sp: Spelling)
    requires Safe(w, sp)
    ensures Increasing(w.history) && UpdatesBelow(w.history, w.store.watermark)
  {
    hide StoreSound, AcksHold, Running, LogHolds, Increasing, UpdatesBelow;
  }

  /** Connecting: the client asks from its cursor. */
  lemma ConnectFollowed(w: World, sp: Spelling)
    requires Converging(w, sp)
    ensures Converging(Next(w, Connect, sp), sp)
  {
    hide Safe, Projects, RestoredRegistries, Replayed;
    StepIsSafe(w, Connect, sp);
    var n := Reach(w.history, w.client.cache.highest);
    assert w.history[..n] + w.history[|w.history|..|w.history|] == w.history[..n];
    assert w.client.link.Down? ==>
             Waiting(w.client.cache, w.history, |w.history|, |w.history|, w.client.cache.highest, sp);
  }

  lemma DisconnectFollowed(w: World, step: Step, sp: Spelling)
    requires Converging(w, sp) && (step == Disconnect || step == Crash || step == Restart) && !Loses(w, step)
    ensures Converging(Next(w, step, sp), sp)
  {
    hide Safe, Projects, RestoredRegistries, Follows, Waiting, Overtaken;
    StepIsSafe(w, step, sp);
    SafeHistory(w, sp);
    if step != Restart {
      UnovertakenFollows(w.client, w.history, w.store.watermark, sp);
    }
  }

  /** The host's answer brings the client to the end of the history. */
  lemma ServeFollowed(w: World, sp: Spelling)
    requires Converging(w, sp)
    ensures Converging(Next(w, ServeSync, sp), sp)
  {
    hide StoreSound, AcksHold, Running, LogHolds, Increasing, UpdatesBelow, Projects, RestoredRegistries, Answers,
         SyncFrom, Replayed;
    StepIsSafe(w, ServeSync, sp);
    if w.memory.Some? && w.client.link.Up? && w.client.link.sync.Awaited? {
      AnswerIsSound(w, w.client.link.fromRevision, sp);
    }
  }

  lemma AnswerIsSound(w: World, fromRevision: nat, sp: Spelling)
    requires HostConverging(w, sp) && w.memory.Some? && fromRevision <= w.store.watermark
    ensures Answers(SyncFrom(w.memory.value.log, fromRevision, Snapshotted(w.memory.value)), fromRevision, w.history,
                    |w.history|,
                    w.store.watermark, sp)
  {
    hide StoreSound, AcksHold, Running, Increasing, RestoredRegistries, Replayed;
    var memory := w.memory.value;
    assert w.history[..|w.history|] == w.history;
    if fromRevision < memory.log.compactedThrough {
      SnapshotAnswers(w, sp);
    } else {
      LogAnswers(memory.log, w.history, fromRevision);
    }
  }

  lemma LogAnswers(log: Log, history: seq<Update>, fromRevision: nat)
    requires LogHolds(log, history) && log.compactedThrough <= fromRevision
    ensures Since(log.updates, fromRevision) == Since(history, fromRevision)
  {
    var start :| 0 <= start <= |history| && log.updates == history[start..]
        && UpdatesBelow(history[..start], log.compactedThrough);
    assert history == history[..start] + history[start..];
    SinceConcat(history[..start], history[start..], fromRevision);
    NoneSince(history[..start], fromRevision);
  }

  lemma SnapshotAnswers(w: World, sp: Spelling)
    requires HostConverging(w, sp) && w.memory.Some?
    ensures Replayed(ApplySnapshot(Snapshotted(w.memory.value), sp), w.history, sp)
    ensures Reach(w.history, Snapshotted(w.memory.value).highestRevision) == |w.history|
    ensures Snapshotted(w.memory.value).highestRevision == w.store.watermark
  {
    hide StoreSound, AcksHold, GateInStep, LogHolds, Increasing, RestoredRegistries, Follows, ClientSound, Net, Mirrors,
         ApplySnapshot, Shown;
    var memory := w.memory.value;
    LiveSlotted(w, sp);
    forall key
      ensures Seen(ApplySnapshot(Snapshotted(memory), sp), key) == Net(ChangesOf(w.history), key, sp).On(None)
    {
      SnapshotShows(memory.regs, memory.counter, key, sp);
      assert Shown(RestoredRegistries(w.store, sp), key, sp) == Shown(memory.regs, key, sp);
    }
    SnapshotHighest(memory);
    if w.history != [] { assert w.history[|w.history| - 1] in w.history; }
    ReachIs(w.history, w.store.watermark, |w.history|);
  }

  /** The live state has slots and shows what the stored one shows. */
  lemma LiveSlotted(w: World, sp: Spelling)
    requires HostConverging(w, sp) && w.memory.Some?
    ensures Slotted(w.memory.value.regs, sp) && StateValid(w.memory.value.regs, sp)
    ensures forall key :: Shown(RestoredRegistries(w.store, sp), key, sp) == Shown(w.memory.value.regs, key, sp)
    ensures Projects(w.history, w.memory.value.regs, sp)
  {
    hide StoreSound, AcksHold, GateInStep, LogHolds, Increasing, RestoredRegistries, ClientSound, Shown, Mirrors,
         Slotted, StateBounded, UpdatesBelow;
    var memory := w.memory.value;
    InStepIntents(memory, w.store, sp);
    MirrorsShow(RestoredRegistries(w.store, sp), memory.regs, sp);
    ProjectsSame(w.history, RestoredRegistries(w.store, sp), memory.regs, sp);
  }

  // ----- Events and sweeps -----

  lemma CommittedFollowed(w: World, memory: Memory, store: Durable, updates: seq<Update>, acks: seq<Ack>, fate: Fate,
                          sp: Spelling)
    requires ClientSound(w.client, w.history, w.store.watermark, sp) && w.store.watermark <= store.watermark
    requires Increasing(w.history) && (Crashes(fate) ==> !Overtaken(w.client, w.history))
    requires Increasing(w.history + updates) && forall u :: u in updates ==> u.eventRevision > w.store.watermark
    ensures var after := Committed(w, memory, store, updates, acks, fate);
            ClientSound(after.client, after.history, store.watermark, sp)
  {
    hide Increasing, Follows, Waiting, Answers, Overtaken;
    ClientMore(w.client, w.history, updates, w.store.watermark, store.watermark, sp);
    if Crashes(fate) {
      UnovertakenFollows(w.client, w.history, w.store.watermark, sp);
      FollowsMore(w.client.cache, w.history, updates, w.store.watermark, sp);
    }
  }

  /** The host's part of every step. */
  lemma HostStepFollowed(w: World, step: Step, sp: Spelling)
    requires HostConverging(w, sp) && HostFollowable(w, step, sp)
    ensures HostConverging(Next(w, step, sp), sp)
  {
    hide Safe, Projects, RestoredRegistries, Slotted, Ingest, SweepExpiry, Announced, HasSlots, AgePassSafe,
         AfterHeartbeats;
    StepIsSafe(w, step, sp);
    match step
    case Submit(event, checks, now, fate) =>
      if w.memory.Some? { SubmittedProjects(w, event, checks, now, Commits(fate), sp); }
    case SweepStep(stale, cutoff, fate) =>
      if w.memory.Some? { SweepProjects(w, stale, cutoff, Commits(fate), sp); }
    case _ =>
  }

  /** Nothing was announced, and the stored state shows what it showed. */
  lemma SilentFollowed(w: World, store: Durable, live: Registries, sp: Spelling)
    requires HostConverging(w, sp) && w.memory.Some?
    requires RestoredRegistries(store, sp) == live.(tracked := {}) && w.memory.value.regs == live
    ensures Slotted(RestoredRegistries(store, sp), sp) && Projects(w.history + [], RestoredRegistries(store, sp), sp)
  {
    hide Safe, RestoredRegistries, ClientSound, Slotted, Shown, Net;
    LiveSlotted(w, sp);
    TrackedShows(live, {}, sp);
    ProjectsSame(w.history, live, live.(tracked := {}), sp);
    assert w.history + [] == w.history;
  }

  lemma SubmitFollowed(w: World, event: Event, checks: Checks, now: int, fate: Fate, sp: Spelling)
    requires Converging(w, sp) && w.memory.Some? && !Loses(w, Submit(event, checks, now, fate))
    ensures var after := Next(w, Submit(event, checks, now, fate), sp);
            ClientSound(after.client, after.history, after.store.watermark, sp)
  {
    hide Safe, Projects, RestoredRegistries, ClientSound, Increasing, Slotted, Extends, Ingest, Running, LogHolds,
         Overtaken;
    SafeHistory(w, sp);
    SafeRunning(w, sp);
    IngestCommits(w.memory.value, w.store, event, checks, Commits(fate), now, sp);
    var r := Ingest(w.memory.value, w.store, event, checks, Commits(fate), now, sp);
    WatermarkGrows(w.store, r.store);
    IncreasingAppend(w.history, Broadcasts(r.reply), w.store.watermark);
    CommittedFollowed(w, r.memory, r.store, Broadcasts(r.reply), Acks(event, r.reply), fate, sp);
  }

  lemma SafeRunning(w: World, sp: Spelling)
    requires Safe(w, sp) && w.memory.Some?
    ensures Running(w.memory.value, w.store, sp)
  {
    hide StoreSound, AcksHold, Running, LogHolds, Increasing, UpdatesBelow;
  }

  lemma SubmittedProjects(w: World, event: Event, checks: Checks, now: int, storageWorks: bool, sp: Spelling)
    requires HostConverging(w, sp) && w.memory.Some?
    requires Ingest(w.memory.value, w.store, event, checks, storageWorks, now, sp).reply.Accepted? ==>
               HasSlots(event) && Announced(w.memory.value.regs, event, sp)
    ensures var r := Ingest(w.memory.value, w.store, event, checks, storageWorks, now, sp);
            && Slotted(RestoredRegistries(r.store, sp), sp)
            && Projects(w.history + Broadcasts(r.reply), RestoredRegistries(r.store, sp), sp)
  {
    hide Safe, Projects, RestoredRegistries, ClientSound, Increasing, Slotted, Running, Announced, HasSlots,
         AcceptReplay, ApplyAndCommit;
    var memory := w.memory.value;
    var r := Ingest(memory, w.store, event, checks, storageWorks, now, sp);
    SafeRunning(w, sp);
    assert w.history + [] == w.history;
    var guard := AcceptReplay(memory.gate.guard, event.member.deviceId, event.counter, event.nonce);
    if checks.authentic && !memory.faulted && checks.wellFormed && checks.permitted
       && event.eventId !in memory.gate.applied && guard.Some? {
      AdmittedProjects(w, event, storageWorks, now, sp);
    }
  }

  lemma AdmittedProjects(w: World, event: Event, storageWorks: bool, now: int, sp: Spelling)
    requires HostConverging(w, sp) && w.memory.Some? && !w.memory.value.faulted
             && event.eventId !in w.memory.value.gate.applied
    requires AcceptReplay(w.memory.value.gate.guard, event.member.deviceId, event.counter, event.nonce).Some?
    requires var memory := w.memory.value;
             var guard := AcceptReplay(memory.gate.guard, event.member.deviceId, event.counter, event.nonce).value;
             ApplyAndCommit(memory, Admitted(memory, guard), w.store, event, storageWorks, now, sp).reply.Accepted? ==>
               HasSlots(event) && Announced(memory.regs, event, sp)
    ensures var memory := w.memory.value;
            var guard := AcceptReplay(memory.gate.guard, event.member.deviceId, event.counter, event.nonce).value;
            var r := ApplyAndCommit(memory, Admitted(memory, guard), w.store, event, storageWorks, now, sp);
            && Slotted(RestoredRegistries(r.store, sp), sp)
            && Projects(w.history + Broadcasts(r.reply), RestoredRegistries(r.store, sp), sp)
  {
    hide Safe, Projects, RestoredRegistries, ClientSound, Increasing, Slotted, Running, Announced, HasSlots,
         AcceptReplay, Apply,
         CommitMutation, Serialize, Restore;
    var memory := w.memory.value;
    var guard := AcceptReplay(memory.gate.guard, event.member.deviceId, event.counter, event.nonce).value;
    var r := ApplyAndCommit(memory, Admitted(memory, guard), w.store, event, storageWorks, now, sp);
    SafeRunning(w, sp);
    AdmittedKeeps(memory, w.store, event, storageWorks, now, sp);
    assert w.history + [] == w.history;
    match r.reply {
      case Accepted(_, _, _) =>
        AppliedProjects(w, event, now, sp);
      case RuleRejection(_, _) =>
        SilentFollowed(w, r.store, memory.regs, sp);
      case _ =>
    }
  }

  lemma RunningIncoming(memory: Memory, store: Durable, event: Event, sp: Spelling)
    requires Running(memory, store, sp) && !memory.faulted && event.eventId !in memory.gate.applied
    ensures Incoming(memory.regs, event, memory.counter + 1, AppliedIds(store), sp)
  {
    hide StoreSound, Mirrors, Sound, GuardCovers, RestoredRegistries, AppliedIndex;
  }

  lemma AppliedProjects(w: World, event: Event, now: int, sp: Spelling)
    requires HostConverging(w, sp) && w.memory.Some? && !w.memory.value.faulted
             && event.eventId !in w.memory.value.gate.applied
    requires HasSlots(event) && Announced(w.memory.value.regs, event, sp)
    requires Apply(w.memory.value.regs, event, w.memory.value.counter + 1, now, sp).Applied?
    ensures var r := Apply(w.memory.value.regs, event, w.memory.value.counter + 1, now, sp);
            && Slotted(r.regs.(tracked := {}), sp)
            && Projects(w.history + Stamp(r.changes, w.memory.value.counter + 1), r.regs.(tracked := {}), sp)
  {
    hide Safe, Projects, RestoredRegistries, ClientSound, Increasing, Slotted, Running, Announced, HasSlots, Apply,
         Carries, Shown, Incoming;
    var memory := w.memory.value;
    var revision := memory.counter + 1;
    var r := Apply(memory.regs, event, revision, now, sp);
    SafeRunning(w, sp);
    RunningIncoming(memory, w.store, event, sp);
    LiveSlotted(w, sp);
    ApplyCarriesIff(memory.regs, event, revision, now, sp, AppliedIds(w.store));
    ApplyKeepsSlots(memory.regs, event, revision, now, sp, AppliedIds(w.store));
    ProjectsMore(w.history, r.changes, revision, memory.regs, r.regs, sp);
    TrackedShows(r.regs, {}, sp);
    ProjectsSame(w.history + Stamp(r.changes, revision), r.regs, r.regs.(tracked := {}), sp);
  }

  lemma SweepProjects(w: World, stale: seq<string>, cutoff: int, storageWorks: bool, sp: Spelling)
    requires HostConverging(w, sp) && w.memory.Some?
    requires !w.memory.value.faulted ==>
               AgePassSafe(AfterHeartbeats(w.memory.value.regs, stale, w.memory.value.counter + 1, sp).locks, cutoff,
                           sp)
    ensures var r := SweepExpiry(w.memory.value, w.store, stale, cutoff, storageWorks, sp);
            && Slotted(RestoredRegistries(r.store, sp), sp)
               && Projects(w.history + r.removals, RestoredRegistries(r.store, sp), sp)
  {
    hide Safe, Projects, RestoredRegistries, ClientSound, Increasing, Slotted, Running, Carries, Shown, AgePassSafe,
         Sweep, CommitExpiry,
         Serialize, Restore, Mirrors, AfterHeartbeats, Ready;
    var memory := w.memory.value;
    var r := SweepExpiry(memory, w.store, stale, cutoff, storageWorks, sp);
    SafeRunning(w, sp);
    SweepExpiryKeeps(memory, w.store, stale, cutoff, storageWorks, sp);
    assert w.history + [] == w.history;
    if r.removals != [] {
      var swept := Sweep(memory.regs, stale, cutoff, memory.counter + 1, sp);
      LiveSlotted(w, sp);
      assert Ready(memory.regs, memory.counter + 1, AppliedIds(w.store), sp) by { RunningReady(memory, w.store, sp); }
      SweepCarriesIff(memory.regs, stale, cutoff, memory.counter + 1, AppliedIds(w.store), sp);
      SweepKeepsSlots(memory.regs, stale, cutoff, memory.counter + 1, AppliedIds(w.store), sp);
      ProjectsMore(w.history, swept.changes, memory.counter + 1, memory.regs, swept.regs, sp);
      TrackedShows(swept.regs, {}, sp);
      ProjectsSame(w.history + r.removals, swept.regs, swept.regs.(tracked := {}), sp);
    }
  }

  lemma RunningReady(memory: Memory, store: Durable, sp: Spelling)
    requires Running(memory, store, sp) && Slotted(memory.regs, sp)
    ensures Ready(memory.regs, memory.counter + 1, AppliedIds(store), sp)
  {
    hide StoreSound, Mirrors, Sound, GuardCovers, RestoredRegistries, AppliedIndex, Slotted;
  }

  lemma SweepFollowed(w: World, stale: seq<string>, cutoff: int, fate: Fate, sp: Spelling)
    requires Converging(w, sp) && w.memory.Some? && !Loses(w, SweepStep(stale, cutoff, fate))
    ensures var after := Next(w, SweepStep(stale, cutoff, fate), sp);
            ClientSound(after.client, after.history, after.store.watermark, sp)
  {
    hide Safe, Projects, RestoredRegistries, ClientSound, Increasing, Slotted, Extends, SweepExpiry, Running, LogHolds,
         Overtaken;
    SafeHistory(w, sp);
    SafeRunning(w, sp);
    SweepCommits(w.memory.value, w.store, stale, cutoff, Commits(fate), sp);
    var r := SweepExpiry(w.memory.value, w.store, stale, cutoff, Commits(fate), sp);
    WatermarkGrows(w.store, r.store);
    IncreasingAppend(w.history, r.removals, w.store.watermark);
    CommittedFollowed(w, r.memory, r.store, r.removals, [], fate, sp);
  }

  /** A step that the caches can follow keeps the client on the host's history. */
  lemma StepFollowed(w: World, step: Step, sp: Spelling)
    requires Converging(w, sp) && Followable(w, step, sp)
    ensures Converging(Next(w, step, sp), sp)
  {
    hide HostConverging, HostFollowable, ClientSound, Loses, Next;
    HostStepFollowed(w, step, sp);
    match step
    case Submit(event, checks, now, fate) =>
      if w.memory.Some? { SubmitFollowed(w, event, checks, now, fate, sp); } else { NothingHappens(w, step, sp); }
    case SweepStep(stale, cutoff, fate) =>
      if w.memory.Some? { SweepFollowed(w, stale, cutoff, fate, sp); } else { NothingHappens(w, step, sp); }
    case Deliver => DeliverFollowed(w, sp);
    case Connect => ConnectFollowed(w, sp);
    case ServeSync => ServeFollowed(w, sp);
    case _ => DisconnectFollowed(w, step, sp);
  }

  lemma NothingHappens(w: World, step: Step, sp: Spelling)
    requires w.memory.None? && (step.Submit? || step.SweepStep?)
    ensures Next(w, step, sp) == w
  {
  }

  lemma StartConverges(sp: Spelling)
    requires sp.Lawful()
    ensures Converging(START, sp)
  {
    StartIsSafe(sp);
    assert RestoredRegistries(FRESH_STORE, sp) == NO_STATE;
  }

  /** The caches can follow what every step of a run announces when it is taken. */
  ghost predicate AllHostFollowable(steps: seq<Step>, sp: Spelling) {
    steps == []
    || (AllHostFollowable(steps[..|steps| - 1], sp)
        && HostFollowable(Run(START, steps[..|steps| - 1], sp), steps[|steps| - 1], sp))
  }

  /** Every step of a run can be followed when it is taken. */
  ghost predicate AllFollowable(steps: seq<Step>, sp: Spelling) {
    steps == []
    || (AllFollowable(steps[..|steps| - 1], sp)
        && Followable(Run(START, steps[..|steps| - 1], sp), steps[|steps| - 1], sp))
  }

  lemma {:induction false} HostRunConverges(steps: seq<Step>, sp: Spelling)
    requires sp.Lawful() && AllHostFollowable(steps, sp)
    ensures HostConverging(Run(START, steps, sp), sp)
  {
    if steps == [] {
      StartConverges(sp);
    } else {
      hide HostConverging, HostFollowable, Next;
      HostRunConverges(steps[..|steps| - 1], sp);
      HostStepFollowed(Run(START, steps[..|steps| - 1], sp), steps[|steps| - 1], sp);
    }
  }

  lemma {:induction false} RunConverges(steps: seq<Step>, sp: Spelling)
    requires sp.Lawful() && AllFollowable(steps, sp)
    ensures Converging(Run(START, steps, sp), sp)
  {
    hide Converging, Followable, Next;
    if steps == [] {
      StartConverges(sp);
    } else {
      RunConverges(steps[..|steps| - 1], sp);
      StepFollowed(Run(START, steps[..|steps| - 1], sp), steps[|steps| - 1], sp);
    }
  }

  // ----- The guarantees -----

  /** Replaying every committed update on an empty client gives the projection of the
      host's state, over every run whose events the caches can follow. */
  lemma ReplayGivesTheProjection(steps: seq<Step>, key: EntryKey, sp: Spelling)
    requires sp.Lawful() && AllHostFollowable(steps, sp) && Run(START, steps, sp).memory.Some?
    ensures var w := Run(START, steps, sp);
            Net(ChangesOf(w.history), key, sp).On(None) == Shown(w.memory.value.regs, key, sp)
  {
    hide Next, Shown, Net, Safe;
    HostRunConverges(steps, sp);
    LiveSlotted(Run(START, steps, sp), sp);
  }

  /** A client that is synced and has received every broadcast shows exactly the
      projection of the host's state, whatever it missed, through crashes, restarts and
      reconnections. */
  lemma SyncedClientConverges(steps: seq<Step>, key: EntryKey, sp: Spelling)
    requires sp.Lawful() && AllFollowable(steps, sp)
    requires var w := Run(START, steps, sp);
             w.memory.Some? && w.client.link.Up? && w.client.link.sync.Received? && w.client.link.next == |w.history|
    ensures var w := Run(START, steps, sp);
            Seen(w.client.cache, key) == Shown(w.memory.value.regs, key, sp)
  {
    hide Next, Shown, Net, Safe, Answers;
    RunConverges(steps, sp);
    var w := Run(START, steps, sp);
    LiveSlotted(w, sp);
    SafeHistory(w, sp);
    if w.history != [] { ReachIs(w.history, w.client.cache.highest, |w.history|); }
    assert w.history[..Reach(w.history, w.client.cache.highest)] == w.history;
  }

  // ----- Where the conditions fail -----

  /** Up to an accepted event the caches could follow everything. Then they follow it, too, if
      and only if it meets the condition: otherwise replaying the whole history shows some slot
      differently from the host. */
  lemma EventFollowedIff(steps: seq<Step>, event: Event, checks: Checks, now: int, sp: Spelling)
    requires sp.Lawful() && AllHostFollowable(steps, sp) && Run(START, steps, sp).memory.Some? && HasSlots(event)
    requires var w := Run(START, steps, sp);
             Ingest(w.memory.value, w.store, event, checks, true, now, sp).reply.Accepted?
    ensures var w := Run(START, steps, sp); var after := Next(w, Submit(event, checks, now, Works), sp);
            && after.memory.Some?
            && (Projects(after.history, after.memory.value.regs, sp) <==> Announced(w.memory.value.regs, event, sp))
  {
    hide Safe, Projects, RestoredRegistries, Increasing, Slotted, Running, Announced, HasSlots, Apply, Carries, Shown,
         Incoming,
         AcceptReplay, Serialize, Restore, CommitMutation, AllHostFollowable;
    HostRunConverges(steps, sp);
    var w := Run(START, steps, sp);
    var memory := w.memory.value;
    var revision := memory.counter + 1;
    var applied := Apply(memory.regs, event, revision, now, sp);
    SafeRunning(w, sp);
    RunningIncoming(memory, w.store, event, sp);
    LiveSlotted(w, sp);
    ApplyCarriesIff(memory.regs, event, revision, now, sp, AppliedIds(w.store));
    ProjectsIff(w.history, applied.changes, revision, memory.regs, applied.regs, sp);
  }

  /** The same for an expiry sweep. */
  lemma SweepFollowedIff(steps: seq<Step>, stale: seq<string>, cutoff: int, sp: Spelling)
    requires sp.Lawful() && AllHostFollowable(steps, sp)
    requires Run(START, steps, sp).memory.Some? && !Run(START, steps, sp).memory.value.faulted
    ensures var w := Run(START, steps, sp); var after := Next(w, SweepStep(stale, cutoff, Works), sp);
            && after.memory.Some?
            && (Projects(after.history, after.memory.value.regs, sp) <==>
                AgePassSafe(AfterHeartbeats(w.memory.value.regs, stale, w.memory.value.counter + 1, sp).locks, cutoff,
                            sp))
  {
    hide Safe, Projects, RestoredRegistries, Increasing, Slotted, Running, Sweep, Carries, Shown, Ready, AgePassSafe,
         AfterHeartbeats,
         AllHostFollowable, Next;
    HostRunConverges(steps, sp);
    var w := Run(START, steps, sp);
    var memory := w.memory.value;
    var swept := Sweep(memory.regs, stale, cutoff, memory.counter + 1, sp);
    SafeRunning(w, sp);
    LiveSlotted(w, sp);
    RunningReady(memory, w.store, sp);
    SweepHappens(w, stale, cutoff, sp);
    SweepCarriesIff(memory.regs, stale, cutoff, memory.counter + 1, AppliedIds(w.store), sp);
    ProjectsIff(w.history, swept.changes, memory.counter + 1, memory.regs, swept.regs, sp);
  }

  /** A sweep that does not fail leaves the swept state and broadcasts its changes. */
  lemma SweepHappens(w: World, stale: seq<string>, cutoff: int, sp: Spelling)
    requires w.memory.Some? && !w.memory.value.faulted
    ensures var after := Next(w, SweepStep(stale, cutoff, Works), sp);
            var swept := Sweep(w.memory.value.regs, stale, cutoff, w.memory.value.counter + 1, sp);
            && after.memory.Some? && !after.memory.value.faulted && after.memory.value.regs == swept.regs
            && after.history == w.history + Stamp(swept.changes, w.memory.value.counter + 1)
  {
    hide Sweep, Serialize, CommitExpiry;
  }

  lemma ProjectsIff(history: seq<Update>, changes: seq<Change>, first: nat, before: Registries, after: Registries,
                    sp: Spelling)
    requires Projects(history, before, sp)
    ensures Projects(history + Stamp(changes, first), after, sp) <==> Carries(changes, before, after, sp)
  {
    hide Net, Shown;
    var updates := Stamp(changes, first);
    ChangesOfStamp(changes, first);
    forall key
      ensures Net(ChangesOf(history + updates), key, sp).On(None) == Net(changes, key, sp).On(Shown(before, key, sp))
    {
      NetFollowed(history, updates, key, sp, None);
      assert Net(ChangesOf(history), key, sp).On(None) == Shown(before, key, sp);
    }
  }

  /** In any followable run: an overtaken client shows a slot right exactly if the broadcasts that
      overtook settle it, or the updates that it misses left it alone. Here `gap` is what it
      misses and `live` what overtook. */
  lemma OvertakenShows(steps: seq<Step>, key: EntryKey, sp: Spelling)
    requires sp.Lawful() && AllFollowable(steps, sp)
    requires var w := Run(START, steps, sp); Overtaken(w.client, w.history) && w.client.link.next <= |w.history|
    ensures var w := Run(START, steps, sp); var link := w.client.link;
            var asked := Reach(w.history, link.fromRevision);
            var done, gap, live := w.history[..asked], w.history[asked..link.joined], w.history[link.joined..link.next];
            var had := Net(ChangesOf(done), key, sp).On(None);
            Seen(w.client.cache, key) == Net(ChangesOf(w.history[..link.next]), key, sp).On(None) <==>
            !Net(ChangesOf(live), key, sp).Untouched? || Net(ChangesOf(gap), key, sp).On(had) == had
  {
    hide HostConverging, AllFollowable, Answers, Reach, Net, Waiting, Next, Replayed;
    RunConverges(steps, sp);
    var w := Run(START, steps, sp);
    OvertakenSlot(w.client, w.history, key, sp);
  }

  lemma OvertakenSlot(client: Client, history: seq<Update>, key: EntryKey, sp: Spelling)
    requires Overtaken(client, history)
    requires Waiting(client.cache, history, client.link.next, client.link.joined, client.link.fromRevision, sp)
    ensures var link := client.link; var asked := Reach(history, link.fromRevision);
            var done, gap, live := history[..asked], history[asked..link.joined], history[link.joined..link.next];
            var had := Net(ChangesOf(done), key, sp).On(None);
            Seen(client.cache, key) == Net(ChangesOf(history[..link.next]), key, sp).On(None) <==>
            !Net(ChangesOf(live), key, sp).Untouched? || Net(ChangesOf(gap), key, sp).On(had) == had
  {
    hide Reach, Net;
    var link := client.link;
    var asked := Reach(history, link.fromRevision);
    var done, gap, live := history[..asked], history[asked..link.joined], history[link.joined..link.next];
    NetFollowed(done, live, key, sp, None);
    NetFollowed(done + gap, live, key, sp, None);
    NetFollowed(done, gap, key, sp, None);
    assert history[..link.next] == (done + gap) + live;
  }

  /** What is lost then stays lost: the answer, made of updates, changes nothing, and the cursor
      has already passed what is missing. */
  lemma OvertakenSync(steps: seq<Step>, sp: Spelling)
    requires sp.Lawful() && AllFollowable(steps, sp)
    requires var w := Run(START, steps, sp); Overtaken(w.client, w.history) && Loses(w, Deliver)
    ensures var w := Run(START, steps, sp); var after := Next(w, Deliver, sp).client;
            && after.cache == w.client.cache && after.link.Up? && after.link.sync.Received?
            && forall i :: 0 <= i < w.client.link.next <= |w.history| ==>
                 w.history[i].eventRevision <= after.cache.highest
  {
    hide HostConverging, AllFollowable, Reach, Replayed, Increasing, Waiting, ApplySync, Next;
    RunConverges(steps, sp);
    var w := Run(START, steps, sp);
    ConvergingHistory(w, sp);
    OvertakenAnswer(w.client, w.history, w.store.watermark, sp);
    DeliverDelivers(w, sp);
  }

  /** So with nothing left to deliver the client is synced, and shows a slot as the host does exactly
      if what overtook settles it, or what it missed left it alone. */
  lemma OvertakenAnswered(steps: seq<Step>, key: EntryKey, sp: Spelling)
    requires sp.Lawful() && AllFollowable(steps, sp) && Run(START, steps, sp).memory.Some?
    requires var w := Run(START, steps, sp);
             Overtaken(w.client, w.history) && Loses(w, Deliver) && w.client.link.next == |w.history|
    ensures var w := Run(START, steps, sp); var after := Next(w, Deliver, sp).client; var link := w.client.link;
            var asked := Reach(w.history, link.fromRevision);
            var done, gap, live := w.history[..asked], w.history[asked..link.joined], w.history[link.joined..];
            var had := Net(ChangesOf(done), key, sp).On(None);
            && after.link.Up? && after.link.sync.Received?
            && (Seen(after.cache, key) == Shown(w.memory.value.regs, key, sp) <==>
                !Net(ChangesOf(live), key, sp).Untouched? || Net(ChangesOf(gap), key, sp).On(had) == had)
  {
    hide HostConverging, AllFollowable, Reach, Net, Shown, Loses, Next;
    var w := Run(START, steps, sp);
    OvertakenShows(steps, key, sp);
    OvertakenSync(steps, sp);
    RunConverges(steps, sp);
    LiveSlotted(w, sp);
    assert w.history[..|w.history|] == w.history;
    assert w.history[w.client.link.joined..|w.history|] == w.history[w.client.link.joined..];
  }

  lemma DeliverDelivers(w: World, sp: Spelling)
    ensures Next(w, Deliver, sp).client == Delivered(w.client, w.history, sp)
  {
  }

  lemma OvertakenAnswer(client: Client, history: seq<Update>, watermark: nat, sp: Spelling)
    requires Increasing(history) && ClientSound(client, history, watermark, sp) && Overtaken(client, history)
    requires client.link.sync.Served? && client.link.next == client.link.sync.position
             && client.link.sync.response.SyncEvents?
    ensures var after := Delivered(client, history, sp);
            && after.cache == client.cache && after.link.Up? && after.link.sync.Received?
            && forall i :: 0 <= i < client.link.next <= |history| ==> history[i].eventRevision <= after.cache.highest
  {
    hide Reach, Replayed, Increasing, ApplyEvents, Since;
    var link := client.link;
    StaleAnswer(client.cache, history, link.next, link.fromRevision, sp);
  }

  lemma StaleAnswer(cache: Entries, history: seq<Update>, position: nat, fromRevision: nat, sp: Spelling)
    requires Increasing(history) && CaughtUp(cache, history, position) && Reach(history, fromRevision) <= position
    ensures ApplyEvents(cache, Since(history[..position], fromRevision), sp) == cache
    ensures forall i :: 0 <= i < position ==> history[i].eventRevision <= cache.highest
  {
    hide Reach, Increasing, Since, ApplyAll, SortByRevision;
    PrefixSince(history, position, fromRevision);
    StaleUpdates(cache, history, Reach(history, fromRevision), position, sp);
    IncreasingFront(history, fromRevision, position);
    SortedAlready(Since(history[..position], fromRevision));
    forall i | 0 <= i < position ensures history[i].eventRevision <= cache.highest {
      if i < position - 1 { Later(history, i, position - 1); }
    }
  }

  lemma ConvergingHistory(w: World, sp: Spelling)
    requires HostConverging(w, sp)
    ensures Increasing(w.history)
  {
    SafeHistory(w, sp);
  }
}
