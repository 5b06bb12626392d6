/** The agent's cache of coordination entries (packages/core-state/src/sync.ts) and
    the net effect that a series of changes has on one of its slots. */
module Cache {
  import opened Protocol
  import opened Paths

  datatype EntryKey = EntryKey(entryType: EntryType, path: string, memberId: string, deviceId: string, intentId: string)

  function KeyOf(change: Change, sp: Spelling): EntryKey {
    EntryKey(change.entryType, sp.normalize(change.path), change.member.memberId, change.member.deviceId,
             if IsIntentEntry(change.entryType) && change.intent.Some? then change.intent.value.intentId else "")
  }

  datatype Entries = Entries(slots: map<EntryKey, Update>, highest: nat)

  const NOTHING := Entries(map[], 0)

  /** Which slots a change writes. A removal of a named intent entry also clears
      the unnamed slot of older hosts; an unnamed one clears every matching slot. */
  predicate Touches(change: Change, key: EntryKey, sp: Spelling) {
    var own := KeyOf(change, sp);
    || key == own
    || (change.op.Removed? && IsIntentEntry(change.entryType) && key.(intentId := "") == own.(intentId := "")
        && (change.intent.None? || key.intentId == ""))
  }

  function Without(slots: map<EntryKey, Update>, change: Change, sp: Spelling): map<EntryKey, Update> {
    map key | key in slots && !Touches(change, key, sp) :: slots[key]
  }

  /** Ignores what was applied before, otherwise installs or removes the entry. */
  function ApplyUpdate(cache: Entries, update: Update, sp: Spelling): Entries {
    if update.eventRevision <= cache.highest then cache
    else
      Entries(
        if update.change.op.Removed? then Without(cache.slots, update.change, sp)
        else cache.slots[KeyOf(update.change, sp) := update],
        update.eventRevision)
  }

  function ApplyAll(cache: Entries, updates: seq<Update>, sp: Spelling): Entries
    decreases |updates|
  {
    if updates == [] then cache else ApplyAll(ApplyUpdate(cache, updates[0], sp), updates[1..], sp)
  }

  function InsertByRevision(update: Update, sorted: seq<Update>): seq<Update> {
    if sorted == [] || update.eventRevision <= sorted[0].eventRevision then [update] + sorted
    else [sorted[0]] + InsertByRevision(update, sorted[1..])
  }

  function SortByRevision(updates: seq<Update>): seq<Update> {
    if updates == [] then [] else InsertByRevision(updates[0], SortByRevision(updates[1..]))
  }

  /** The agent sorts what it receives before applying it. */
  function ApplyEvents(cache: Entries, updates: seq<Update>, sp: Spelling): Entries {
    ApplyAll(cache, SortByRevision(updates), sp)
  }

  ghost predicate Increasing(updates: seq<Update>) {
    forall i, j :: 0 <= i < j < |updates| ==> updates[i].eventRevision < updates[j].eventRevision
  }

  lemma {:induction false} SortedAlready(updates: seq<Update>)
    requires Increasing(updates)
    ensures SortByRevision(updates) == updates
  {
    if updates != [] {
      var rest := updates[1..];
      assert forall i :: 0 <= i < |rest| ==> rest[i] == updates[i + 1];
      SortedAlready(rest);
    }
  }

  /** In the order of the revisions, some of which may be equal. */
  ghost predicate NotFalling(updates: seq<Update>) {
    updates != [] ==> (forall u :: u in updates[1..] ==> updates[0].eventRevision <= u.eventRevision)
                      && NotFalling(updates[1..])
  }

  lemma FirstApart(updates: seq<Update>)
    requires updates != []
    ensures multiset(updates) == multiset{updates[0]} + multiset(updates[1..])
    ensures multiset(updates[1..]) == multiset(updates) - multiset{updates[0]}
  {
    assert updates == [updates[0]] + updates[1..];
  }

  lemma {:induction false} InsertKeeps(update: Update, sorted: seq<Update>)
    ensures multiset(InsertByRevision(update, sorted)) == multiset{update} + multiset(sorted)
  {
    FirstApart(InsertByRevision(update, sorted));
    if sorted != [] && update.eventRevision > sorted[0].eventRevision {
      FirstApart(sorted);
      InsertKeeps(update, sorted[1..]);
    }
  }

  lemma {:induction false} InsertMembers(update: Update, sorted: seq<Update>)
    ensures forall u :: u in InsertByRevision(update, sorted) ==> u == update || u in sorted
  {
    if sorted != [] && update.eventRevision > sorted[0].eventRevision {
      InsertMembers(update, sorted[1..]);
    }
  }

  lemma {:induction false} InsertSorts(update: Update, sorted: seq<Update>)
    requires NotFalling(sorted)
    ensures NotFalling(InsertByRevision(update, sorted))
  {
    var r := InsertByRevision(update, sorted);
    if sorted == [] || update.eventRevision <= sorted[0].eventRevision {
      assert r[1..] == sorted;
      assert forall u :: u in sorted ==> u == sorted[0] || u in sorted[1..];
    } else {
      assert r[1..] == InsertByRevision(update, sorted[1..]);
      InsertSorts(update, sorted[1..]);
      InsertMembers(update, sorted[1..]);
    }
  }

  lemma {:induction false} SortSorts(updates: seq<Update>)
    ensures NotFalling(SortByRevision(updates)) && multiset(SortByRevision(updates)) == multiset(updates)
  {
    if updates != [] {
      hide InsertByRevision, NotFalling;
      SortSorts(updates[1..]);
      InsertSorts(updates[0], SortByRevision(updates[1..]));
      InsertKeeps(updates[0], SortByRevision(updates[1..]));
      FirstApart(updates);
    } else {
      assert NotFalling([]);
    }
  }

  lemma SameMembers(a: seq<Update>, b: seq<Update>)
    requires multiset(a) == multiset(b)
    ensures |a| == |b| && forall u :: u in a <==> u in b
  {
    assert |multiset(a)| == |a| && |multiset(b)| == |b|;
    assert forall u :: u in multiset(a) <==> u in a;
    assert forall u :: u in multiset(b) <==> u in b;
  }

  lemma HeadsAgree(a: seq<Update>, b: seq<Update>)
    requires a != [] && b != [] && a[0] in b && b[0] in a
    requires Increasing(a) && NotFalling(b)
    ensures a[0] == b[0]
  {
    assert b == [b[0]] + b[1..];
    var j :| 0 <= j < |a| && a[j] == b[0];
  }

  lemma {:induction false} OneOrder(a: seq<Update>, b: seq<Update>)
    requires Increasing(a) && NotFalling(b) && multiset(a) == multiset(b)
    ensures a == b
    decreases |a|
  {
    SameMembers(a, b);
    if a != [] {
      hide Increasing;
      HeadsAgree(a, b);
      FirstApart(a);
      FirstApart(b);
      IncreasingRest(a);
      OneOrder(a[1..], b[1..]);
      assert a == [a[0]] + a[1..] && b == [b[0]] + b[1..];
    }
  }

  lemma IncreasingRest(updates: seq<Update>)
    requires updates != [] && Increasing(updates)
    ensures Increasing(updates[1..])
  {
    assert forall i :: 0 <= i < |updates[1..]| ==> updates[1..][i] == updates[i + 1];
  }

  /** In whatever order a batch arrives, its updates are applied in the order of their revisions. */
  lemma ArrivalOrderDoesNotCount(cache: Entries, ordered: seq<Update>, arrived: seq<Update>, sp: Spelling)
    requires Increasing(ordered) && multiset(arrived) == multiset(ordered)
    ensures ApplyEvents(cache, arrived, sp) == ApplyAll(cache, ordered, sp)
  {
    SortSorts(arrived);
    OneOrder(ordered, SortByRevision(arrived));
  }

  /** A slot of the change's kind, path, member and device. */
  predicate Beside(change: Change, key: EntryKey, sp: Spelling) {
    && key.entryType == change.entryType && key.path == sp.normalize(change.path)
    && key.memberId == change.member.memberId && key.deviceId == change.member.deviceId
  }

  /** A newer addition fills the slot of the intent it names, or the unnamed one, and no other. */
  lemma AdditionFills(cache: Entries, update: Update, key: EntryKey, sp: Spelling)
    requires update.eventRevision > cache.highest && update.change.op == Added
    ensures var after := ApplyUpdate(cache, update, sp); var change := update.change;
            var named := change.entryType in {IntentEntry, CreationEntry} && change.intent.Some?;
            && after.highest == update.eventRevision
            && if Beside(change, key, sp) && key.intentId == (if named then change.intent.value.intentId else "")
               then key in after.slots && after.slots[key] == update
               else SlotStays(cache, after, key)
  {
  }

  /** A newer removal empties the slot that an addition would fill; of an intent, also the unnamed
      slot, and if it names no intent, every slot beside it. */
  lemma RemovalEmpties(cache: Entries, update: Update, key: EntryKey, sp: Spelling)
    requires update.eventRevision > cache.highest && update.change.op == Removed
    ensures var after := ApplyUpdate(cache, update, sp); var change := update.change;
            var ofIntent := change.entryType in {IntentEntry, CreationEntry};
            && after.highest == update.eventRevision
            && if Beside(change, key, sp)
                  && (key.intentId == "" || (ofIntent && change.intent.None?)
                      || (ofIntent && key.intentId == change.intent.value.intentId))
               then key !in after.slots
               else SlotStays(cache, after, key)
  {
  }

  predicate SlotStays(before: Entries, after: Entries, key: EntryKey) {
    if key in before.slots then key in after.slots && after.slots[key] == before.slots[key] else key !in after.slots
  }

  // ----- Net effect -----

  /** What a slot shows: the task description of its entry, if it has one. */
  function Described(update: Update): string {
    if update.change.intent.Some? then update.change.intent.value.description else ""
  }

  function Seen(cache: Entries, key: EntryKey): Option<string> {
    if key in cache.slots then Some(Described(cache.slots[key])) else None
  }

  datatype Effect = Untouched | Gone | Put(description: string) {
    /** This effect followed by a later one. */
    function Then(later: Effect): Effect {
      if later.Untouched? then this else later
    }

    function On(seen: Option<string>): Option<string> {
      match this
      case Untouched => seen
      case Gone => None
      case Put(description) => Some(description)
    }
  }

  function EffectOf(change: Change, key: EntryKey, sp: Spelling): Effect {
    if !Touches(change, key, sp) then Untouched
    else if change.op.Removed? then Gone
    else Put(if change.intent.Some? then change.intent.value.description else "")
  }

  function Net(changes: seq<Change>, key: EntryKey, sp: Spelling): Effect {
    if changes == [] then Untouched
    else EffectOf(changes[0], key, sp).Then(Net(changes[1..], key, sp))
  }

  lemma {:induction false} NetConcat(a: seq<Change>, b: seq<Change>, key: EntryKey, sp: Spelling)
    ensures Net(a + b, key, sp) == Net(a, key, sp).Then(Net(b, key, sp))
  {
    if a == [] {
      assert a + b == b;
    } else {
      assert (a + b)[1..] == a[1..] + b;
      NetConcat(a[1..], b, key, sp);
    }
  }

  lemma {:induction false} NetUntouched(changes: seq<Change>, key: EntryKey, sp: Spelling)
    requires forall c :: c in changes ==> !Touches(c, key, sp)
    ensures Net(changes, key, sp) == Untouched
  {
    if changes != [] {
      NetUntouched(changes[1..], key, sp);
    }
  }

  /** Consecutive revisions, the first one being the event's own. */
  function Stamp(changes: seq<Change>, first: nat): (updates: seq<Update>)
    ensures |updates| == |changes|
    ensures forall i :: 0 <= i < |updates| ==> updates[i] == Update(changes[i], first + i)
  {
    seq(|changes|, i requires 0 <= i < |changes| => Update(changes[i], first + i))
  }

  function ChangesOf(updates: seq<Update>): (changes: seq<Change>)
    ensures |changes| == |updates|
    ensures forall i :: 0 <= i < |updates| ==> changes[i] == updates[i].change
  {
    seq(|updates|, i requires 0 <= i < |updates| => updates[i].change)
  }

  lemma ChangesOfStamp(changes: seq<Change>, first: nat)
    ensures ChangesOf(Stamp(changes, first)) == changes
    ensures Increasing(Stamp(changes, first))
  {
  }

  /** Applying newer updates in order: every slot takes the net effect, and the
      cursor moves to the last revision. */
  lemma {:induction false} ApplyAllNet(cache: Entries, updates: seq<Update>, key: EntryKey, sp: Spelling)
    requires Increasing(updates)
    requires forall u :: u in updates ==> u.eventRevision > cache.highest
    ensures Seen(ApplyAll(cache, updates, sp), key) == Net(ChangesOf(updates), key, sp).On(Seen(cache, key))
    ensures ApplyAll(cache, updates, sp).highest == if updates == [] then cache.highest
            else updates[|updates| - 1].eventRevision
    decreases |updates|
  {
    if updates != [] {
      var rest := updates[1..];
      assert updates[0] in updates;
      assert forall i :: 0 <= i < |rest| ==> rest[i] == updates[i + 1];
      assert ChangesOf(updates)[1..] == ChangesOf(rest);
      var next := ApplyUpdate(cache, updates[0], sp);
      forall u | u in rest ensures u.eventRevision > next.highest {
        var i :| 0 <= i < |rest| && rest[i] == u;
        assert updates[0].eventRevision < updates[i + 1].eventRevision;
      }
      ApplyAllNet(next, rest, key, sp);
      assert Seen(next, key) == EffectOf(updates[0].change, key, sp).On(Seen(cache, key));
    }
  }

  /** Updates that are not newer than the cursor are ignored. */
  lemma {:induction false} ApplyAllStale(cache: Entries, updates: seq<Update>, sp: Spelling)
    requires forall u :: u in updates ==> u.eventRevision <= cache.highest
    ensures ApplyAll(cache, updates, sp) == cache
    decreases |updates|
  {
    if updates != [] {
      assert updates[0] in updates;
      ApplyAllStale(cache, updates[1..], sp);
    }
  }
}
