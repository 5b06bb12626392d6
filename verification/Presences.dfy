/** Presence of members on paths (packages/core-state/src/presence.ts), as values. */
module Presences {
  import opened Protocol
  import opened JsMaps
  import opened Paths

  datatype PresenceState = Started | Editing | Stopped

  datatype PresenceRecord = PresenceRecord(member: Member, path: string, state: PresenceState, eventRevision: nat)

  /** The registry matches a report to a member and a path, not to a device. */
  datatype PresenceKey = PresenceKey(memberId: string, pathKey: string)

  type PresenceMap = JsMap<PresenceKey, PresenceRecord>

  function KeyOfPresence(member: Member, path: string, sp: Spelling): PresenceKey {
    PresenceKey(member.memberId, sp.Key(path))
  }

  function Report(presence: PresenceMap, member: Member, path: string, state: PresenceState, eventRevision: nat,
                  sp: Spelling): PresenceMap
  {
    var key := KeyOfPresence(member, path, sp);
    if key in presence.data && eventRevision < presence.data[key].eventRevision then presence
    else presence.Set(key, PresenceRecord(member, sp.normalize(path), state, eventRevision))
  }

  predicate ActiveOn(record: PresenceRecord, deviceId: string) {
    !record.state.Stopped? && record.member.deviceId == deviceId
  }

  /** Stop every listed record, each with its own next revision. */
  function StopAll(presence: PresenceMap, active: seq<PresenceRecord>, firstRevision: nat, sp: Spelling): PresenceMap
    decreases |active|
  {
    if active == [] then presence
    else
      StopAll(Report(presence, active[0].member, active[0].path, Stopped, firstRevision, sp), active[1..],
              firstRevision + 1, sp)
  }

  /** The active records of a device, as the sweep stops them: sorted by path, then member. */
  function ActiveForDevice(keys: seq<PresenceKey>, data: map<PresenceKey, PresenceRecord>, deviceId: string)
    : seq<PresenceRecord>
  {
    if keys == [] then []
    else
      var rest := ActiveForDevice(keys[1..], data, deviceId);
      if keys[0] in data && ActiveOn(data[keys[0]], deviceId) then InsertSorted(data[keys[0]], rest) else rest
  }

  lemma {:induction false} ActiveMembers(keys: seq<PresenceKey>, data: map<PresenceKey, PresenceRecord>,
                                         deviceId: string)
    ensures forall p :: p in ActiveForDevice(keys, data, deviceId) <==>
                        ActiveOn(p, deviceId) && exists k :: k in keys && k in data && data[k] == p
  {
    if keys != [] {
      ActiveMembers(keys[1..], data, deviceId);
      assert forall k :: k in keys <==> k == keys[0] || k in keys[1..];
    }
  }

  predicate SortsBefore(a: PresenceRecord, b: PresenceRecord) {
    TextLess(a.path, b.path) || (a.path == b.path && !TextLess(b.member.memberId, a.member.memberId))
  }

  function InsertSorted(record: PresenceRecord, sorted: seq<PresenceRecord>): (r: seq<PresenceRecord>)
    ensures forall p :: p in r <==> p == record || p in sorted
  {
    if sorted == [] || SortsBefore(record, sorted[0]) then [record] + sorted
    else [sorted[0]] + InsertSorted(record, sorted[1..])
  }

  function RestorePresence(acc: PresenceMap, records: seq<PresenceRecord>, sp: Spelling): (r: PresenceMap)
    ensures acc.Valid() ==> r.Valid()
    decreases |records|
  {
    if records == [] then acc
    else
      var item := records[0];
      var key := KeyOfPresence(item.member, item.path, sp);
      RestorePresence(
        if key in acc.data && item.eventRevision < acc.data[key].eventRevision then acc
        else acc.Set(key, item.(path := sp.normalize(item.path))),
        records[1..], sp)
  }

  /** A report that is older than the member's record on the path changes nothing; any other takes
      its place. */
  lemma ReportTells(presence: PresenceMap, member: Member, path: string, state: PresenceState, eventRevision: nat,
                    sp: Spelling, key: PresenceKey)
    ensures var after := Report(presence, member, path, state, eventRevision, sp).data;
            if key == PresenceKey(member.memberId, sp.Key(path))
               && (key in presence.data ==> presence.data[key].eventRevision <= eventRevision)
            then key in after && after[key] == PresenceRecord(member, sp.normalize(path), state, eventRevision)
            else (key in after <==> key in presence.data) && (key in after ==> after[key] == presence.data[key])
  {
  }

  /** In the order of paths, and of members on one path. */
  predicate InTurn(a: PresenceRecord, b: PresenceRecord) {
    !TextLess(b.path, a.path) && (a.path == b.path ==> !TextLess(b.member.memberId, a.member.memberId))
  }

  ghost predicate ByPath(records: seq<PresenceRecord>) {
    forall i, j :: 0 <= i < j < |records| ==> InTurn(records[i], records[j])
  }

  lemma SortsInTurn(a: PresenceRecord, b: PresenceRecord)
    ensures if SortsBefore(a, b) then InTurn(a, b) else InTurn(b, a)
  {
    TextLessTotal(a.path, b.path);
    TextLessTotal(a.member.memberId, b.member.memberId);
  }

  lemma InTurnTransitive(a: PresenceRecord, b: PresenceRecord, c: PresenceRecord)
    requires InTurn(a, b) && InTurn(b, c)
    ensures InTurn(a, c)
  {
    NotLessTransitive(a.path, b.path, c.path);
    if a.path == c.path { NotLessTransitive(a.member.memberId, b.member.memberId, c.member.memberId); }
  }

  lemma NotLessTransitive(a: string, b: string, c: string)
    requires !TextLess(b, a) && !TextLess(c, b)
    ensures !TextLess(c, a) && (a == c ==> b == a)
  {
    TextLessTotal(a, b);
    TextLessTotal(b, c);
    TextLessTotal(a, c);
    if TextLess(a, b) && TextLess(b, c) { TextLessTransitive(a, b, c); }
  }

  lemma {:induction false} InsertInOrder(record: PresenceRecord, sorted: seq<PresenceRecord>)
    requires ByPath(sorted)
    ensures ByPath(InsertSorted(record, sorted))
  {
    hide InTurn, SortsBefore;
    var r := InsertSorted(record, sorted);
    if sorted != [] {
      SortsInTurn(record, sorted[0]);
      if SortsBefore(record, sorted[0]) {
        forall j | 0 < j < |sorted| ensures InTurn(record, sorted[j]) {
          InTurnTransitive(record, sorted[0], sorted[j]);
        }
      } else {
        var rest := InsertSorted(record, sorted[1..]);
        InsertInOrder(record, sorted[1..]);
        forall j | 0 <= j < |rest| ensures InTurn(sorted[0], rest[j]) {
          assert rest[j] in rest;
        }
      }
    }
  }

  /** A device's records are stopped in the order of their paths and members. */
  lemma {:induction false} StopsInOrder(keys: seq<PresenceKey>, data: map<PresenceKey, PresenceRecord>,
                                        deviceId: string)
    ensures ByPath(ActiveForDevice(keys, data, deviceId))
  {
    hide InTurn, ActiveOn;
    if keys != [] {
      StopsInOrder(keys[1..], data, deviceId);
      if keys[0] in data { InsertInOrder(data[keys[0]], ActiveForDevice(keys[1..], data, deviceId)); }
    }
  }

  /** Of the records for one member and path a restore keeps the newest, and the later one of two of
      the same revision. */
  ghost predicate Kept(acc: PresenceMap, records: seq<PresenceRecord>, i: int, sp: Spelling, key: PresenceKey) {
    && 0 <= i < |records| && KeyOfPresence(records[i].member, records[i].path, sp) == key
    && (key in acc.data ==> acc.data[key].eventRevision <= records[i].eventRevision)
    && forall j :: 0 <= j < |records| && KeyOfPresence(records[j].member, records[j].path, sp) == key ==>
         records[j].eventRevision < records[i].eventRevision
         || (records[j].eventRevision == records[i].eventRevision && j <= i)
  }

  ghost predicate AllOlder(acc: PresenceMap, records: seq<PresenceRecord>, sp: Spelling, key: PresenceKey) {
    forall j :: 0 <= j < |records| && KeyOfPresence(records[j].member, records[j].path, sp) == key ==>
      key in acc.data && records[j].eventRevision < acc.data[key].eventRevision
  }

  lemma {:induction false} RestoreKeepsNewest(acc: PresenceMap, records: seq<PresenceRecord>, sp: Spelling,
                                              key: PresenceKey) returns (newest: Option<nat>)
    ensures var after := RestorePresence(acc, records, sp).data;
            match newest
            case Some(i) => Kept(acc, records, i, sp, key) && key in after
                            && after[key] == records[i].(path := sp.normalize(records[i].path))
            case None => AllOlder(acc, records, sp, key) && (key in after <==> key in acc.data)
                         && (key in after ==> after[key] == acc.data[key])
    decreases |records|
  {
    newest := None;
    if records != [] {
      var item, rest := records[0], records[1..];
      var own := KeyOfPresence(item.member, item.path, sp);
      var older := own in acc.data && item.eventRevision < acc.data[own].eventRevision;
      var next := if older then acc else acc.Set(own, item.(path := sp.normalize(item.path)));
      var later := RestoreKeepsNewest(next, rest, sp, key);
      assert forall j :: 0 < j < |records| ==> records[j] == rest[j - 1];
      if later.Some? {
        newest := Some(later.value + 1);
        assert records[newest.value] == rest[later.value];
      } else if own == key && !older {
        newest := Some(0);
      }
    }
  }

  // ----- Valid states -----

  ghost predicate RecordValid(key: PresenceKey, record: PresenceRecord, sp: Spelling) {
    key == KeyOfPresence(record.member, record.path, sp) && sp.normalize(record.path) == record.path
  }

  ghost predicate PresenceValid(presence: PresenceMap, sp: Spelling) {
    presence.Valid() && forall k :: k in presence.data ==> RecordValid(k, presence.data[k], sp)
  }

  ghost predicate PresenceBounded(presence: PresenceMap, bound: nat) {
    forall k :: k in presence.data ==> presence.data[k].eventRevision <= bound
  }

  lemma ReportKeeps(presence: PresenceMap, member: Member, path: string, state: PresenceState, eventRevision: nat,
                    sp: Spelling)
    requires sp.Lawful() && PresenceValid(presence, sp) && PresenceBounded(presence, eventRevision)
    ensures PresenceValid(Report(presence, member, path, state, eventRevision, sp), sp)
    ensures PresenceBounded(Report(presence, member, path, state, eventRevision, sp), eventRevision)
  {
  }

  lemma {:induction false} RestorePresenceFrom(presence: PresenceMap, n: nat, sp: Spelling)
    requires PresenceValid(presence, sp) && n <= |presence.keys|
    ensures RestorePresence(Prefix(presence, n), Lookup(presence.keys[n..], presence.data), sp) == presence
    decreases |presence.keys| - n
  {
    hide Prefix;
    if n == |presence.keys| {
      PrefixEnds(presence);
      assert Lookup(presence.keys[n..], presence.data) == [];
    } else {
      RestorePresenceFrom(presence, n + 1, sp);
      PrefixStep(presence, n);
      var key := presence.keys[n];
      assert RecordValid(key, presence.data[key], sp);
      assert Lookup(presence.keys[n..], presence.data)[1..] == Lookup(presence.keys[n + 1..], presence.data);
    }
  }

  lemma PresenceRoundTrip(presence: PresenceMap, sp: Spelling)
    requires PresenceValid(presence, sp)
    ensures RestorePresence(Empty(), presence.Values(), sp) == presence
  {
    PrefixEnds(presence);
    RestorePresenceFrom(presence, 0, sp);
    assert presence.keys[0..] == presence.keys;
  }
}
