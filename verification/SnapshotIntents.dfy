/** Grouping cached entries back into declared intents (apps/agent/src/agent.ts). */
module SnapshotIntents {
  import opened JsMaps
  import opened Protocol

  /** A cached coordination entry; not every kind names a path. */
  datatype Entry = Entry(entryType: EntryType, path: Option<string>, member: Member, intent: Option<IntentRef>,
                         eventRevision: nat)

  /** JSON text of `[intentId, memberId, deviceId]`, which determines the three strings. */
  datatype GroupKey = GroupKey(intentId: string, memberId: string, deviceId: string)

  datatype Group = Group(description: string, modifyPaths: seq<string>, createPaths: seq<string>, eventRevision: nat)

  datatype DeclaredIntent = DeclaredIntent(intentId: string, owner: Member, modifyPaths: seq<string>,
                                           createPaths: seq<string>, description: string, eventRevision: nat)

  predicate Relevant(entry: Entry) {
    IsIntentEntry(entry.entryType) && entry.path.Some?
  }

  function Decimal(n: nat): string {
    if n < 10 then [('0' as int + n) as char] else Decimal(n / 10) + Decimal(n % 10)
  }

  /** Entries of older hosts have no intent id and stand alone. */
  function IdOf(entry: Entry): string
    requires Relevant(entry)
  {
    if entry.intent.Some? then entry.intent.value.intentId
    else
      "legacy-" + (if entry.entryType == IntentEntry then "intent" else "planned_file_creation")
      + "-" + Decimal(entry.eventRevision) + "-" + entry.path.value
  }

  function KeyOf(entry: Entry): GroupKey
    requires Relevant(entry)
  {
    GroupKey(IdOf(entry), entry.member.memberId, entry.member.deviceId)
  }

  function Value(digits: string): int {
    if digits == "" then 0 else 10 * Value(digits[..|digits| - 1]) + digits[|digits| - 1] as int - '0' as int
  }

  /** A decimal numeral without leading zeros. */
  predicate Numeral(digits: string) {
    && digits != "" && (digits[0] == '0' ==> |digits| == 1)
    && forall i :: 0 <= i < |digits| ==> '0' <= digits[i] <= '9'
  }

  lemma {:induction false} DecimalReads(n: nat)
    ensures Numeral(Decimal(n)) && Value(Decimal(n)) == n
    ensures n > 0 ==> Decimal(n)[0] != '0'
  {
    if n < 10 {
      assert Decimal(n)[..0] == "";
    } else {
      DecimalReads(n / 10);
      var front, last := Decimal(n / 10), ('0' as int + n % 10) as char;
      assert Decimal(n % 10) == [last];
      assert Decimal(n) == front + [last];
      assert (front + [last])[..|front|] == front;
    }
  }

  lemma CutOnce(a: string, afterA: string, b: string, afterB: string, mark: char)
    requires mark !in a && mark !in b && a + [mark] + afterA == b + [mark] + afterB
    ensures a == b && afterA == afterB
  {
    var text := a + [mark] + afterA;
    assert text == b + [mark] + afterB && text[|a|] == mark && text[|b|] == mark;
    assert forall i :: 0 <= i < |a| ==> text[i] == a[i];
    assert forall i :: 0 <= i < |b| ==> text[i] == b[i];
    assert |a| == |b|;
    assert text[..|a|] == a && (b + [mark] + afterB)[..|b|] == b;
    assert text[|a| + 1..] == afterA && (b + [mark] + afterB)[|b| + 1..] == afterB;
  }

  /** The id of an older host's entry names its kind, its revision and its path. */
  lemma LegacyIdReads(entry: Entry) returns (numeral: string)
    requires Relevant(entry) && entry.intent.None?
    ensures IdOf(entry) ==
            (if entry.entryType == IntentEntry then "legacy-intent-" else "legacy-planned_file_creation-")
                           + (numeral + ['-'] + entry.path.value)
    ensures Numeral(numeral) && Value(numeral) == entry.eventRevision && '-' !in numeral
  {
    numeral := Decimal(entry.eventRevision);
    DecimalReads(entry.eventRevision);
    hide Decimal;
    assert "legacy-" + "intent" + "-" == "legacy-intent-";
    assert "legacy-" + "planned_file_creation" + "-" == "legacy-planned_file_creation-";
  }

  /** Entries of older hosts share an id only if they agree on all three. */
  lemma LegacyIdsAgreeIff(a: Entry, b: Entry)
    requires Relevant(a) && Relevant(b) && a.intent.None? && b.intent.None?
    ensures IdOf(a) == IdOf(b) <==> a.entryType == b.entryType && a.eventRevision == b.eventRevision && a.path == b.path
  {
    var numeralA := LegacyIdReads(a);
    var numeralB := LegacyIdReads(b);
    if IdOf(a) == IdOf(b) {
      assert IdOf(a)[7] == if a.entryType == IntentEntry then 'i' else 'p';
      assert IdOf(b)[7] == if b.entryType == IntentEntry then 'i' else 'p';
      var skip := if a.entryType == IntentEntry then 14 else 29;
      assert IdOf(a)[skip..] == numeralA + ['-'] + a.path.value;
      assert IdOf(b)[skip..] == numeralB + ['-'] + b.path.value;
      CutOnce(numeralA, a.path.value, numeralB, b.path.value, '-');
    }
  }

  /** Which entries are gathered into one intent: those of one member and device that name the same
      intent, or that name none and agree on kind, revision and path; an entry that names an intent
      joins one that names none only if the name is the id made up for it. */
  lemma TogetherIff(a: Entry, b: Entry)
    requires Relevant(a) && Relevant(b) && (b.intent.Some? ==> a.intent.Some?)
    ensures KeyOf(a) == KeyOf(b) <==>
            a.member == b.member
            && (if b.intent.Some? then a.intent.value.intentId == b.intent.value.intentId
                else if a.intent.Some? then a.intent.value.intentId == IdOf(b)
                else a.entryType == b.entryType && a.eventRevision == b.eventRevision && a.path == b.path)
  {
    if a.intent.None? { LegacyIdsAgreeIff(a, b); }
    hide Decimal;
  }

  // ----- Grouping -----

  function AddPath(paths: seq<string>, path: string): seq<string> {
    if path in paths then paths else paths + [path]
  }

  function Described(entry: Entry, otherwise: string): string {
    if entry.intent.Some? then entry.intent.value.description else otherwise
  }

  function Refreshed(group: Option<Group>, entry: Entry): Group {
    if group.None? then Group(Described(entry, ""), [], [], entry.eventRevision)
    else if entry.eventRevision >= group.value.eventRevision then
      group.value.(eventRevision := entry.eventRevision, description := Described(entry, group.value.description))
    else group.value
  }

  function Grown(group: Option<Group>, entry: Entry): Group
    requires Relevant(entry)
  {
    var refreshed := Refreshed(group, entry);
    if entry.entryType == IntentEntry then
      refreshed.(modifyPaths := AddPath(refreshed.modifyPaths, entry.path.value))
    else refreshed.(createPaths := AddPath(refreshed.createPaths, entry.path.value))
  }

  function Find(groups: JsMap<GroupKey, Group>, key: GroupKey): Option<Group> {
    if key in groups.data then Some(groups.data[key]) else None
  }

  function Added(groups: JsMap<GroupKey, Group>, entry: Entry): JsMap<GroupKey, Group> {
    if !Relevant(entry) then groups
    else groups.Set(KeyOf(entry), Grown(Find(groups, KeyOf(entry)), entry))
  }

  function Grouped(entries: seq<Entry>): JsMap<GroupKey, Group> {
    if entries == [] then Empty() else Added(Grouped(entries[..|entries| - 1]), entries[|entries| - 1])
  }

  // ----- What the groups hold -----

  ghost predicate Of(entries: seq<Entry>, i: int, key: GroupKey) {
    0 <= i < |entries| && Relevant(entries[i]) && KeyOf(entries[i]) == key
  }

  ghost predicate Named(entries: seq<Entry>, key: GroupKey, entryType: EntryType, path: string) {
    exists i :: Of(entries, i, key) && entries[i].entryType == entryType && entries[i].path == Some(path)
  }

  /** The group is at its newest entry's revision, and carries that entry's description. */
  ghost predicate Newest(entries: seq<Entry>, key: GroupKey, group: Group, i: int) {
    && Of(entries, i, key)
    && entries[i].eventRevision == group.eventRevision
    && (forall j :: Of(entries, j, key) ==>
          entries[j].eventRevision < group.eventRevision || (entries[j].eventRevision == group.eventRevision && j <= i))
    && (entries[i].intent.Some? ==> group.description == entries[i].intent.value.description)
  }

  ghost predicate Gathers(entries: seq<Entry>, key: GroupKey, group: Group) {
    && Distinct(group.modifyPaths) && Distinct(group.createPaths)
    && (forall path :: path in group.modifyPaths <==> Named(entries, key, IntentEntry, path))
    && (forall path :: path in group.createPaths <==> Named(entries, key, CreationEntry, path))
    && exists i :: Newest(entries, key, group, i)
  }

  /** The group of a key gathers the entries of that key, and there is one exactly when there
      is such an entry. */
  lemma {:induction false} GroupGathers(entries: seq<Entry>, key: GroupKey)
    ensures Grouped(entries).Valid()
    ensures key in Grouped(entries).data <==> exists i :: Of(entries, i, key)
    ensures key in Grouped(entries).data ==> Gathers(entries, key, Grouped(entries).data[key])
  {
    if entries != [] {
      hide Gathers, Grown, KeyOf;
      var shorter := entries[..|entries| - 1];
      var last := entries[|entries| - 1];
      assert entries == shorter + [last];
      GroupGathers(shorter, key);
      var before := Grouped(shorter);
      if Relevant(last) && KeyOf(last) == key {
        assert Of(entries, |shorter|, key);
        if key in before.data {
          GrownGathers(shorter, last, key, before.data[key]);
        } else {
          FirstGathers(shorter, last, key);
        }
      } else {
        SameMembers(shorter, last, key);
        if key in before.data {
          StillGathers(shorter, last, key, before.data[key]);
        }
      }
    }
  }

  /** An entry of another key changes nothing for this one. */
  lemma SameMembers(shorter: seq<Entry>, last: Entry, key: GroupKey)
    requires !(Relevant(last) && KeyOf(last) == key)
    ensures forall i :: Of(shorter + [last], i, key) <==> Of(shorter, i, key)
    ensures forall i :: Of(shorter, i, key) ==> (shorter + [last])[i] == shorter[i]
  {
    hide KeyOf;
  }

  lemma StillGathers(shorter: seq<Entry>, last: Entry, key: GroupKey, group: Group)
    requires !(Relevant(last) && KeyOf(last) == key) && Gathers(shorter, key, group)
    ensures Gathers(shorter + [last], key, group)
  {
    hide Of;
    SameMembers(shorter, last, key);
    var entries := shorter + [last];
    NamedOtherwise(shorter, last, key);
    var i :| Newest(shorter, key, group, i);
    assert Newest(entries, key, group, i);
  }

  lemma NamedOtherwise(shorter: seq<Entry>, last: Entry, key: GroupKey)
    requires !(Relevant(last) && KeyOf(last) == key)
    ensures forall t, path :: Named(shorter + [last], key, t, path) <==> Named(shorter, key, t, path)
  {
    SameMembers(shorter, last, key);
    forall t, path ensures Named(shorter + [last], key, t, path) <==> Named(shorter, key, t, path) {
      if i :| Of(shorter, i, key) && shorter[i].entryType == t && shorter[i].path == Some(path) {
        assert Of(shorter + [last], i, key);
      }
    }
  }

  /** What is named once `last`, an entry of this key, is counted too. */
  lemma NamedNow(shorter: seq<Entry>, last: Entry, key: GroupKey)
    requires Relevant(last) && KeyOf(last) == key
    ensures forall t, path ::
              Named(shorter + [last], key, t, path)
              <==> Named(shorter, key, t, path) || (t == last.entryType && Some(path) == last.path)
  {
    hide KeyOf;
    var entries := shorter + [last];
    assert Of(entries, |shorter|, key);
    assert forall i :: Of(entries, i, key) <==> Of(shorter, i, key) || i == |shorter|;
    forall t, path
      ensures Named(entries, key, t, path)
              <==> Named(shorter, key, t, path) || (t == last.entryType && Some(path) == last.path)
    {
      if i :| Of(shorter, i, key) && shorter[i].entryType == t && shorter[i].path == Some(path) {
        assert Of(entries, i, key) && entries[i] == shorter[i];
      }
    }
  }

  lemma FirstGathers(shorter: seq<Entry>, last: Entry, key: GroupKey)
    requires Relevant(last) && KeyOf(last) == key && !exists i :: Of(shorter, i, key)
    ensures Gathers(shorter + [last], key, Grown(None, last))
  {
    hide KeyOf;
    var entries := shorter + [last];
    NamedNow(shorter, last, key);
    assert forall i :: Of(entries, i, key) ==> Of(shorter, i, key) || i == |shorter|;
    assert Newest(entries, key, Grown(None, last), |shorter|);
  }

  lemma GrownGathers(shorter: seq<Entry>, last: Entry, key: GroupKey, group: Group)
    requires Relevant(last) && KeyOf(last) == key && Gathers(shorter, key, group)
    ensures Gathers(shorter + [last], key, Grown(Some(group), last))
  {
    hide KeyOf, Named;
    var entries := shorter + [last];
    var grown := Grown(Some(group), last);
    NamedNow(shorter, last, key);
    NewestAfter(shorter, last, key, group, grown);
  }

  lemma NewestAfter(shorter: seq<Entry>, last: Entry, key: GroupKey, group: Group, grown: Group)
    requires Relevant(last) && KeyOf(last) == key && exists i :: Newest(shorter, key, group, i)
    requires grown == Grown(Some(group), last)
    ensures exists i :: Newest(shorter + [last], key, grown, i)
  {
    hide KeyOf, AddPath;
    var entries := shorter + [last];
    assert forall i :: Of(entries, i, key) <==> Of(shorter, i, key) || i == |shorter|;
    var i :| Newest(shorter, key, group, i);
    if last.eventRevision >= group.eventRevision {
      assert Newest(entries, key, grown, |shorter|);
    } else {
      assert Newest(entries, key, grown, i);
    }
  }

  // ----- Sorting by an abstract comparison of texts -----

  /** The comparison of texts orders any two of them and is transitive. */
  ghost predicate TotalPreorder(notAfter: (string, string) -> bool) {
    && (forall a, b :: notAfter(a, b) || notAfter(b, a))
    && (forall a, b, c :: notAfter(a, b) && notAfter(b, c) ==> notAfter(a, c))
  }

  function InsertText<T>(item: T, sorted: seq<T>, text: T -> string, notAfter: (string, string) -> bool): seq<T> {
    if sorted == [] || notAfter(text(item), text(sorted[0])) then [item] + sorted
    else [sorted[0]] + InsertText(item, sorted[1..], text, notAfter)
  }

  /** A stable sort. */
  function SortByText<T>(items: seq<T>, text: T -> string, notAfter: (string, string) -> bool): seq<T> {
    if items == [] then [] else InsertText(items[0], SortByText(items[1..], text, notAfter), text, notAfter)
  }

  ghost predicate InOrder<T>(items: seq<T>, text: T -> string, notAfter: (string, string) -> bool) {
    forall i, j :: 0 <= i < j < |items| ==> notAfter(text(items[i]), text(items[j]))
  }

  lemma {:induction false} InsertMembers<T(!new)>(item: T, sorted: seq<T>, text: T -> string,
                                                  notAfter: (string, string) -> bool)
    ensures forall x :: x in InsertText(item, sorted, text, notAfter) <==> x == item || x in sorted
    ensures Distinct(sorted) && item !in sorted ==> Distinct(InsertText(item, sorted, text, notAfter))
  {
    if sorted != [] && !notAfter(text(item), text(sorted[0])) {
      InsertMembers(item, sorted[1..], text, notAfter);
      assert forall x :: x in sorted <==> x == sorted[0] || x in sorted[1..];
      assert Distinct(sorted) ==> sorted[0] !in sorted[1..];
    }
  }

  lemma {:induction false} InsertOrdered<T(!new)>(item: T, sorted: seq<T>, text: T -> string,
                                                  notAfter: (string, string) -> bool)
    requires TotalPreorder(notAfter) && InOrder(sorted, text, notAfter)
    ensures InOrder(InsertText(item, sorted, text, notAfter), text, notAfter)
  {
    if sorted != [] {
      if notAfter(text(item), text(sorted[0])) {
        assert forall i :: 0 < i < |sorted| ==> notAfter(text(sorted[0]), text(sorted[i]));
      } else {
        var rest := InsertText(item, sorted[1..], text, notAfter);
        InsertOrdered(item, sorted[1..], text, notAfter);
        InsertMembers(item, sorted[1..], text, notAfter);
        forall i | 0 <= i < |rest| ensures notAfter(text(sorted[0]), text(rest[i])) {
          assert rest[i] in rest;
        }
      }
    }
  }

  lemma {:induction false} SortFacts<T(!new)>(items: seq<T>, text: T -> string, notAfter: (string, string) -> bool)
    ensures forall x :: x in SortByText(items, text, notAfter) <==> x in items
    ensures Distinct(items) ==> Distinct(SortByText(items, text, notAfter))
    ensures TotalPreorder(notAfter) ==> InOrder(SortByText(items, text, notAfter), text, notAfter)
  {
    if items != [] {
      SortFacts(items[1..], text, notAfter);
      var rest := SortByText(items[1..], text, notAfter);
      InsertMembers(items[0], rest, text, notAfter);
      if TotalPreorder(notAfter) {
        InsertOrdered(items[0], rest, text, notAfter);
      }
      assert forall x :: x in items <==> x == items[0] || x in items[1..];
      assert Distinct(items) ==> items[0] !in items[1..];
    }
  }

  // ----- The intents -----

  function PathText(path: string): string {
    path
  }

  function Declared(key: GroupKey, group: Group, notAfter: (string, string) -> bool): DeclaredIntent {
    DeclaredIntent(
      key.intentId, Member(key.memberId, key.deviceId),
      SortByText(group.modifyPaths, PathText, notAfter),
      SortByText(group.createPaths, PathText, notAfter),
      group.description, group.eventRevision)
  }

  function DeclaredAll(keys: seq<GroupKey>, groups: map<GroupKey, Group>,
                       notAfter: (string, string) -> bool): seq<DeclaredIntent>
    requires forall key :: key in keys <==> key in groups
  {
    assert forall i :: 0 <= i < |keys| ==> keys[i] in keys;
    seq(|keys|, i requires 0 <= i < |keys| => Declared(keys[i], groups[keys[i]], notAfter))
  }

  function IntentText(intent: DeclaredIntent): string {
    intent.intentId + "\0" + intent.owner.memberId + "\0" + intent.owner.deviceId
  }

  /** Among ids without NUL, the text that intents are sorted by tells the three ids. */
  lemma IntentTextReads(intent: DeclaredIntent, intentId: string, memberId: string, deviceId: string)
    requires '\0' !in intent.intentId && '\0' !in intent.owner.memberId && '\0' !in intentId && '\0' !in memberId
    ensures IntentText(intent) == intentId + "\0" + memberId + "\0" + deviceId
       <==> intentId == intent.intentId && memberId == intent.owner.memberId && deviceId == intent.owner.deviceId
  {
    var owner := intent.owner;
    var given := memberId + ['\0'] + deviceId;
    var own := owner.memberId + ['\0'] + owner.deviceId;
    assert IntentText(intent) == intent.intentId + ['\0'] + own;
    assert intentId + "\0" + memberId + "\0" + deviceId == intentId + ['\0'] + given;
    if IntentText(intent) == intentId + "\0" + memberId + "\0" + deviceId {
      CutOnce(intent.intentId, own, intentId, given, '\0');
      CutOnce(owner.memberId, owner.deviceId, memberId, deviceId, '\0');
    }
  }

  function IntentKey(intent: DeclaredIntent): GroupKey {
    GroupKey(intent.intentId, intent.owner.memberId, intent.owner.deviceId)
  }

  ghost predicate SameFacts(entries: seq<Entry>, intent: DeclaredIntent) {
    var key := IntentKey(intent);
    && (forall path :: path in intent.modifyPaths <==> Named(entries, key, IntentEntry, path))
    && (forall path :: path in intent.createPaths <==> Named(entries, key, CreationEntry, path))
    && Distinct(intent.modifyPaths) && Distinct(intent.createPaths)
    && (exists i :: Newest(entries, key, Group(intent.description, [], [], intent.eventRevision), i))
  }

  lemma DeclaredFacts(entries: seq<Entry>, key: GroupKey, group: Group, notAfter: (string, string) -> bool)
    requires Gathers(entries, key, group)
    ensures SameFacts(entries, Declared(key, group, notAfter))
    ensures TotalPreorder(notAfter) ==>
              InOrder(Declared(key, group, notAfter).modifyPaths, PathText, notAfter)
              && InOrder(Declared(key, group, notAfter).createPaths, PathText, notAfter)
  {
    hide Named, TotalPreorder;
    SortFacts(group.modifyPaths, PathText, notAfter);
    SortFacts(group.createPaths, PathText, notAfter);
    var i :| Newest(entries, key, group, i);
    assert Newest(entries, key, Group(group.description, [], [], group.eventRevision), i);
    var intent := Declared(key, group, notAfter);
    assert IntentKey(intent) == key;
    assert Distinct(intent.modifyPaths) && Distinct(intent.createPaths);
  }

  /** What the snapshot says: an intent of this key lists the path under this role. */
  ghost predicate Listed(intents: seq<DeclaredIntent>, key: GroupKey, entryType: EntryType, path: string) {
    exists k :: 0 <= k < |intents| && IntentKey(intents[k]) == key
                && ((entryType == IntentEntry && path in intents[k].modifyPaths)
                    || (entryType == CreationEntry && path in intents[k].createPaths))
  }

  ghost predicate KeysApart(intents: seq<DeclaredIntent>) {
    forall i, j :: 0 <= i < j < |intents| ==> IntentKey(intents[i]) != IntentKey(intents[j])
  }

  /** The intents are the groups of the entries: one for each key that occurs. */
  ghost predicate Regroups(entries: seq<Entry>, intents: seq<DeclaredIntent>) {
    && (forall i :: 0 <= i < |intents| ==> SameFacts(entries, intents[i]))
    && (forall i, key :: Of(entries, i, key) ==> exists k :: 0 <= k < |intents| && IntentKey(intents[k]) == key)
    && KeysApart(intents)
  }

  lemma DeclaredAllRegroups(entries: seq<Entry>, notAfter: (string, string) -> bool)
    ensures Grouped(entries).Valid()
    ensures var groups := Grouped(entries);
            var declared := DeclaredAll(groups.keys, groups.data, notAfter);
            Regroups(entries, declared) && Distinct(declared)
  {
    hide Gathers, SameFacts, Of;
    var groups := Grouped(entries);
    forall key
      ensures groups.Valid()
      ensures key in groups.data <==> exists i :: Of(entries, i, key)
      ensures key in groups.data ==> Gathers(entries, key, groups.data[key])
    {
      GroupGathers(entries, key);
    }
    var declared := DeclaredAll(groups.keys, groups.data, notAfter);
    forall k | 0 <= k < |declared|
      ensures IntentKey(declared[k]) == groups.keys[k] && SameFacts(entries, declared[k])
    {
      assert groups.keys[k] in groups.keys;
      DeclaredFacts(entries, groups.keys[k], groups.data[groups.keys[k]], notAfter);
    }
    forall i, key | Of(entries, i, key) ensures exists k :: 0 <= k < |declared| && IntentKey(declared[k]) == key {
      assert key in groups.keys;
      var k :| 0 <= k < |groups.keys| && groups.keys[k] == key;
      assert IntentKey(declared[k]) == key;
    }
  }

  /** Reordering the intents changes nothing of this. */
  lemma SortedRegroups(entries: seq<Entry>, declared: seq<DeclaredIntent>, intents: seq<DeclaredIntent>)
    requires Regroups(entries, declared) && Distinct(declared) && Distinct(intents)
    requires forall intent :: intent in intents <==> intent in declared
    ensures Regroups(entries, intents)
  {
    hide SameFacts, Of, IntentKey;
    forall i | 0 <= i < |intents| ensures SameFacts(entries, intents[i]) {
      assert intents[i] in declared;
    }
    forall i, key | Of(entries, i, key) ensures exists k :: 0 <= k < |intents| && IntentKey(intents[k]) == key {
      var k :| 0 <= k < |declared| && IntentKey(declared[k]) == key;
      assert declared[k] in intents;
    }
    forall i, j | 0 <= i < j < |intents| ensures IntentKey(intents[i]) != IntentKey(intents[j]) {
      assert intents[i] in declared && intents[j] in declared;
    }
  }

  /** Flattening the intents returns exactly what the entries say. */
  lemma FlattenReturnsTheEntries(entries: seq<Entry>, intents: seq<DeclaredIntent>, key: GroupKey,
                                 entryType: EntryType, path: string)
    requires Regroups(entries, intents)
    ensures Listed(intents, key, entryType, path) <==> Named(entries, key, entryType, path)
  {
    if Named(entries, key, entryType, path) {
      var i :| Of(entries, i, key) && entries[i].entryType == entryType && entries[i].path == Some(path);
      var k :| 0 <= k < |intents| && IntentKey(intents[k]) == key;
      assert SameFacts(entries, intents[k]);
    }
    if Listed(intents, key, entryType, path) {
      var k :| 0 <= k < |intents| && IntentKey(intents[k]) == key
               && ((entryType == IntentEntry && path in intents[k].modifyPaths)
                   || (entryType == CreationEntry && path in intents[k].createPaths));
      assert SameFacts(entries, intents[k]);
    }
  }

  method Snapshot(entries: seq<Entry>, notAfter: (string, string) -> bool) returns (intents: seq<DeclaredIntent>)
    ensures Regroups(entries, intents)
    ensures forall key, t, path :: Listed(intents, key, t, path) <==> Named(entries, key, t, path)
    ensures TotalPreorder(notAfter) ==> InOrder(intents, IntentText, notAfter)
  {
    hide Regroups, Named, Listed, TotalPreorder, InOrder, InsertText, Grown, KeyOf;
    var groups := Empty<GroupKey, Group>();
    for n := 0 to |entries|
      invariant groups == Grouped(entries[..n])
    {
      var entry := entries[n];
      assert entries[..n + 1][..n] == entries[..n];
      if IsIntentEntry(entry.entryType) && entry.path.Some? {
        groups := groups.Set(KeyOf(entry), Grown(Find(groups, KeyOf(entry)), entry));
      }
    }
    assert entries[..|entries|] == entries;
    DeclaredAllRegroups(entries, notAfter);
    var declared := DeclaredAll(groups.keys, groups.data, notAfter);
    intents := SortByText(declared, IntentText, notAfter);
    SortFacts(declared, IntentText, notAfter);
    SortedRegroups(entries, declared, intents);
    forall key, t, path ensures Listed(intents, key, t, path) <==> Named(entries, key, t, path) {
      FlattenReturnsTheEntries(entries, intents, key, t, path);
    }
  }
}
