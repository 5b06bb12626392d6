/** Declared intents and planned file creations (packages/core-state/src/intents.ts), as values. */
module Intents {
  import opened Protocol
  import opened JsMaps
  import opened Paths

  datatype Intent = Intent(intentId: string, owner: Member, modifyPaths: seq<string>, createPaths: seq<string>,
                           description: string, eventRevision: nat)

  type IntentMap = JsMap<string, Intent>

  const MAX_PATH_LENGTH := 4096

  /** Path sets are rejected when both are empty or a path is too long. */
  predicate Acceptable(modifyPaths: seq<string>, createPaths: seq<string>) {
    (modifyPaths != [] || createPaths != []) && forall p :: p in modifyPaths + createPaths ==> |p| <= MAX_PATH_LENGTH
  }

  function NormalizeAll(paths: seq<string>, sp: Spelling): (r: seq<string>)
    ensures |r| == |paths| && forall i :: 0 <= i < |r| ==> r[i] == sp.normalize(paths[i])
  {
    seq(|paths|, i requires 0 <= i < |paths| => sp.normalize(paths[i]))
  }

  /** A planned creation of an existing file is recorded as a modification. */
  function Reclassify(tracked: set<string>, edits: seq<string>, createPaths: seq<string>, sp: Spelling)
    : (r: (seq<string>, seq<string>))
    ensures forall p :: p in r.0 ==> p in edits || exists q :: q in createPaths && p == sp.normalize(q)
    ensures forall p :: p in r.1 ==> exists q :: q in createPaths && p == sp.normalize(q)
    decreases |createPaths|
  {
    if createPaths == [] then (edits, [])
    else
      var normalized := sp.normalize(createPaths[0]);
      assert createPaths[0] in createPaths && forall q :: q in createPaths[1..] ==> q in createPaths;
      if sp.Key(createPaths[0]) in tracked then
        Reclassify(tracked, if normalized in edits then edits else edits + [normalized], createPaths[1..], sp)
      else
        var (m, c) := Reclassify(tracked, edits, createPaths[1..], sp);
        (m, [normalized] + c)
  }

  datatype IntentError = FormatError | NotOwner | NotFound

  datatype IntentResult = IntentFailed(error: IntentError) | IntentOk(intents: IntentMap, intent: Intent)

  function Declare(intents: IntentMap, tracked: set<string>, intentId: string, owner: Member, modifyPaths: seq<string>,
                   createPaths: seq<string>, description: string, eventRevision: nat, sp: Spelling): IntentResult
  {
    if !Acceptable(modifyPaths, createPaths) then IntentFailed(FormatError)
    else
      var (edits, creations) := Reclassify(tracked, NormalizeAll(modifyPaths, sp), createPaths, sp);
      var intent := Intent(intentId, owner, edits, creations, description, eventRevision);
      IntentOk(intents.Set(intentId, intent), intent)
  }

  /** Replaces an owned intent; everything else is refused. */
  function Update(intents: IntentMap, tracked: set<string>, intentId: string, requester: Member,
                  modifyPaths: seq<string>,
                  createPaths: seq<string>, description: string, eventRevision: nat, sp: Spelling): IntentResult
  {
    if intentId !in intents.data then IntentFailed(NotFound)
    else
      var stored := intents.data[intentId];
      if stored.owner.memberId != requester.memberId then IntentFailed(NotOwner)
      else if !Acceptable(modifyPaths, createPaths) then IntentFailed(FormatError)
      else
        var (edits, creations) := Reclassify(tracked, NormalizeAll(modifyPaths, sp), createPaths, sp);
        var intent := stored.(modifyPaths := edits, createPaths := creations, description := description,
                              eventRevision := eventRevision);
        IntentOk(intents.Set(intentId, intent), intent)
  }

  function Withdraw(intents: IntentMap, intentId: string, requester: Member): IntentResult {
    if intentId !in intents.data then IntentFailed(NotFound)
    else
      var stored := intents.data[intentId];
      if stored.owner.memberId != requester.memberId then IntentFailed(NotOwner)
      else IntentOk(intents.Delete(intentId), stored)
  }

  // ----- Operations on every intent -----

  function DropPath(paths: seq<string>, key: string, sp: Spelling): (r: seq<string>)
    ensures forall p :: p in r <==> p in paths && sp.Key(p) != key
    ensures |r| == |paths| <==> forall p :: p in paths ==> sp.Key(p) != key
    ensures |r| == |paths| ==> r == paths
    ensures |r| <= |paths|
  {
    if paths == [] then []
    else
      var rest := DropPath(paths[1..], key, sp);
      if sp.Key(paths[0]) == key then rest else [paths[0]] + rest
  }

  /** `map(p => pathKey(p) === fromKey ? to : p)`. */
  function MovePath(paths: seq<string>, key: string, to: string, sp: Spelling): (r: seq<string>)
    ensures |r| == |paths|
    ensures forall i :: 0 <= i < |r| ==> r[i] == if sp.Key(paths[i]) == key then to else paths[i]
  {
    seq(|paths|, i requires 0 <= i < |paths| => if sp.Key(paths[i]) == key then to else paths[i])
  }

  /** `[...new Set(paths)]`. */
  function Dedupe(paths: seq<string>): (r: seq<string>)
    ensures forall p :: p in r <==> p in paths
  {
    if paths == [] then []
    else
      var init, last := paths[..|paths| - 1], paths[|paths| - 1];
      assert paths == init + [last];
      var r := Dedupe(init);
      if last in r then r else r + [last]
  }

  /** Keep the first path of every match key. */
  function DedupeByKey(paths: seq<string>, sp: Spelling): (r: seq<string>)
    ensures forall p :: p in r ==> p in paths
  {
    if paths == [] then []
    else
      var init, last := paths[..|paths| - 1], paths[|paths| - 1];
      assert paths == init + [last];
      var r := DedupeByKey(init, sp);
      if Mentions(r, sp.Key(last), sp) then r else r + [last]
  }

  predicate Mentions(paths: seq<string>, key: string, sp: Spelling) {
    exists p :: p in paths && sp.Key(p) == key
  }

  /** What one rename, creation or deletion does to one intent. */
  datatype PathEvent =
    | Renamed(fromPath: string, toPath: string)
    | Created(path: string)
    | DeletedBy(path: string, memberId: string)

  predicate Affects(intent: Intent, event: PathEvent, sp: Spelling) {
    match event
    case Renamed(fromPath, _) =>
      Mentions(intent.modifyPaths, sp.Key(fromPath), sp) || Mentions(intent.createPaths, sp.Key(fromPath), sp)
    case Created(path) => Mentions(intent.createPaths, sp.Key(path), sp)
    case DeletedBy(path, memberId) =>
      intent.owner.memberId == memberId
      && (Mentions(intent.modifyPaths, sp.Key(path), sp) || Mentions(intent.createPaths, sp.Key(path), sp))
  }

  function AfterEvent(intent: Intent, event: PathEvent, sp: Spelling): Intent {
    if !Affects(intent, event, sp) then intent
    else match event
      case Renamed(fromPath, toPath) =>
        var key, to := sp.Key(fromPath), sp.normalize(toPath);
        intent.(modifyPaths := Dedupe(MovePath(intent.modifyPaths, key, to, sp)),
                createPaths := DedupeByKey(MovePath(intent.createPaths, key, to, sp), sp))
      case Created(path) => intent.(createPaths := DropPath(intent.createPaths, sp.Key(path), sp))
      case DeletedBy(path, _) =>
        intent.(modifyPaths := DropPath(intent.modifyPaths, sp.Key(path), sp),
                createPaths := DropPath(intent.createPaths, sp.Key(path), sp))
  }

  function AllAfter(intents: IntentMap, event: PathEvent, sp: Spelling): (r: IntentMap)
    ensures intents.Valid() ==> r.Valid()
  {
    JsMap(intents.keys, map id | id in intents.data :: AfterEvent(intents.data[id], event, sp))
  }

  /** The intents the event changed, in their new form and in insertion order. */
  function Affected(keys: seq<string>, data: map<string, Intent>, event: PathEvent, sp: Spelling): seq<Intent> {
    if keys == [] then []
    else
      (if keys[0] in data && Affects(data[keys[0]], event, sp) then [AfterEvent(data[keys[0]], event, sp)] else [])
      + Affected(keys[1..], data, event, sp)
  }

  /** The set of existing files follows the events. */
  function TrackedAfter(tracked: set<string>, event: PathEvent, sp: Spelling): set<string> {
    match event
    case Renamed(fromPath, toPath) =>
      if sp.Key(fromPath) in tracked then tracked - {sp.Key(fromPath)} + {sp.Key(toPath)} else tracked
    case Created(path) => tracked + {sp.Key(path)}
    case DeletedBy(path, _) => tracked - {sp.Key(path)}
  }

  // ----- Expiry and snapshots -----

  function OwnedBy(keys: seq<string>, data: map<string, Intent>, deviceId: string): seq<Intent> {
    if keys == [] then []
    else (if keys[0] in data && data[keys[0]].owner.deviceId == deviceId then [data[keys[0]]] else [])
         + OwnedBy(keys[1..], data, deviceId)
  }

  function KeepKeys(keys: seq<string>, data: map<string, Intent>, deviceId: string): seq<string> {
    if keys == [] then []
    else
      (if keys[0] in data && data[keys[0]].owner.deviceId != deviceId then [keys[0]] else [])
      + KeepKeys(keys[1..], data, deviceId)
  }

  function ExpireIntents(intents: IntentMap, deviceId: string): IntentMap {
    JsMap(KeepKeys(intents.keys, intents.data, deviceId),
          map id | id in intents.data && intents.data[id].owner.deviceId != deviceId :: intents.data[id])
  }

  function RestoreIntents(acc: IntentMap, intents: seq<Intent>): (r: IntentMap)
    ensures acc.Valid() ==> r.Valid()
    decreases |intents|
  {
    if intents == [] then acc else RestoreIntents(acc.Set(intents[0].intentId, intents[0]), intents[1..])
  }

  // ----- Valid states -----

  ghost predicate Normal(paths: seq<string>, sp: Spelling) {
    forall p :: p in paths ==> sp.normalize(p) == p
  }

  ghost predicate IntentValid(id: string, intent: Intent, sp: Spelling) {
    intent.intentId == id && Normal(intent.modifyPaths, sp) && Normal(intent.createPaths, sp)
  }

  ghost predicate IntentsValid(intents: IntentMap, sp: Spelling) {
    intents.Valid() && forall id :: id in intents.data ==> IntentValid(id, intents.data[id], sp)
  }

  ghost predicate IntentsBounded(intents: IntentMap, bound: nat, ids: set<string>) {
    forall id :: id in intents.data ==> id in ids && intents.data[id].eventRevision <= bound
  }

  lemma DeclareKeeps(intents: IntentMap, tracked: set<string>, intentId: string, owner: Member,
                     modifyPaths: seq<string>,
                     createPaths: seq<string>, description: string, eventRevision: nat, sp: Spelling, ids: set<string>)
    requires sp.Lawful() && IntentsValid(intents, sp)
    requires IntentsBounded(intents, eventRevision, ids)
    ensures var r := Declare(intents, tracked, intentId, owner, modifyPaths, createPaths, description, eventRevision,
                             sp);
            r.IntentOk? ==> IntentsValid(r.intents, sp) && IntentsBounded(r.intents, eventRevision, ids + {intentId})
  {
  }

  lemma UpdateKeeps(intents: IntentMap, tracked: set<string>, intentId: string, requester: Member,
                    modifyPaths: seq<string>,
                    createPaths: seq<string>, description: string, eventRevision: nat, sp: Spelling, ids: set<string>)
    requires sp.Lawful() && IntentsValid(intents, sp) && IntentsBounded(intents, eventRevision, ids)
    ensures var r := Update(intents, tracked, intentId, requester, modifyPaths, createPaths, description, eventRevision,
                            sp);
            r.IntentOk? ==> IntentsValid(r.intents, sp) && IntentsBounded(r.intents, eventRevision, ids)
  {
    if intentId in intents.data { assert IntentValid(intentId, intents.data[intentId], sp); }
  }

  lemma AllAfterKeeps(intents: IntentMap, event: PathEvent, sp: Spelling, bound: nat, ids: set<string>)
    requires sp.Lawful() && IntentsValid(intents, sp) && IntentsBounded(intents, bound, ids)
    ensures IntentsValid(AllAfter(intents, event, sp), sp) && IntentsBounded(AllAfter(intents, event, sp), bound, ids)
  {
    forall id | id in intents.data
      ensures IntentValid(id, AfterEvent(intents.data[id], event, sp), sp)
    {
      assert IntentValid(id, intents.data[id], sp);
      var intent := intents.data[id];
      if event.Renamed? {
        assert Normal(MovePath(intent.modifyPaths, sp.Key(event.fromPath), sp.normalize(event.toPath), sp), sp);
        assert Normal(MovePath(intent.createPaths, sp.Key(event.fromPath), sp.normalize(event.toPath), sp), sp);
      }
    }
  }

  lemma {:induction false} OwnedByMembers(keys: seq<string>, data: map<string, Intent>, deviceId: string)
    ensures forall i :: i in OwnedBy(keys, data, deviceId) <==>
                        exists k :: k in keys && k in data && data[k] == i && i.owner.deviceId == deviceId
  {
    if keys != [] {
      OwnedByMembers(keys[1..], data, deviceId);
      assert forall k :: k in keys <==> k == keys[0] || k in keys[1..];
    }
  }

  lemma {:induction false} KeepKeysMembers(keys: seq<string>, data: map<string, Intent>, deviceId: string)
    ensures forall k :: k in KeepKeys(keys, data, deviceId) <==>
              k in keys && k in data && data[k].owner.deviceId != deviceId
    ensures Distinct(keys) ==> Distinct(KeepKeys(keys, data, deviceId))
  {
    if keys != [] {
      KeepKeysMembers(keys[1..], data, deviceId);
      assert forall k :: k in keys <==> k == keys[0] || k in keys[1..];
      assert Distinct(keys) ==> Distinct(keys[1..]) && keys[0] !in keys[1..];
    }
  }

  lemma ExpireIntentsKeeps(intents: IntentMap, deviceId: string, sp: Spelling, bound: nat, ids: set<string>)
    requires IntentsValid(intents, sp) && IntentsBounded(intents, bound, ids)
    ensures IntentsValid(ExpireIntents(intents, deviceId), sp)
            && IntentsBounded(ExpireIntents(intents, deviceId), bound, ids)
  {
    KeepKeysMembers(intents.keys, intents.data, deviceId);
    var after := ExpireIntents(intents, deviceId);
    forall id | id in after.data ensures IntentValid(id, after.data[id], sp) {
      assert IntentValid(id, intents.data[id], sp);
    }
  }

  lemma {:induction false} RestoreIntentsFrom(intents: IntentMap, n: nat, sp: Spelling)
    requires IntentsValid(intents, sp) && n <= |intents.keys|
    ensures RestoreIntents(Prefix(intents, n), Lookup(intents.keys[n..], intents.data)) == intents
    decreases |intents.keys| - n
  {
    hide Prefix, Normal;
    if n == |intents.keys| {
      PrefixEnds(intents);
      assert Lookup(intents.keys[n..], intents.data) == [];
    } else {
      RestoreIntentsFrom(intents, n + 1, sp);
      PrefixStep(intents, n);
      var key := intents.keys[n];
      assert IntentValid(key, intents.data[key], sp);
      assert Lookup(intents.keys[n..], intents.data)[1..] == Lookup(intents.keys[n + 1..], intents.data);
    }
  }

  /** Restoring the serialised intents gives back the registry. */
  lemma IntentsRoundTrip(intents: IntentMap, sp: Spelling)
    requires IntentsValid(intents, sp)
    ensures RestoreIntents(Empty(), intents.Values()) == intents
  {
    PrefixEnds(intents);
    RestoreIntentsFrom(intents, 0, sp);
    assert intents.keys[0..] == intents.keys;
  }
}
