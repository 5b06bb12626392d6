/** The intent and presence registries as the host updates them, proved against the
    operations of Intents and Presences. */
module IntentRegistries {
  import opened Protocol
  import opened JsMaps
  import opened Paths
  import opened Intents
  import opened Presences

  lemma AffectedStep(keys: seq<string>, i: nat, data: map<string, Intent>, event: PathEvent, sp: Spelling)
    requires i < |keys| && keys[i] in data
    ensures Affected(keys[i..], data, event, sp) ==
            (if Affects(data[keys[i]], event, sp) then [AfterEvent(data[keys[i]], event, sp)] else [])
            + Affected(keys[i + 1..], data, event, sp)
  {
    hide Affects, AfterEvent;
    assert keys[i..][1..] == keys[i + 1..];
  }

  lemma AffectedNone(keys: seq<string>, data: map<string, Intent>, event: PathEvent, sp: Spelling)
    ensures Affected(keys[|keys|..], data, event, sp) == []
    ensures keys[0..] == keys
  {
  }

  /** The registry once the first `n` intents are rewritten. */
  ghost function RewrittenUpTo(before: IntentMap, n: nat, event: PathEvent, sp: Spelling): IntentMap
    requires n <= |before.keys|
  {
    JsMap(before.keys, RewrittenData(before.data, before.keys[..n], event, sp))
  }

  ghost function RewrittenData(data: map<string, Intent>, done: seq<string>, event: PathEvent,
                               sp: Spelling): map<string, Intent>
  {
    map id | id in data :: if id in done then AfterEvent(data[id], event, sp) else data[id]
  }

  lemma RewrittenDataStep(data: map<string, Intent>, done: seq<string>, id: string, event: PathEvent, sp: Spelling)
    requires id in data && id !in done
    ensures id in RewrittenData(data, done, event, sp) && RewrittenData(data, done, event, sp)[id] == data[id]
    ensures RewrittenData(data, done + [id], event, sp) ==
            RewrittenData(data, done, event, sp)[id := AfterEvent(data[id], event, sp)]
  {
    hide AfterEvent;
  }

  lemma RewrittenEnds(before: IntentMap, event: PathEvent, sp: Spelling)
    requires before.Valid()
    ensures RewrittenUpTo(before, 0, event, sp) == before
    ensures RewrittenUpTo(before, |before.keys|, event, sp) == AllAfter(before, event, sp)
    ensures before.keys[0..] == before.keys
  {
    hide Affects, AfterEvent;
    assert before.keys[..|before.keys|] == before.keys;
    assert forall id :: id in before.data ==> id in before.keys;
    assert RewrittenUpTo(before, 0, event, sp).data == before.data;
    assert RewrittenUpTo(before, |before.keys|, event, sp).data == AllAfter(before, event, sp).data;
  }

  lemma RewrittenStep(before: IntentMap, n: nat, event: PathEvent, sp: Spelling)
    requires before.Valid() && n < |before.keys|
    ensures var at := RewrittenUpTo(before, n, event, sp); var id := before.keys[n];
            && id in before.data && id in at.data && at.data[id] == before.data[id]
            && RewrittenUpTo(before, n + 1, event, sp) ==
               if Affects(before.data[id], event, sp) then at.Set(id, AfterEvent(before.data[id], event, sp)) else at
  {
    hide Affects, AfterEvent, Distinct, RewrittenData;
    var id := before.keys[n];
    KeyApart(before.keys, n);
    assert id in before.keys && before.keys[..n + 1] == before.keys[..n] + [id];
    UnaffectedStays(before.data[id], event, sp);
    RewrittenDataStep(before.data, before.keys[..n], id, event, sp);
  }

  lemma UnaffectedStays(intent: Intent, event: PathEvent, sp: Spelling)
    ensures !Affects(intent, event, sp) ==> AfterEvent(intent, event, sp) == intent
  {
  }

  /** The registry once the device's intents among the first `n` are removed. */
  ghost function ExpiredUpTo(before: IntentMap, n: nat, deviceId: string): IntentMap
    requires n <= |before.keys|
  {
    JsMap(KeepKeys(before.keys[..n], before.data, deviceId) + before.keys[n..],
          KeptData(before.data, before.keys[..n], deviceId))
  }

  /** The intents that remain once the device's among `done` are removed. */
  ghost function KeptData(data: map<string, Intent>, done: seq<string>, deviceId: string): map<string, Intent> {
    map id | id in data && (id !in done || data[id].owner.deviceId != deviceId) :: data[id]
  }

  lemma KeptDataStep(data: map<string, Intent>, done: seq<string>, id: string, deviceId: string)
    requires id in data && id !in done
    ensures id in KeptData(data, done, deviceId) && KeptData(data, done, deviceId)[id] == data[id]
    ensures KeptData(data, done + [id], deviceId) ==
            if data[id].owner.deviceId ==
               deviceId then KeptData(data, done, deviceId) - {id} else KeptData(data, done, deviceId)
  {
  }

  lemma ExpiredEnds(before: IntentMap, deviceId: string)
    requires before.Valid()
    ensures ExpiredUpTo(before, 0, deviceId) == before
    ensures ExpiredUpTo(before, |before.keys|, deviceId) == ExpireIntents(before, deviceId)
    ensures before.keys[0..] == before.keys && OwnedBy(before.keys[|before.keys|..], before.data, deviceId) == []
  {
    var n := |before.keys|;
    assert before.keys[..n] == before.keys && before.keys[n..] == [];
    assert forall id :: id in before.data ==> id in before.keys;
    assert ExpiredUpTo(before, 0, deviceId).data == before.data;
    assert ExpiredUpTo(before, n, deviceId).data == ExpireIntents(before, deviceId).data;
    assert KeepKeys(before.keys, before.data, deviceId) + [] == KeepKeys(before.keys, before.data, deviceId);
  }

  lemma {:induction false} KeepKeysAppend(keys: seq<string>, key: string, data: map<string, Intent>, deviceId: string)
    ensures KeepKeys(keys + [key], data, deviceId) ==
            KeepKeys(keys, data, deviceId) + (if key in data && data[key].owner.deviceId != deviceId then [key] else [])
  {
    if keys == [] {
      assert [] + [key] == [key] && [key][1..] == [];
    } else {
      assert (keys + [key])[1..] == keys[1..] + [key];
      KeepKeysAppend(keys[1..], key, data, deviceId);
    }
  }

  lemma ExpiredKeys(before: IntentMap, n: nat, deviceId: string)
    requires before.Valid() && n < |before.keys|
    ensures var id := before.keys[n];
            && id in before.data
            && ExpiredUpTo(before, n + 1, deviceId).keys ==
               (if before.data[id].owner.deviceId == deviceId then Without(ExpiredUpTo(before, n, deviceId).keys, id)
                else ExpiredUpTo(before, n, deviceId).keys)
            && OwnedBy(before.keys[n..], before.data, deviceId) ==
               (if before.data[id].owner.deviceId == deviceId then [before.data[id]] else [])
                 + OwnedBy(before.keys[n + 1..], before.data, deviceId)
  {
    hide KeepKeys, OwnedBy, Distinct, Without;
    assert before.keys[n] in before.keys;
    KeptStep(before.keys, n, before.data, deviceId);
    OwnedStep(before.keys, n, before.data, deviceId);
  }

  lemma KeptStep(keys: seq<string>, n: nat, data: map<string, Intent>, deviceId: string)
    requires Distinct(keys) && n < |keys| && keys[n] in data
    ensures KeepKeys(keys[..n + 1], data, deviceId) + keys[n + 1..] ==
            if data[keys[n]].owner.deviceId ==
               deviceId then Without(KeepKeys(keys[..n], data, deviceId) + keys[n..], keys[n])
            else KeepKeys(keys[..n], data, deviceId) + keys[n..]
  {
    hide Distinct, Without, KeepKeys;
    var id, front, back := keys[n], KeepKeys(keys[..n], data, deviceId), keys[n + 1..];
    KeyApart(keys, n);
    assert keys[..n + 1] == keys[..n] + [id] && keys[n..] == [id] + back;
    KeepKeysAppend(keys[..n], id, data, deviceId);
    Associates(front, [id], back);
    if data[id].owner.deviceId == deviceId {
      assert front + [] == front;
      KeepKeysMembers(keys[..n], data, deviceId);
      WithoutMiddle(front, id, back);
    }
  }

  lemma OwnedStep(keys: seq<string>, n: nat, data: map<string, Intent>, deviceId: string)
    requires n < |keys| && keys[n] in data
    ensures OwnedBy(keys[n..], data, deviceId) ==
            (if data[keys[n]].owner.deviceId == deviceId then [data[keys[n]]] else [])
              + OwnedBy(keys[n + 1..], data, deviceId)
  {
    assert keys[n..][1..] == keys[n + 1..];
  }

  lemma ExpiredStep(before: IntentMap, n: nat, deviceId: string)
    requires before.Valid() && n < |before.keys|
    ensures var at := ExpiredUpTo(before, n, deviceId); var id := before.keys[n];
            && id in before.data && id in at.data && at.data[id] == before.data[id]
            && ExpiredUpTo(before, n + 1, deviceId) ==
               (if before.data[id].owner.deviceId == deviceId then at.Delete(id) else at)
            && OwnedBy(before.keys[n..], before.data, deviceId) ==
               (if before.data[id].owner.deviceId == deviceId then [before.data[id]] else [])
                 + OwnedBy(before.keys[n + 1..], before.data, deviceId)
  {
    hide KeepKeys, Distinct, Without, OwnedBy, KeptData;
    var id := before.keys[n];
    ExpiredKeys(before, n, deviceId);
    KeyApart(before.keys, n);
    assert before.keys[..n + 1] == before.keys[..n] + [id];
    KeptDataStep(before.data, before.keys[..n], id, deviceId);
  }

  lemma KeyApart(keys: seq<string>, i: nat)
    requires Distinct(keys) && i < |keys|
    ensures keys[i] !in keys[..i] && keys[i] !in keys[i + 1..]
  {
  }

  class IntentRegistry {
    const spelling: Spelling
    var intents: IntentMap
    var tracked: set<string>

    constructor (spelling: Spelling)
      ensures intents == Empty() && tracked == {} && this.spelling == spelling
    {
      this.spelling := spelling;
      intents := Empty();
      tracked := {};
    }

    /** A create path of an existing file becomes a modify path. */
    method ReclassifyPaths(modifyPaths: seq<string>, createPaths: seq<string>)
      returns (edits: seq<string>, creations: seq<string>)
      ensures (edits, creations) == Reclassify(tracked, NormalizeAll(modifyPaths, spelling), createPaths, spelling)
    {
      edits, creations := NormalizeAll(modifyPaths, spelling), [];
      ghost var all := Reclassify(tracked, edits, createPaths, spelling);
      for i := 0 to |createPaths|
        invariant var rest := Reclassify(tracked, edits, createPaths[i..], spelling);
                  rest.0 == all.0 && creations + rest.1 == all.1
      {
        assert createPaths[i..][1..] == createPaths[i + 1..];
        var normalized := spelling.normalize(createPaths[i]);
        if spelling.Key(createPaths[i]) in tracked {
          if normalized !in edits {
            edits := edits + [normalized];
          }
        } else {
          Associates(creations, [normalized], Reclassify(tracked, edits, createPaths[i + 1..], spelling).1);
          creations := creations + [normalized];
        }
      }
      assert createPaths[|createPaths|..] == [] && creations + [] == creations;
    }

    method Declare(intentId: string, owner: Member, modifyPaths: seq<string>, createPaths: seq<string>,
                   description: string,
                   eventRevision: nat) returns (r: IntentResult)
      modifies `intents
      ensures r == Intents.Declare(old(intents), tracked, intentId, owner, modifyPaths, createPaths, description,
                                   eventRevision, spelling)
      ensures intents == if r.IntentOk? then r.intents else old(intents)
    {
      if !Acceptable(modifyPaths, createPaths) {
        return IntentFailed(FormatError);
      }
      var edits, creations := ReclassifyPaths(modifyPaths, createPaths);
      var intent := Intent(intentId, owner, edits, creations, description, eventRevision);
      intents := intents.Set(intentId, intent);
      return IntentOk(intents, intent);
    }

    method Update(intentId: string, requester: Member, modifyPaths: seq<string>, createPaths: seq<string>,
                  description: string,
                  eventRevision: nat) returns (r: IntentResult)
      modifies `intents
      ensures r == Intents.Update(old(intents), tracked, intentId, requester, modifyPaths, createPaths, description,
                                  eventRevision, spelling)
      ensures intents == if r.IntentOk? then r.intents else old(intents)
    {
      if intentId !in intents.data {
        return IntentFailed(NotFound);
      }
      var stored := intents.data[intentId];
      if stored.owner.memberId != requester.memberId {
        return IntentFailed(NotOwner);
      }
      if !Acceptable(modifyPaths, createPaths) {
        return IntentFailed(FormatError);
      }
      var edits, creations := ReclassifyPaths(modifyPaths, createPaths);
      var intent := stored.(modifyPaths := edits, createPaths := creations, description := description,
                            eventRevision := eventRevision);
      intents := intents.Set(intentId, intent);
      return IntentOk(intents, intent);
    }

    method Withdraw(intentId: string, requester: Member) returns (r: IntentResult)
      modifies `intents
      ensures r == Intents.Withdraw(old(intents), intentId, requester)
      ensures intents == if r.IntentOk? then r.intents else old(intents)
    {
      if intentId !in intents.data {
        return IntentFailed(NotFound);
      }
      var stored := intents.data[intentId];
      if stored.owner.memberId != requester.memberId {
        return IntentFailed(NotOwner);
      }
      intents := intents.Delete(intentId);
      return IntentOk(intents, stored);
    }

    /** Rewrite every intent that the event affects, and list the rewritten ones. */
    method Rewrite(event: PathEvent) returns (updated: seq<Intent>)
      requires intents.Valid()
      modifies `intents
      ensures intents == AllAfter(old(intents), event, spelling)
      ensures updated == Affected(old(intents).keys, old(intents).data, event, spelling)
    {
      hide Affects, AfterEvent, Affected, Distinct, RewrittenUpTo;
      ghost var before := intents;
      var keys := intents.keys;
      updated := [];
      RewrittenEnds(before, event, spelling);
      for i := 0 to |keys|
        invariant intents == RewrittenUpTo(before, i, event, spelling)
        invariant updated + Affected(keys[i..], before.data, event, spelling) ==
                  Affected(keys, before.data, event, spelling)
      {
        RewrittenStep(before, i, event, spelling);
        AffectedStep(keys, i, before.data, event, spelling);
        var stored := intents.data[keys[i]];
        if Affects(stored, event, spelling) {
          var changed := AfterEvent(stored, event, spelling);
          intents := intents.Set(keys[i], changed);
          Associates(updated, [changed], Affected(keys[i + 1..], before.data, event, spelling));
          updated := updated + [changed];
        }
      }
      AffectedNone(keys, before.data, event, spelling);
      assert updated + [] == updated;
    }

    method RenamePath(fromPath: string, toPath: string) returns (updated: seq<Intent>)
      requires intents.Valid()
      modifies this
      ensures intents == AllAfter(old(intents), Renamed(fromPath, toPath), spelling)
      ensures tracked == TrackedAfter(old(tracked), Renamed(fromPath, toPath), spelling)
      ensures updated == Affected(old(intents).keys, old(intents).data, Renamed(fromPath, toPath), spelling)
    {
      updated := Rewrite(Renamed(fromPath, toPath));
      if spelling.Key(fromPath) in tracked {
        tracked := tracked - {spelling.Key(fromPath)};
        tracked := tracked + {spelling.Key(toPath)};
      }
    }

    method DeletePathForMember(path: string, member: Member) returns (updated: seq<Intent>)
      requires intents.Valid()
      modifies this
      ensures intents == AllAfter(old(intents), DeletedBy(path, member.memberId), spelling)
      ensures tracked == TrackedAfter(old(tracked), DeletedBy(path, member.memberId), spelling)
      ensures updated == Affected(old(intents).keys, old(intents).data, DeletedBy(path, member.memberId), spelling)
    {
      updated := Rewrite(DeletedBy(path, member.memberId));
      tracked := tracked - {spelling.Key(path)};
    }

    method ReconcileCreation(path: string) returns (removedFrom: seq<Intent>)
      requires intents.Valid()
      modifies this
      ensures intents == AllAfter(old(intents), Created(path), spelling)
      ensures tracked == TrackedAfter(old(tracked), Created(path), spelling)
      ensures removedFrom == Affected(old(intents).keys, old(intents).data, Created(path), spelling)
    {
      tracked := tracked + {spelling.Key(path)};
      removedFrom := Rewrite(Created(path));
    }

    /** Remove every intent of a device and list them. */
    method ExpireByDevice(deviceId: string) returns (removed: seq<Intent>)
      requires intents.Valid()
      modifies `intents
      ensures intents == ExpireIntents(old(intents), deviceId)
      ensures removed == OwnedBy(old(intents).keys, old(intents).data, deviceId)
    {
      hide Distinct, OwnedBy, KeepKeys, ExpiredUpTo;
      ghost var before := intents;
      var keys := intents.keys;
      removed := [];
      ExpiredEnds(before, deviceId);
      for i := 0 to |keys|
        invariant removed + OwnedBy(keys[i..], before.data, deviceId) == OwnedBy(keys, before.data, deviceId)
        invariant intents == ExpiredUpTo(before, i, deviceId)
      {
        ExpiredStep(before, i, deviceId);
        var stored := intents.data[keys[i]];
        if stored.owner.deviceId == deviceId {
          intents := intents.Delete(keys[i]);
          Associates(removed, [stored], OwnedBy(keys[i + 1..], before.data, deviceId));
          removed := removed + [stored];
        }
      }
      assert removed + [] == removed;
    }

    method Restore(snapshot: seq<Intent>)
      modifies `intents
      ensures intents == RestoreIntents(Empty(), snapshot)
    {
      intents := Empty();
      for i := 0 to |snapshot|
        invariant RestoreIntents(intents, snapshot[i..]) == RestoreIntents(Empty(), snapshot)
      {
        assert snapshot[i..][1..] == snapshot[i + 1..];
        intents := intents.Set(snapshot[i].intentId, snapshot[i]);
      }
      assert snapshot[|snapshot|..] == [];
    }
  }

  // ----- Presence -----

  class PresenceRegistry {
    const spelling: Spelling
    var presence: PresenceMap

    constructor (spelling: Spelling)
      ensures presence == Empty() && this.spelling == spelling
    {
      this.spelling := spelling;
      presence := Empty();
    }

    method Report(member: Member, path: string, state: PresenceState, eventRevision: nat)
      modifies `presence
      ensures presence == Presences.Report(old(presence), member, path, state, eventRevision, spelling)
    {
      var key := KeyOfPresence(member, path, spelling);
      if key in presence.data && eventRevision < presence.data[key].eventRevision {
        return;
      }
      presence := presence.Set(key, PresenceRecord(member, spelling.normalize(path), state, eventRevision));
    }

    /** Stop every active record of a device, each with its own next revision. */
    method StopActiveForDevice(deviceId: string, firstRevision: nat) returns (stopped: seq<PresenceRecord>)
      modifies `presence
      ensures stopped == ActiveForDevice(old(presence).keys, old(presence).data, deviceId)
      ensures presence == StopAll(old(presence), stopped, firstRevision, spelling)
    {
      hide Presences.Report, ActiveForDevice;
      stopped := ActiveForDevice(presence.keys, presence.data, deviceId);
      for i := 0 to |stopped|
        invariant StopAll(presence, stopped[i..], firstRevision + i, spelling) ==
                  StopAll(old(presence), stopped, firstRevision, spelling)
      {
        assert stopped[i..][1..] == stopped[i + 1..];
        Report(stopped[i].member, stopped[i].path, Stopped, firstRevision + i);
      }
      assert stopped[|stopped|..] == [];
    }

    method Restore(snapshot: seq<PresenceRecord>)
      modifies `presence
      ensures presence == RestorePresence(Empty(), snapshot, spelling)
    {
      presence := Empty();
      for i := 0 to |snapshot|
        invariant RestorePresence(presence, snapshot[i..], spelling) == RestorePresence(Empty(), snapshot, spelling)
      {
        assert snapshot[i..][1..] == snapshot[i + 1..];
        var item := snapshot[i];
        var key := KeyOfPresence(item.member, item.path, spelling);
        if key !in presence.data || item.eventRevision >= presence.data[key].eventRevision {
          presence := presence.Set(key, item.(path := spelling.normalize(item.path)));
        }
      }
      assert snapshot[|snapshot|..] == [];
    }
  }
}
