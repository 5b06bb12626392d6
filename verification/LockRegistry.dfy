/** The lock registry as the host updates it, proved against the operations of Locks. */
module LockRegistries {
  import opened Protocol
  import opened JsMaps
  import opened Paths
  import opened Locks
  import opened LockProofs

  /** One loop for the earliest claim, then a flag for every other one. */
  method ResolveByEarliestRevision(claims: seq<Lock>) returns (winner: Option<Lock>, resolved: seq<Lock>)
    ensures resolved == Resolved(claims)
    ensures winner == if claims == [] then None else Some(resolved[WinnerIndex(claims)])
  {
    if claims == [] {
      return None, [];
    }
    var w := 0;
    for i := 1 to |claims|
      invariant w < i && w == WinnerIndex(claims[..i])
    {
      assert claims[..i + 1][..i] == claims[..i];
      if Earlier(claims[i], claims[w]) {
        w := i;
      }
    }
    assert claims[..|claims|] == claims;
    resolved := [];
    for i := 0 to |claims|
      invariant |resolved| == i
      invariant forall j :: 0 <= j < i ==> resolved[j] == claims[j].(concurrent := claims[j].lockId != claims[w].lockId)
    {
      resolved := resolved + [claims[i].(concurrent := claims[i].lockId != claims[w].lockId)];
    }
    winner := Some(resolved[w]);
  }

  /** `claims.findIndex(lock => lock.holder.memberId === memberId)`. */
  method FindByMember(claims: seq<Lock>, memberId: string) returns (found: Option<nat>)
    ensures found == ClaimOf(claims, memberId)
  {
    for i := 0 to |claims|
      invariant forall j :: 0 <= j < i ==> claims[j].holder.memberId != memberId
    {
      if claims[i].holder.memberId == memberId {
        return Some(i);
      }
    }
    assert ClaimOf(claims, memberId).None?;
    return None;
  }

  method WithoutId(claims: seq<Lock>, lockId: string) returns (rest: seq<Lock>)
    ensures rest == Dropped(claims, lockId)
  {
    hide Dropped;
    rest := [];
    DroppedEnds(claims, lockId);
    for i := 0 to |claims|
      invariant rest + Dropped(claims[i..], lockId) == Dropped(claims, lockId)
    {
      DroppedStep(claims, i, lockId);
      Associates(rest, if claims[i].lockId == lockId then [] else [claims[i]], Dropped(claims[i + 1..], lockId));
      if claims[i].lockId != lockId {
        rest := rest + [claims[i]];
      }
    }
  }

  lemma DroppedStep(claims: seq<Lock>, i: nat, lockId: string)
    requires i < |claims|
    ensures Dropped(claims[i..], lockId) ==
            (if claims[i].lockId == lockId then [] else [claims[i]]) + Dropped(claims[i + 1..], lockId)
  {
    assert claims[i..][1..] == claims[i + 1..];
  }

  lemma DroppedEnds(claims: seq<Lock>, lockId: string)
    ensures claims[0..] == claims && Dropped(claims[|claims|..], lockId) == []
  {
  }

  function Dropped(claims: seq<Lock>, lockId: string): seq<Lock> {
    if claims == [] then []
    else (if claims[0].lockId == lockId then [] else [claims[0]]) + Dropped(claims[1..], lockId)
  }

  lemma {:induction false} DroppedNone(claims: seq<Lock>, lockId: string)
    requires lockId !in Ids(claims)
    ensures Dropped(claims, lockId) == claims
  {
    if claims != [] {
      assert claims[0].lockId in Ids(claims);
      forall i | 0 <= i < |claims[1..]| ensures claims[1..][i].lockId != lockId {
        assert claims[i + 1].lockId in Ids(claims);
      }
      DroppedNone(claims[1..], lockId);
    }
  }

  /** Among distinct ids, dropping an id removes one claim. */
  lemma {:induction false} DroppedOne(claims: seq<Lock>, i: nat)
    requires i < |claims| && IdsDistinct(claims)
    ensures Dropped(claims, claims[i].lockId) == RemoveAt(claims, i)
  {
    assert claims == [claims[0]] + claims[1..];
    ConsDistinct(claims[0], claims[1..]);
    if i == 0 {
      DroppedNone(claims[1..], claims[0].lockId);
    } else {
      assert claims[i].lockId == claims[1..][i - 1].lockId && claims[i].lockId in Ids(claims[1..]);
      DroppedOne(claims[1..], i - 1);
    }
  }

  lemma SplitStep(claims: seq<Lock>, i: nat, expiry: Expiry)
    requires i < |claims|
    ensures if Expires(claims[i], expiry) then
              Expired(claims[i..], expiry) == [claims[i]] + Expired(claims[i + 1..], expiry)
              && Survivors(claims[i..], expiry) == Survivors(claims[i + 1..], expiry)
            else
              Expired(claims[i..], expiry) == Expired(claims[i + 1..], expiry)
              && Survivors(claims[i..], expiry) == [claims[i]] + Survivors(claims[i + 1..], expiry)
  {
    assert claims[i..][1..] == claims[i + 1..];
  }

  lemma SplitEnds(claims: seq<Lock>, expiry: Expiry)
    ensures claims[0..] == claims && Expired(claims[|claims|..], expiry) == []
            && Survivors(claims[|claims|..], expiry) == []
  {
  }

  lemma ConcatStep(groups: Groups, i: nat)
    requires i < |groups.keys|
    ensures Concat(groups.keys[i..], groups.data)
         == groups.Get(groups.keys[i], []) + Concat(groups.keys[i + 1..], groups.data)
  {
    assert groups.keys[i..][1..] == groups.keys[i + 1..];
  }

  lemma ConcatEnds(groups: Groups)
    ensures groups.keys[0..] == groups.keys && Concat(groups.keys[|groups.keys|..], groups.data) == []
  {
  }

  class LockRegistry {
    const spelling: Spelling
    var groups: Groups

    constructor (spelling: Spelling)
      ensures groups == Empty() && this.spelling == spelling
    {
      this.spelling := spelling;
      groups := Empty();
    }

    method Store(key: GroupKey, claims: seq<Lock>)
      modifies `groups
      ensures groups == PutGroup(old(groups), key, claims)
    {
      if claims == [] {
        groups := groups.Delete(key);
      } else {
        var _, resolved := ResolveByEarliestRevision(claims);
        groups := groups.Set(key, resolved);
      }
    }

    method Acquire(request: Lock) returns (lock: Lock, winner: Lock, contended: bool)
      modifies `groups
      ensures Acquired(groups, lock, winner, contended) == Locks.Acquire(old(groups), request, spelling)
    {
      var key := KeyOfScope(request.scope, request.kind, spelling);
      var claims := groups.Get(key, []);
      var existing := FindByMember(claims, request.holder.memberId);
      var i := |claims|;
      if existing.Some? {
        i := existing.value;
      } else {
        claims := claims + [request.(concurrent := false)];
      }
      var first, resolved := ResolveByEarliestRevision(claims);
      groups := groups.Set(key, resolved);
      lock, winner := resolved[i], first.value;
      contended := lock.lockId != winner.lockId;
    }

    method FindTarget(target: ReleaseTarget) returns (found: Option<GroupKey>)
      ensures found == FindGroup(groups.keys, groups.data, target, spelling)
    {
      for i := 0 to |groups.keys|
        invariant FindGroup(groups.keys, groups.data, target, spelling) ==
                  FindGroup(groups.keys[i..], groups.data, target, spelling)
      {
        assert groups.keys[i..][1..] == groups.keys[i + 1..];
        var key := groups.keys[i];
        if key in groups.data && Targets(key, groups.data[key], target, spelling) {
          return Some(key);
        }
      }
      return None;
    }

    /** Only the holder of the winning lock may release it; the next claim is promoted. */
    method Release(requester: Member, target: ReleaseTarget) returns (r: Released)
      requires LocksValid(groups, spelling)
      modifies `groups
      ensures r == Locks.Release(old(groups), requester, target, spelling)
      ensures groups == if r.ReleaseOk? then r.groups else old(groups)
    {
      var found := FindTarget(target);
      if found.None? || groups.data[found.value] == [] {
        return ReleaseFailed(NoActiveLock);
      }
      var key := found.value;
      var claims := groups.data[key];
      assert GroupValid(key, claims, spelling);
      ResolvedFlags(claims);
      var winner, _ := ResolveByEarliestRevision(claims);
      if winner.value.holder.memberId != requester.memberId {
        return ReleaseFailed(NotLockHolder);
      }
      DroppedOne(claims, WinnerIndex(claims));
      var remaining := WithoutId(claims, winner.value.lockId);
      Store(key, remaining);
      return ReleaseOk(groups, winner.value, Holder(groups, key));
    }

    method WinningLock(scope: string, kind: ScopeKind) returns (winner: Option<Lock>)
      ensures winner == Holder(groups, KeyOfScope(scope, kind, spelling))
    {
      var claims := groups.Get(KeyOfScope(scope, kind, spelling), []);
      for i := 0 to |claims|
        invariant FirstUnflagged(claims) == FirstUnflagged(claims[i..])
      {
        assert claims[i..][1..] == claims[i + 1..];
        if !claims[i].concurrent {
          return Some(claims[i]);
        }
      }
      return None;
    }

    /** Remove the member's claim from one group and record it in the other. */
    method TransferPath(member: Member, fromScope: string, toScope: string, eventRevision: nat) returns (moved: bool)
      modifies `groups
      ensures var after := Locks.TransferPath(old(groups), member, fromScope, toScope, eventRevision, spelling);
              moved == after.Some? && groups == after.GetOr(old(groups))
    {
      var fromKey, toKey := KeyOfScope(fromScope, File, spelling), KeyOfScope(toScope, File, spelling);
      var claims := groups.Get(fromKey, []);
      var held := FindByMember(claims, member.memberId);
      if held.None? {
        return false;
      }
      Store(fromKey, RemoveAt(claims, held.value));
      var lock := claims[held.value].(scope := toScope, eventRevision := eventRevision, concurrent := false);
      Store(toKey, groups.Get(toKey, []) + [lock]);
      return true;
    }

    method ReleaseOnDelete(scope: string, member: Member) returns (released: bool)
      modifies `groups
      ensures var after := Locks.ReleaseOnDelete(old(groups), scope, member, spelling);
              released == after.Some? && groups == after.GetOr(old(groups))
    {
      var key := KeyOfScope(scope, File, spelling);
      var claims := groups.Get(key, []);
      var held := FindByMember(claims, member.memberId);
      if held.None? {
        return false;
      }
      Store(key, RemoveAt(claims, held.value));
      return true;
    }

    /** Split one group's claims into the expired and the surviving ones. */
    method Split(claims: seq<Lock>, expiry: Expiry) returns (expired: seq<Lock>, survivors: seq<Lock>)
      ensures expired == Expired(claims, expiry) && survivors == Survivors(claims, expiry)
    {
      hide Expired, Survivors;
      expired, survivors := [], [];
      SplitEnds(claims, expiry);
      for i := 0 to |claims|
        invariant expired + Expired(claims[i..], expiry) == Expired(claims, expiry)
        invariant survivors + Survivors(claims[i..], expiry) == Survivors(claims, expiry)
      {
        SplitStep(claims, i, expiry);
        if Expires(claims[i], expiry) {
          Associates(expired, [claims[i]], Expired(claims[i + 1..], expiry));
          expired := expired + [claims[i]];
        } else {
          Associates(survivors, [claims[i]], Survivors(claims[i + 1..], expiry));
          survivors := survivors + [claims[i]];
        }
      }
    }

    /** Remove every claim of a device, or every old soft claim, group by group. */
    method Expire(expiry: Expiry) returns (removed: seq<Lock>)
      modifies `groups
      ensures (groups, removed) == ExpireLocks(old(groups), expiry)
    {
      hide Survivors, Expired, PutGroup;
      ghost var all := ExpireLocks(groups, expiry);
      var keys := groups.keys;
      removed := [];
      for i := 0 to |keys|
        invariant ExpireGroups(keys[i..], groups, expiry).0 == all.0
        invariant removed + ExpireGroups(keys[i..], groups, expiry).1 == all.1
      {
        assert keys[i..][1..] == keys[i + 1..];
        var claims := groups.Get(keys[i], []);
        var expired, survivors := Split(claims, expiry);
        if |survivors| != |claims| {
          Store(keys[i], survivors);
        }
        Associates(removed, expired, ExpireGroups(keys[i + 1..], groups, expiry).1);
        removed := removed + expired;
      }
      assert keys[|keys|..] == [] && removed + [] == removed;
    }

    method AllLocks() returns (all: seq<Lock>)
      ensures all == Locks.AllLocks(groups)
    {
      hide Concat;
      all := [];
      ConcatEnds(groups);
      for i := 0 to |groups.keys|
        invariant all + Concat(groups.keys[i..], groups.data) == Concat(groups.keys, groups.data)
      {
        ConcatStep(groups, i);
        Associates(all, groups.Get(groups.keys[i], []), Concat(groups.keys[i + 1..], groups.data));
        all := all + groups.Get(groups.keys[i], []);
      }
    }

    /** Replace everything by a snapshot's locks, regrouped and resolved again. */
    method Restore(locks: seq<Lock>)
      modifies `groups
      ensures groups == RestoreLocks(locks, spelling)
    {
      groups := Empty();
      for i := 0 to |locks|
        invariant groups.Valid()
        invariant Regroup(groups, locks[i..], spelling) == Regroup(Empty(), locks, spelling)
      {
        assert locks[i..][1..] == locks[i + 1..];
        groups := AddToGroup(groups, locks[i], spelling);
      }
      assert locks[|locks|..] == [];
      ResolveEvery();
    }

    method ResolveEvery()
      requires groups.Valid()
      modifies `groups
      ensures groups == ResolveAll(old(groups))
    {
      hide Resolved, Distinct;
      var keys := groups.keys;
      for i := 0 to |keys|
        invariant groups.keys == keys && groups.data.Keys == old(groups).data.Keys
        invariant forall j :: 0 <= j < i ==> groups.data[keys[j]] == Resolved(old(groups).data[keys[j]])
        invariant forall j :: i <= j < |keys| ==> groups.data[keys[j]] == old(groups).data[keys[j]]
      {
        assert keys[i] in keys;
        var _, resolved := ResolveByEarliestRevision(groups.data[keys[i]]);
        KeysDiffer(keys, i);
        groups := groups.Set(keys[i], resolved);
      }
      forall g | g in groups.data ensures groups.data[g] == Resolved(old(groups).data[g]) {
        assert g in keys;
      }
    }
  }

  lemma KeysDiffer(keys: seq<GroupKey>, i: nat)
    requires Distinct(keys) && i < |keys|
    ensures forall j :: 0 <= j < |keys| && j != i ==> keys[j] != keys[i]
  {
  }
}
