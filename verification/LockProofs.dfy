/** What every lock operation keeps, and how it moves the winners. */
module LockProofs {
  import opened Protocol
  import opened JsMaps
  import opened Paths
  import opened Locks

  /** The claims may form group `key`: distinct ids of that group's scope, used nowhere else. */
  ghost predicate Fits(groups: Groups, key: GroupKey, claims: seq<Lock>, sp: Spelling) {
    && IdsDistinct(claims)
    && (forall i :: 0 <= i < |claims| ==> KeyOfScope(claims[i].scope, claims[i].kind, sp) == key)
    && forall h :: h in groups.data && h != key ==> Ids(groups.data[h]) !! Ids(claims)
  }

  lemma ResolvedGroupValid(key: GroupKey, claims: seq<Lock>, sp: Spelling)
    requires claims != [] && IdsDistinct(claims)
    requires forall i :: 0 <= i < |claims| ==> KeyOfScope(claims[i].scope, claims[i].kind, sp) == key
    ensures GroupValid(key, Resolved(claims), sp)
    ensures FirstUnflagged(Resolved(claims)) == Some(claims[WinnerIndex(claims)].(concurrent := false))
    ensures Ids(Resolved(claims)) == Ids(claims)
  {
    ResolvedFlags(claims);
  }

  lemma PutGroupValid(groups: Groups, key: GroupKey, claims: seq<Lock>, sp: Spelling)
    requires LocksValid(groups, sp) && Fits(groups, key, claims, sp)
    ensures LocksValid(PutGroup(groups, key, claims), sp)
    ensures forall h :: h != key ==> Holder(PutGroup(groups, key, claims), h) == Holder(groups, h)
    ensures Holder(PutGroup(groups, key, claims), key) ==
            if claims == [] then None else Some(claims[WinnerIndex(claims)].(concurrent := false))
  {
    hide GroupValid, IdsDistinct, Resolved, Ids;
    var after := PutGroup(groups, key, claims);
    if claims != [] {
      ResolvedGroupValid(key, claims, sp);
    }
    forall g | g in after.data
      ensures GroupValid(g, after.data[g], sp)
    {
      assert g != key ==> after.data[g] == groups.data[g];
    }
    forall g, h | g in after.data && h in after.data && g != h
      ensures Ids(after.data[g]) !! Ids(after.data[h])
    {
      assert g != key ==> after.data[g] == groups.data[g];
      assert h != key ==> after.data[h] == groups.data[h];
    }
  }

  /** A valid group shows its winner. */
  lemma HolderIsWinner(groups: Groups, key: GroupKey, sp: Spelling)
    requires LocksValid(groups, sp)
    ensures Holder(groups, key) == if key in groups.data then Some(groups.data[key][WinnerIndex(groups.data[key])])
            else None
    ensures Holder(groups, key).Some? ==>
              && !Holder(groups, key).value.concurrent
              && KeyOfScope(Holder(groups, key).value.scope, Holder(groups, key).value.kind, sp) == key
  {
    if key in groups.data {
      assert GroupValid(key, groups.data[key], sp);
      ResolvedFlags(groups.data[key]);
    }
  }

  /** Removing a claim that is not the winner leaves the winner in place. */
  lemma RemoveKeepsWinner(claims: seq<Lock>, i: nat)
    requires i < |claims| && IdsDistinct(claims) && WinnerIndex(claims) != i
    ensures RemoveAt(claims, i) != []
    ensures RemoveAt(claims, i)[WinnerIndex(RemoveAt(claims, i))] == claims[WinnerIndex(claims)]
  {
    hide IdsDistinct, Earlier, RemoveAt, Ids;
    RemoveAtFacts(claims, i);
    WinnerIsEarliest(claims);
    var w := WinnerIndex(claims);
    EarliestIsWinner(RemoveAt(claims, i), if w < i then w else w - 1);
  }

  lemma RemoveAtFacts(claims: seq<Lock>, i: nat)
    requires i < |claims| && IdsDistinct(claims)
    ensures var rest := RemoveAt(claims, i);
            && IdsDistinct(rest)
            && Ids(rest) <= Ids(claims) && claims[i].lockId in Ids(claims) && claims[i].lockId !in Ids(rest)
            && forall c :: c in rest ==> c in claims
  {
    hide RemoveAt;
  }

  lemma AppendFacts(claims: seq<Lock>, last: Lock)
    requires IdsDistinct(claims) && last.lockId !in Ids(claims)
    ensures IdsDistinct(claims + [last])
    ensures Ids(claims + [last]) == Ids(claims) + {last.lockId}
  {
    var all := claims + [last];
    assert forall i :: 0 <= i < |claims| ==> all[i] == claims[i] && claims[i].lockId in Ids(claims);
    assert all[|claims|].lockId == last.lockId;
  }

  lemma SubgroupFits(groups: Groups, key: GroupKey, i: nat, sp: Spelling)
    requires LocksValid(groups, sp) && key in groups.data && i < |groups.data[key]|
    ensures Fits(groups, key, RemoveAt(groups.data[key], i), sp)
  {
    var claims := groups.data[key];
    assert GroupValid(key, claims, sp);
    RemoveAtFacts(claims, i);
    var rest := RemoveAt(claims, i);
    forall j | 0 <= j < |rest|
      ensures KeyOfScope(rest[j].scope, rest[j].kind, sp) == key
    {
      assert rest[j] in claims;
    }
  }

  lemma AppendFits(groups: Groups, key: GroupKey, last: Lock, sp: Spelling)
    requires LocksValid(groups, sp) && KeyOfScope(last.scope, last.kind, sp) == key
    requires forall g :: g in groups.data ==> last.lockId !in Ids(groups.data[g])
    ensures Fits(groups, key, groups.Get(key, []) + [last], sp)
  {
    var claims := groups.Get(key, []);
    assert claims != [] ==> GroupValid(key, claims, sp);
    AppendFacts(claims, last);
  }

  lemma AppendBounded(claims: seq<Lock>, last: Lock, bound: nat, ids: set<string>)
    requires ClaimsBounded(claims, bound, ids) && last.eventRevision <= bound && last.lockId in ids
    ensures ClaimsBounded(claims + [last], bound, ids)
  {
  }

  lemma PutGroupBounded(groups: Groups, key: GroupKey, claims: seq<Lock>, bound: nat, ids: set<string>)
    requires Bounded(groups, bound, ids) && ClaimsBounded(claims, bound, ids)
    ensures Bounded(PutGroup(groups, key, claims), bound, ids)
  {
    var after := PutGroup(groups, key, claims);
    forall g | g in after.data
      ensures ClaimsBounded(after.data[g], bound, ids)
    {
      if g != key {
        assert after.data[g] == groups.data[g];
      } else {
        forall c | c in Resolved(claims) ensures c.eventRevision <= bound && c.lockId in ids {
          var i :| 0 <= i < |claims| && Resolved(claims)[i] == c;
          assert claims[i] in claims;
        }
      }
    }
  }

  lemma BoundedMore(groups: Groups, bound: nat, ids: set<string>, bound': nat, ids': set<string>)
    requires Bounded(groups, bound, ids) && bound <= bound' && ids <= ids'
    ensures Bounded(groups, bound', ids')
  {
    forall g | g in groups.data ensures ClaimsBounded(groups.data[g], bound', ids') {
      assert ClaimsBounded(groups.data[g], bound, ids);
    }
  }

  lemma FreshId(groups: Groups, bound: nat, ids: set<string>, id: string)
    requires Bounded(groups, bound, ids) && id !in ids
    ensures forall g :: g in groups.data ==> id !in Ids(groups.data[g])
  {
    forall g | g in groups.data ensures id !in Ids(groups.data[g]) {
      assert ClaimsBounded(groups.data[g], bound, ids);
    }
  }

  /** A member that already has a claim changes nothing by acquiring again. */
  lemma ReacquireKeeps(groups: Groups, request: Lock, sp: Spelling)
    requires LocksValid(groups, sp)
    requires ClaimOf(groups.Get(KeyOfScope(request.scope, request.kind, sp), []), request.holder.memberId).Some?
    ensures var after := Acquire(groups, request, sp); var key := KeyOfScope(request.scope, request.kind, sp);
            after.groups == groups && Holder(groups, key) == Some(after.winner)
  {
    var key := KeyOfScope(request.scope, request.kind, sp);
    var claims := groups.data[key];
    assert GroupValid(key, claims, sp);
    HolderIsWinner(groups, key, sp);
    ResolvedFlags(claims);
    assert groups.data[key := Resolved(claims)] == groups.data;
  }

  lemma AppendClaim(groups: Groups, key: GroupKey, last: Lock, sp: Spelling, ids: set<string>)
    requires LocksValid(groups, sp) && last.eventRevision > 0 && KeyOfScope(last.scope, last.kind, sp) == key
             && !last.concurrent
    requires Bounded(groups, last.eventRevision - 1, ids)
    requires forall g :: g in groups.data ==> last.lockId !in Ids(groups.data[g])
    ensures var all := groups.Get(key, []) + [last]; var after := PutGroup(groups, key, all);
            && LocksValid(after, sp) && Bounded(after, last.eventRevision, ids + {last.lockId})
            && Holder(after, key) == Some(Holder(groups, key).GetOr(last))
            && Holder(after, key) == Some(Resolved(all)[WinnerIndex(all)])
            && (forall h :: h != key ==> Holder(after, h) == Holder(groups, h))
  {
    hide LocksValid, Bounded, IdsDistinct, PutGroup, Holder, Ids;
    var claims := groups.Get(key, []);
    var all := claims + [last];
    AppendFits(groups, key, last, sp);
    PutGroupValid(groups, key, all, sp);
    BoundedMore(groups, last.eventRevision - 1, ids, last.eventRevision, ids + {last.lockId});
    assert ClaimsBounded(claims, last.eventRevision - 1, ids) by {
      if key in groups.data { GroupBounded(groups, key, last.eventRevision - 1, ids); }
    }
    AppendBounded(claims, last, last.eventRevision, ids + {last.lockId});
    PutGroupBounded(groups, key, all, last.eventRevision, ids + {last.lockId});
    HolderIsWinner(groups, key, sp);
    if claims != [] {
      LockGroupValid(groups, key, sp);
      ResolvedFlags(claims);
    }
    ResolvedFlags(all);
  }

  lemma AcquireKeeps(groups: Groups, request: Lock, sp: Spelling, ids: set<string>)
    requires LocksValid(groups, sp) && request.eventRevision > 0
    requires Bounded(groups, request.eventRevision - 1, ids) && request.lockId !in ids
    ensures var after := Acquire(groups, request, sp); var key := KeyOfScope(request.scope, request.kind, sp);
            && LocksValid(after.groups, sp)
            && Bounded(after.groups, request.eventRevision, ids + {request.lockId})
            && Holder(after.groups, key) == Some(after.winner)
            && (forall h :: h != key ==> Holder(after.groups, h) == Holder(groups, h))
            && after.winner == Holder(groups, key).GetOr(request.(concurrent := false))
  {
    hide LocksValid, Bounded, Resolved, Ids, Holder;
    var key := KeyOfScope(request.scope, request.kind, sp);
    if ClaimOf(groups.Get(key, []), request.holder.memberId).Some? {
      ReacquireKeeps(groups, request, sp);
      BoundedMore(groups, request.eventRevision - 1, ids, request.eventRevision, ids + {request.lockId});
    } else {
      FreshId(groups, request.eventRevision - 1, ids, request.lockId);
      AppendClaim(groups, key, request.(concurrent := false), sp, ids);
      assert Acquire(groups, request, sp).groups ==
             PutGroup(groups, key, groups.Get(key, []) + [request.(concurrent := false)]);
    }
  }

  lemma WinnerIdIn(claims: seq<Lock>)
    requires claims != []
    ensures claims[WinnerIndex(claims)].lockId in Ids(claims)
  {
  }

  lemma GroupBounded(groups: Groups, key: GroupKey, bound: nat, ids: set<string>)
    requires Bounded(groups, bound, ids) && key in groups.data
    ensures ClaimsBounded(groups.data[key], bound, ids)
  {
  }

  lemma RemovedBounded(groups: Groups, key: GroupKey, i: nat, bound: nat, ids: set<string>)
    requires Bounded(groups, bound, ids) && key in groups.data && i < |groups.data[key]|
    ensures Bounded(PutGroup(groups, key, RemoveAt(groups.data[key], i)), bound, ids)
  {
    assert ClaimsBounded(groups.data[key], bound, ids);
    PutGroupBounded(groups, key, RemoveAt(groups.data[key], i), bound, ids);
  }

  /** Removing one claim: the group's winner stays unless it was the one removed. */
  lemma RemoveClaimKeeps(groups: Groups, key: GroupKey, i: nat, sp: Spelling, bound: nat, ids: set<string>)
    requires LocksValid(groups, sp) && key in groups.data && i < |groups.data[key]|
    requires Bounded(groups, bound, ids)
    ensures var after := PutGroup(groups, key, RemoveAt(groups.data[key], i));
            && LocksValid(after, sp) && Bounded(after, bound, ids)
            && (forall h :: h != key ==> Holder(after, h) == Holder(groups, h))
            && (i != WinnerIndex(groups.data[key]) ==> Holder(after, key) == Holder(groups, key))
            && (Holder(after, key).Some? ==> Holder(after, key).value.lockId != groups.data[key][i].lockId)
  {
    hide LocksValid, Bounded, Ids, IdsDistinct, RemoveAt, Holder, PutGroup;
    var claims := groups.data[key];
    LockGroupValid(groups, key, sp);
    var rest := RemoveAt(claims, i);
    RemoveAtFacts(claims, i);
    SubgroupFits(groups, key, i, sp);
    PutGroupValid(groups, key, rest, sp);
    RemovedBounded(groups, key, i, bound, ids);
    HolderIsWinner(groups, key, sp);
    if i != WinnerIndex(claims) {
      RemoveKeepsWinner(claims, i);
    }
    if rest != [] {
      WinnerIdIn(rest);
    }
  }

  lemma RemovedIdIsGone(groups: Groups, key: GroupKey, i: nat, sp: Spelling)
    requires LocksValid(groups, sp) && key in groups.data && i < |groups.data[key]|
    ensures var after := PutGroup(groups, key, RemoveAt(groups.data[key], i));
            forall g :: g in after.data ==> groups.data[key][i].lockId !in Ids(after.data[g])
  {
    hide Fits, IdsDistinct, RemoveAt, Resolved;
    var claims := groups.data[key];
    assert GroupValid(key, claims, sp);
    var rest := RemoveAt(claims, i);
    var after := PutGroup(groups, key, rest);
    SubgroupFits(groups, key, i, sp);
    RemoveAtFacts(claims, i);
    forall g | g in after.data
      ensures claims[i].lockId !in Ids(after.data[g])
    {
      if g == key {
        ResolvedGroupValid(key, rest, sp);
      } else {
        assert after.data[g] == groups.data[g];
      }
    }
  }

  /** The key of the group a successful release acts on. */
  ghost function ReleasedKey(groups: Groups, target: ReleaseTarget, sp: Spelling): GroupKey
    requires FindGroup(groups.keys, groups.data, target, sp).Some?
  {
    FindGroup(groups.keys, groups.data, target, sp).value
  }

  /** Only the winner's member can release, and the next claim in revision order is promoted. */
  lemma ReleaseKeeps(groups: Groups, requester: Member, target: ReleaseTarget, sp: Spelling, bound: nat,
                     ids: set<string>)
    requires LocksValid(groups, sp) && Bounded(groups, bound, ids)
    requires Release(groups, requester, target, sp).ReleaseOk?
    ensures var r := Release(groups, requester, target, sp);
            var key := ReleasedKey(groups, target, sp);
            && LocksValid(r.groups, sp) && Bounded(r.groups, bound, ids)
            && Holder(groups, key) == Some(r.released) && r.released.holder.memberId == requester.memberId
            && Holder(r.groups, key) == r.promoted
            && (r.promoted.Some? ==> r.promoted.value.lockId != r.released.lockId)
            && forall h :: h != key ==> Holder(r.groups, h) == Holder(groups, h)
  {
    var key := ReleasedKey(groups, target, sp);
    HolderIsWinner(groups, key, sp);
    RemoveClaimKeeps(groups, key, WinnerIndex(groups.data[key]), sp, bound, ids);
  }

  lemma {:induction false} FindGroupIff(keys: seq<GroupKey>, data: map<GroupKey, seq<Lock>>, target: ReleaseTarget,
                                        sp: Spelling)
    ensures FindGroup(keys, data, target, sp).None? <==>
            forall g :: g in keys && g in data ==> !Targets(g, data[g], target, sp)
  {
    if keys != [] {
      hide Targets;
      FindGroupIff(keys[1..], data, target, sp);
      assert forall g :: g in keys <==> g == keys[0] || g in keys[1..];
    }
  }

  /** A release fails exactly when it names no live group, or the one it names is won by
      another member. */
  lemma ReleaseFailsIff(groups: Groups, requester: Member, target: ReleaseTarget, sp: Spelling)
    requires LocksValid(groups, sp)
    ensures var r := Release(groups, requester, target, sp);
            && (r == ReleaseFailed(NoActiveLock) <==>
                  forall g :: g in groups.data ==> !Targets(g, groups.data[g], target, sp))
            && (r == ReleaseFailed(NotLockHolder) <==>
                  FindGroup(groups.keys, groups.data, target, sp).Some?
                  && Holder(groups, ReleasedKey(groups, target, sp)).Some?
                  && Holder(groups, ReleasedKey(groups, target, sp)).value.holder.memberId != requester.memberId)
  {
    hide Targets, Holder, PutGroup;
    FindGroupIff(groups.keys, groups.data, target, sp);
    if FindGroup(groups.keys, groups.data, target, sp).Some? {
      var key := ReleasedKey(groups, target, sp);
      assert GroupValid(key, groups.data[key], sp);
      HolderIsWinner(groups, key, sp);
    }
  }

  /** The member wins the group with another claim than its first one. */
  predicate LaterClaimWins(groups: Groups, key: GroupKey, memberId: string) {
    && Holds(groups, key, memberId) && Holder(groups, key).Some?
    && Holder(groups, key).value.holder.memberId == memberId
    && Holder(groups, key).value.lockId != HeldClaim(groups, key, memberId).lockId
  }

  /** An acquisition is contended exactly when another member wins the scope afterwards, or the
      requester wins it with a later claim than the one that is returned to it. */
  lemma ContendedIff(groups: Groups, request: Lock, sp: Spelling, ids: set<string>)
    requires LocksValid(groups, sp) && request.eventRevision > 0
    requires Bounded(groups, request.eventRevision - 1, ids) && request.lockId !in ids
    ensures var r := Acquire(groups, request, sp); var key := KeyOfScope(request.scope, request.kind, sp);
            && r.lock.holder.memberId == request.holder.memberId
            && (r.lock.concurrent <==> r.contended)
            && (r.contended <==>
                r.winner.holder.memberId != request.holder.memberId
                || LaterClaimWins(groups, key, request.holder.memberId))
            && (LaterClaimWins(groups, key, request.holder.memberId) ==>
                  r.winner.holder.memberId == request.holder.memberId)
  {
    hide LocksValid, Bounded, WinnerIndex, IdsDistinct;
    var key := KeyOfScope(request.scope, request.kind, sp);
    var claims := groups.Get(key, []);
    var existing := ClaimOf(claims, request.holder.memberId);
    var all := if existing.Some? then claims else claims + [request.(concurrent := false)];
    var i := if existing.Some? then existing.value else |claims|;
    AllDistinct(groups, request, sp, ids);
    ResolvedFlags(all);
    var w := WinnerIndex(all);
    OtherIdsDiffer(all, w);
    HolderIsWinner(groups, key, sp);
    assert all[i].holder.memberId == request.holder.memberId;
    if existing.Some? {
      assert Holder(groups, key) == Some(claims[w]);
    } else {
      NewClaimWins(claims, request.(concurrent := false), w);
    }
  }

  lemma NewClaimWins(claims: seq<Lock>, claim: Lock, w: nat)
    requires ClaimOf(claims, claim.holder.memberId).None? && w <= |claims|
    ensures (claims + [claim])[w].holder.memberId == claim.holder.memberId <==> w == |claims|
  {
  }

  lemma AllDistinct(groups: Groups, request: Lock, sp: Spelling, ids: set<string>)
    requires LocksValid(groups, sp) && request.eventRevision > 0
    requires Bounded(groups, request.eventRevision - 1, ids) && request.lockId !in ids
    ensures var claims := groups.Get(KeyOfScope(request.scope, request.kind, sp), []);
            IdsDistinct(claims) && IdsDistinct(claims + [request.(concurrent := false)])
  {
    var key := KeyOfScope(request.scope, request.kind, sp);
    if key in groups.data {
      assert GroupValid(key, groups.data[key], sp) && ClaimsBounded(groups.data[key], request.eventRevision - 1, ids);
    }
  }

  /** Dropping a member's claim: its id leaves the registry, and the group's
      winner changes only if it was the dropped claim. */
  lemma DropClaimKeeps(groups: Groups, key: GroupKey, memberId: string, sp: Spelling, bound: nat, ids: set<string>)
    requires LocksValid(groups, sp) && Bounded(groups, bound, ids) && Holds(groups, key, memberId)
    ensures var after := DropClaim(groups, key, memberId); var held := HeldClaim(groups, key, memberId);
            && LocksValid(after, sp) && Bounded(after, bound, ids)
            && held.eventRevision <= bound && held.lockId in ids && KeyOfScope(held.scope, held.kind, sp) == key
            && (forall g :: g in after.data ==> held.lockId !in Ids(after.data[g]))
            && (forall h :: h != key ==> Holder(after, h) == Holder(groups, h))
            && Holder(groups, key).Some?
            && (Holder(after, key) != Holder(groups, key) ==> Holder(groups, key) == Some(held))
            && (Holder(after, key).Some? ==> Holder(after, key).value.lockId != held.lockId)
  {
    var claims := groups.data[key];
    var i := ClaimOf(claims, memberId).value;
    assert GroupValid(key, claims, sp);
    assert ClaimsBounded(claims, bound, ids) && claims[i] in claims;
    HolderIsWinner(groups, key, sp);
    RemoveClaimKeeps(groups, key, i, sp, bound, ids);
    RemovedIdIsGone(groups, key, i, sp);
  }

  lemma TransferKeeps(groups: Groups, member: Member, fromScope: string, toScope: string, revision: nat,
                      sp: Spelling, ids: set<string>)
    requires LocksValid(groups, sp) && revision > 0 && Bounded(groups, revision - 1, ids)
    requires TransferPath(groups, member, fromScope, toScope, revision, sp).Some?
    ensures var after := TransferPath(groups, member, fromScope, toScope, revision, sp).value;
            var from, to := KeyOfScope(fromScope, File, sp), KeyOfScope(toScope, File, sp);
            var without := DropClaim(groups, from, member.memberId);
            var moved := HeldClaim(groups, from, member.memberId).(scope := toScope, eventRevision := revision,
                                                                   concurrent := false);
            && LocksValid(after, sp) && Bounded(after, revision, ids)
            && (forall h :: h != to ==> Holder(after, h) == Holder(without, h))
            && Holder(after, to) == Some(Holder(without, to).GetOr(moved))
  {
    hide LocksValid, Bounded, Resolved, Ids, WinnerIndex, Holder, DropClaim, PutGroup;
    var from, to := KeyOfScope(fromScope, File, sp), KeyOfScope(toScope, File, sp);
    var without := DropClaim(groups, from, member.memberId);
    var moved := HeldClaim(groups, from, member.memberId).(scope := toScope, eventRevision := revision,
                                                           concurrent := false);
    DropClaimKeeps(groups, from, member.memberId, sp, revision - 1, ids);
    AppendClaim(without, to, moved, sp, ids);
    assert ids + {moved.lockId} == ids;
  }

  /** A lock id held in one group is not held in another. */
  lemma HoldersDiffer(groups: Groups, g: GroupKey, h: GroupKey, sp: Spelling)
    requires LocksValid(groups, sp) && g != h && Holder(groups, g).Some? && Holder(groups, h).Some?
    ensures Holder(groups, g).value.lockId != Holder(groups, h).value.lockId
  {
    HolderIsWinner(groups, g, sp);
    HolderIsWinner(groups, h, sp);
    assert Holder(groups, g).value.lockId in Ids(groups.data[g]);
    assert Holder(groups, h).value.lockId in Ids(groups.data[h]);
  }

  // ----- Expiry -----

  lemma {:induction false} SurvivorsMembers(claims: seq<Lock>, expiry: Expiry)
    ensures forall c :: c in Survivors(claims, expiry) <==> c in claims && !Expires(c, expiry)
    ensures forall c :: c in Expired(claims, expiry) <==> c in claims && Expires(c, expiry)
  {
    if claims != [] {
      SurvivorsMembers(claims[1..], expiry);
      assert claims == [claims[0]] + claims[1..];
    }
  }

  lemma IdsOfMembers(a: seq<Lock>, b: seq<Lock>)
    requires forall c :: c in a ==> c in b
    ensures Ids(a) <= Ids(b)
  {
    forall id | id in Ids(a) ensures id in Ids(b) {
      var i :| 0 <= i < |a| && a[i].lockId == id;
      assert a[i] in b;
    }
  }

  lemma ConsDistinct(first: Lock, rest: seq<Lock>)
    ensures IdsDistinct([first] + rest) <==> IdsDistinct(rest) && first.lockId !in Ids(rest)
  {
    var all := [first] + rest;
    assert forall i :: 0 <= i < |rest| ==> all[i + 1] == rest[i];
    if IdsDistinct(all) {
      forall i, j | 0 <= i < j < |rest| ensures rest[i].lockId != rest[j].lockId {
        assert all[i + 1].lockId != all[j + 1].lockId;
      }
      forall i | 0 <= i < |rest| ensures rest[i].lockId != first.lockId {
        assert all[0].lockId != all[i + 1].lockId;
      }
    }
  }

  lemma {:induction false} SurvivorsDistinct(claims: seq<Lock>, expiry: Expiry)
    requires IdsDistinct(claims)
    ensures IdsDistinct(Survivors(claims, expiry)) && Ids(Survivors(claims, expiry)) <= Ids(claims)
  {
    SurvivorsMembers(claims, expiry);
    IdsOfMembers(Survivors(claims, expiry), claims);
    if claims != [] {
      assert claims == [claims[0]] + claims[1..];
      ConsDistinct(claims[0], claims[1..]);
      SurvivorsDistinct(claims[1..], expiry);
      ConsDistinct(claims[0], Survivors(claims[1..], expiry));
    }
  }

  lemma {:induction false} SurvivorsCount(claims: seq<Lock>, expiry: Expiry)
    ensures |Survivors(claims, expiry)| + |Expired(claims, expiry)| == |claims|
    ensures |Survivors(claims, expiry)| == |claims| ==>
              Survivors(claims, expiry) == claims && Expired(claims, expiry) == []
  {
    if claims != [] {
      SurvivorsCount(claims[1..], expiry);
    }
  }

  lemma SurvivorsFit(groups: Groups, key: GroupKey, expiry: Expiry, sp: Spelling)
    requires LocksValid(groups, sp) && key in groups.data
    ensures Fits(groups, key, Survivors(groups.data[key], expiry), sp)
  {
    var claims := groups.data[key];
    assert GroupValid(key, claims, sp);
    SurvivorsMembers(claims, expiry);
    SurvivorsDistinct(claims, expiry);
    var rest := Survivors(claims, expiry);
    forall i | 0 <= i < |rest|
      ensures KeyOfScope(rest[i].scope, rest[i].kind, sp) == key
    {
      assert rest[i] in claims;
    }
  }

  lemma ExpireGroupData(groups: Groups, key: GroupKey, expiry: Expiry)
    requires key in groups.data && Resolved(groups.data[key]) == groups.data[key]
    ensures var next := ExpireGroup(groups, key, expiry);
            && next.Get(key, []) == Resolved(Survivors(groups.data[key], expiry))
            && (forall g :: g != key ==> (g in next.data <==> g in groups.data) && next.Get(g, []) == groups.Get(g, []))
  {
    SurvivorsCount(groups.data[key], expiry);
  }

  lemma ExpireGroupKeeps(groups: Groups, key: GroupKey, expiry: Expiry, sp: Spelling, bound: nat, ids: set<string>)
    requires LocksValid(groups, sp) && Bounded(groups, bound, ids) && key in groups.data
    ensures LocksValid(ExpireGroup(groups, key, expiry), sp) && Bounded(ExpireGroup(groups, key, expiry), bound, ids)
  {
    var claims := groups.data[key];
    var survivors := Survivors(claims, expiry);
    if |survivors| != |claims| {
      SurvivorsFit(groups, key, expiry, sp);
      PutGroupValid(groups, key, survivors, sp);
      assert ClaimsBounded(claims, bound, ids);
      SurvivorsMembers(claims, expiry);
      PutGroupBounded(groups, key, survivors, bound, ids);
    }
  }

  lemma {:induction false} ExpireGroupsKeep(keys: seq<GroupKey>, groups: Groups, expiry: Expiry, sp: Spelling,
                                            bound: nat, ids: set<string>)
    requires LocksValid(groups, sp) && Bounded(groups, bound, ids) && Distinct(keys)
    requires forall k :: k in keys ==> k in groups.data
    ensures LocksValid(ExpireGroups(keys, groups, expiry).0, sp)
            && Bounded(ExpireGroups(keys, groups, expiry).0, bound, ids)
    decreases |keys|
  {
    hide LocksValid, Bounded, ExpireGroup;
    if keys != [] {
      var key, rest := keys[0], keys[1..];
      assert key !in rest && forall k :: k in rest ==> k in keys;
      LockGroupValid(groups, key, sp);
      ExpireGroupKeeps(groups, key, expiry, sp, bound, ids);
      ExpireGroupData(groups, key, expiry);
      ExpireGroupsKeep(rest, ExpireGroup(groups, key, expiry), expiry, sp, bound, ids);
    }
  }

  /** One pass over some groups: each keeps its resolved survivors. */
  lemma {:induction false} ExpireGroupsData(keys: seq<GroupKey>, groups: Groups, expiry: Expiry)
    requires Distinct(keys)
    requires forall k :: k in keys ==> k in groups.data && Resolved(groups.data[k]) == groups.data[k]
    ensures var after := ExpireGroups(keys, groups, expiry).0;
            && (forall g :: g !in keys ==> after.Get(g, []) == groups.Get(g, []))
            && (forall g :: g in keys ==> after.Get(g, []) == Resolved(Survivors(groups.data[g], expiry)))
    decreases |keys|
  {
    if keys != [] {
      var key, rest := keys[0], keys[1..];
      assert forall k :: k in keys <==> k == key || k in rest;
      assert key !in rest;
      ExpireGroupData(groups, key, expiry);
      ExpireGroupsData(rest, ExpireGroup(groups, key, expiry), expiry);
    }
  }

  /** Exactly the expired claims are reported. */
  lemma {:induction false} ExpireGroupsReport(keys: seq<GroupKey>, groups: Groups, expiry: Expiry)
    requires Distinct(keys) && forall k :: k in keys ==> k in groups.data
    ensures forall e :: e in ExpireGroups(keys, groups, expiry).1 <==>
                        Expires(e, expiry) && exists g :: g in keys && e in groups.data[g]
    decreases |keys|
  {
    if keys != [] {
      var key, rest := keys[0], keys[1..];
      assert forall k :: k in keys <==> k == key || k in rest;
      assert key !in rest;
      var next := ExpireGroup(groups, key, expiry);
      assert forall g :: g in rest ==> g in next.data && next.data[g] == groups.data[g];
      SurvivorsMembers(groups.data[key], expiry);
      ExpireGroupsReport(rest, next, expiry);
    }
  }

  lemma SurvivingWinner(claims: seq<Lock>, expiry: Expiry)
    requires claims != [] && IdsDistinct(claims) && !Expires(claims[WinnerIndex(claims)], expiry)
    ensures var rest := Survivors(claims, expiry); rest != [] && rest[WinnerIndex(rest)] == claims[WinnerIndex(claims)]
  {
    SurvivorsMembers(claims, expiry);
    SurvivorsDistinct(claims, expiry);
    var rest, w := Survivors(claims, expiry), WinnerIndex(claims);
    assert claims[w] in rest;
    var v :| 0 <= v < |rest| && rest[v] == claims[w];
    WinnerIsEarliest(claims);
    forall i | 0 <= i < |rest| && i != v
      ensures Earlier(rest[v], rest[i])
    {
      assert rest[i] in claims;
      var j :| 0 <= j < |claims| && claims[j] == rest[i];
    }
    EarliestIsWinner(rest, v);
  }

  /** The winner of one group before and after it loses its expired claims. */
  lemma GroupWinnerAfterExpiry(claims: seq<Lock>, expiry: Expiry)
    requires claims != [] && IdsDistinct(claims) && Resolved(claims) == claims
    ensures var w := claims[WinnerIndex(claims)]; var after := FirstUnflagged(Resolved(Survivors(claims, expiry)));
            && (!Expires(w, expiry) ==> after == Some(w))
            && (after.Some? ==> Expires(w, expiry) ==> after.value.lockId != w.lockId)
            && (forall c :: c in claims && !c.concurrent ==> c == w)
  {
    ResolvedFlags(claims);
    var w := WinnerIndex(claims);
    var rest := Survivors(claims, expiry);
    SurvivorsMembers(claims, expiry);
    SurvivorsDistinct(claims, expiry);
    assert !claims[w].concurrent;
    if !Expires(claims[w], expiry) {
      SurvivingWinner(claims, expiry);
      ResolvedFlags(rest);
    } else if rest != [] {
      ResolvedFlags(rest);
      var v := rest[WinnerIndex(rest)];
      assert v in claims && v != claims[w];
      var j :| 0 <= j < |claims| && claims[j] == v;
      assert j != w;
    }
  }

  lemma ReportedGroup(groups: Groups, expiry: Expiry, e: Lock, sp: Spelling)
    requires LocksValid(groups, sp)
    ensures var g := KeyOfScope(e.scope, e.kind, sp);
            e in ExpireLocks(groups, expiry).1 <==> Expires(e, expiry) && g in groups.data && e in groups.data[g]
  {
    ExpireGroupsReport(groups.keys, groups, expiry);
    if e in ExpireLocks(groups, expiry).1 {
      var g :| g in groups.keys && e in groups.data[g];
      assert GroupValid(g, groups.data[g], sp);
    }
  }

  /** The winner that a pass leaves in a group. */
  lemma HolderAfterExpiry(groups: Groups, expiry: Expiry, key: GroupKey, sp: Spelling)
    requires LocksValid(groups, sp)
    ensures Holder(ExpireLocks(groups, expiry).0, key) ==
            if key in groups.data then FirstUnflagged(Resolved(Survivors(groups.data[key], expiry))) else None
  {
    forall k | k in groups.data ensures Resolved(groups.data[k]) == groups.data[k] {
      assert GroupValid(k, groups.data[k], sp);
    }
    ExpireGroupsData(groups.keys, groups, expiry);
    assert Holder(ExpireLocks(groups, expiry).0, key) == FirstUnflagged(ExpireLocks(groups, expiry).0.Get(key, []));
  }

  /** How a pass moves the winner of one group, in terms of what it reports. */
  lemma ExpireMovesWinner(groups: Groups, expiry: Expiry, key: GroupKey, sp: Spelling, bound: nat, ids: set<string>)
    requires LocksValid(groups, sp) && Bounded(groups, bound, ids)
    ensures var r := ExpireLocks(groups, expiry); var before, after := Holder(groups, key), Holder(r.0, key);
            && LocksValid(r.0, sp) && Bounded(r.0, bound, ids)
            && (before.None? ==> after.None? && forall e :: e in r.1 ==> KeyOfScope(e.scope, e.kind, sp) != key)
            && (before.Some? && !Expires(before.value, expiry) ==>
                  after == before && forall e :: e in r.1 && KeyOfScope(e.scope, e.kind, sp) == key ==> e.concurrent)
            && (before.Some? && Expires(before.value, expiry) ==>
                  before.value in r.1 && !before.value.concurrent
                  && (after.Some? ==> after.value.lockId != before.value.lockId))
  {
    hide LocksValid, Bounded, Expires, IdsDistinct, ExpireLocks, FirstUnflagged;
    var r := ExpireLocks(groups, expiry);
    assert groups.Valid() by { LockMapValid(groups, sp); }
    assert LocksValid(r.0, sp) && Bounded(r.0, bound, ids) by { ExpireLocksKeep(groups, expiry, sp, bound, ids); }
    HolderIsWinner(groups, key, sp);
    HolderAfterExpiry(groups, expiry, key, sp);
    forall e ensures e in r.1 <==> Expires(e, expiry) && KeyOfScope(e.scope, e.kind, sp) in groups.data
                                   && e in groups.data[KeyOfScope(e.scope, e.kind, sp)]
    {
      ReportedGroup(groups, expiry, e, sp);
    }
    if key in groups.data {
      LockGroupValid(groups, key, sp);
      GroupWinnerAfterExpiry(groups.data[key], expiry);
    }
  }

  lemma LockMapValid(groups: Groups, sp: Spelling)
    requires LocksValid(groups, sp)
    ensures groups.Valid()
  {
  }

  lemma LockGroupValid(groups: Groups, key: GroupKey, sp: Spelling)
    requires LocksValid(groups, sp) && key in groups.data
    ensures GroupValid(key, groups.data[key], sp)
  {
  }

  lemma ExpireLocksKeep(groups: Groups, expiry: Expiry, sp: Spelling, bound: nat, ids: set<string>)
    requires LocksValid(groups, sp) && Bounded(groups, bound, ids)
    ensures LocksValid(ExpireLocks(groups, expiry).0, sp) && Bounded(ExpireLocks(groups, expiry).0, bound, ids)
  {
    ExpireGroupsKeep(groups.keys, groups, expiry, sp, bound, ids);
  }

  // ----- Snapshots -----

  lemma {:induction false} RegroupAppend(groups: Groups, a: seq<Lock>, b: seq<Lock>, sp: Spelling)
    ensures Regroup(groups, a + b, sp) == Regroup(Regroup(groups, a, sp), b, sp)
    decreases |a|
  {
    if a == [] {
      assert a + b == b;
    } else {
      assert (a + b)[1..] == a[1..] + b;
      RegroupAppend(AddToGroup(groups, a[0], sp), a[1..], b, sp);
    }
  }

  lemma {:induction false} RegroupOne(groups: Groups, key: GroupKey, claims: seq<Lock>, sp: Spelling)
    requires key in groups.data
    requires forall c :: c in claims ==> KeyOfScope(c.scope, c.kind, sp) == key
    ensures Regroup(groups, claims, sp) == JsMap(groups.keys, groups.data[key := groups.data[key] + claims])
    decreases |claims|
  {
    if claims == [] {
      assert groups.data[key] + claims == groups.data[key];
      assert groups.data[key := groups.data[key]] == groups.data;
    } else {
      assert claims[0] in claims;
      var next := AddToGroup(groups, claims[0], sp);
      RegroupOne(next, key, claims[1..], sp);
      assert (groups.data[key] + [claims[0]]) + claims[1..] == groups.data[key] + claims;
      assert next.data[key := groups.data[key] + claims] == groups.data[key := groups.data[key] + claims];
    }
  }

  ghost function Restricted(data: map<GroupKey, seq<Lock>>, keys: seq<GroupKey>): map<GroupKey, seq<Lock>>
    requires forall k :: k in keys ==> k in data
  {
    map k | k in keys :: data[k]
  }

  /** Regrouping the claims of one further group appends that group. */
  lemma RegroupGroup(before: Groups, key: GroupKey, claims: seq<Lock>, sp: Spelling)
    requires key !in before.data && claims != []
    requires forall c :: c in claims ==> KeyOfScope(c.scope, c.kind, sp) == key
    ensures Regroup(before, claims, sp) == JsMap(before.keys + [key], before.data[key := claims])
  {
    var first := AddToGroup(before, claims[0], sp);
    assert claims[0] in claims;
    assert before.Get(key, []) + [claims[0]] == [claims[0]];
    assert first == JsMap(before.keys + [key], before.data[key := [claims[0]]]);
    RegroupOne(first, key, claims[1..], sp);
    assert [claims[0]] + claims[1..] == claims;
    assert first.data[key := claims] == before.data[key := claims];
  }

  ghost predicate Grouped(groups: Groups, sp: Spelling) {
    && Distinct(groups.keys) && (forall k :: k in groups.keys ==> k in groups.data)
    && forall k :: k in groups.data ==> groups.data[k] != [] && forall c :: c in groups.data[k] ==>
         KeyOfScope(c.scope, c.kind, sp) == k
  }

  /** The first `n` groups. */
  ghost function FirstGroups(groups: Groups, n: nat): Groups
    requires Distinct(groups.keys) && (forall k :: k in groups.keys ==> k in groups.data) && n <= |groups.keys|
  {
    JsMap(groups.keys[..n], Restricted(groups.data, groups.keys[..n]))
  }

  lemma FirstGroupsStep(groups: Groups, n: nat, sp: Spelling)
    requires Grouped(groups, sp) && n < |groups.keys|
    ensures var key := groups.keys[n]; var before := FirstGroups(groups, n);
            key in groups.data && key !in before.data
            && FirstGroups(groups, n + 1) == JsMap(before.keys + [key], before.data[key := groups.data[key]])
  {
    var key, before := groups.keys[n], FirstGroups(groups, n);
    assert key in groups.keys && key !in groups.keys[..n];
    assert groups.keys[..n + 1] == groups.keys[..n] + [key];
    assert before.data[key := groups.data[key]] == Restricted(groups.data, groups.keys[..n + 1]);
  }

  lemma {:induction false} RegroupConcat(groups: Groups, n: nat, sp: Spelling)
    requires Grouped(groups, sp) && n <= |groups.keys|
    ensures Regroup(Empty(), Concat(groups.keys[..n], groups.data), sp) == FirstGroups(groups, n)
  {
    if n == 0 {
      assert Restricted(groups.data, groups.keys[..0]) == map[];
    } else {
      RegroupConcat(groups, n - 1, sp);
      RegroupNext(groups, n - 1, sp);
    }
  }

  lemma RegroupNext(groups: Groups, n: nat, sp: Spelling)
    requires Grouped(groups, sp) && n < |groups.keys|
    requires Regroup(Empty(), Concat(groups.keys[..n], groups.data), sp) == FirstGroups(groups, n)
    ensures Regroup(Empty(), Concat(groups.keys[..n + 1], groups.data), sp) == FirstGroups(groups, n + 1)
  {
    hide Distinct, Restricted, FirstGroups, Regroup, Concat;
    var key := groups.keys[n];
    FirstGroupsStep(groups, n, sp);
    assert forall k :: k in groups.keys[..n] ==> k in groups.keys;
    ConcatAppend(groups.keys[..n], key, groups.data);
    assert groups.keys[..n + 1] == groups.keys[..n] + [key];
    RegroupAppend(Empty(), Concat(groups.keys[..n], groups.data), groups.data[key], sp);
    RegroupGroup(FirstGroups(groups, n), key, groups.data[key], sp);
  }

  lemma {:induction false} ConcatAppend(keys: seq<GroupKey>, key: GroupKey, data: map<GroupKey, seq<Lock>>)
    requires key in data && forall k :: k in keys ==> k in data
    ensures Concat(keys + [key], data) == Concat(keys, data) + data[key]
  {
    if keys != [] {
      ConcatAppend(keys[1..], key, data);
      assert (keys + [key])[1..] == keys[1..] + [key];
    } else {
      assert Concat([key], data) == data[key] + Concat([], data);
    }
  }

  lemma ValidIsGrouped(groups: Groups, sp: Spelling)
    requires LocksValid(groups, sp)
    ensures Grouped(groups, sp) && ResolveAll(groups) == groups
  {
    forall k | k in groups.data
      ensures groups.data[k] != [] && Resolved(groups.data[k]) == groups.data[k]
      ensures forall c :: c in groups.data[k] ==> KeyOfScope(c.scope, c.kind, sp) == k
    {
      assert GroupValid(k, groups.data[k], sp);
    }
  }

  lemma RegroupAll(groups: Groups, sp: Spelling)
    requires Grouped(groups, sp) && forall k :: k in groups.data ==> k in groups.keys
    ensures Regroup(Empty(), AllLocks(groups), sp) == groups
  {
    hide FirstGroups, Regroup, Concat;
    RegroupConcat(groups, |groups.keys|, sp);
    AllGroups(groups);
    assert groups.keys[..|groups.keys|] == groups.keys;
  }

  lemma AllGroups(groups: Groups)
    requires groups.Valid()
    ensures FirstGroups(groups, |groups.keys|) == groups
  {
    assert groups.keys[..|groups.keys|] == groups.keys;
    assert Restricted(groups.data, groups.keys) == groups.data;
  }

  /** Restoring what was serialised gives back every group, claim order and flag. */
  lemma LocksRoundTrip(groups: Groups, sp: Spelling)
    requires LocksValid(groups, sp)
    ensures RestoreLocks(AllLocks(groups), sp) == groups
  {
    ValidIsGrouped(groups, sp);
    RegroupAll(groups, sp);
  }
}
