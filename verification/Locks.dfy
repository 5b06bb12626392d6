/** Lock claims per scope and their winners (packages/core-state/src/locks.ts and
    conflict.ts), as values. `LockRegistry` holds such a value and updates it. */
module Locks {
  import opened Protocol
  import opened JsMaps
  import opened Paths

  datatype Lock = Lock(lockId: string, scope: string, kind: ScopeKind, mode: LockMode, holder: Member,
                       eventRevision: nat, acquiredAt: int, concurrent: bool)

  datatype GroupKey = GlobGroup(scope: string) | PathGroup(pathKey: string)

  type Groups = JsMap<GroupKey, seq<Lock>>

  function KeyOfScope(scope: string, kind: ScopeKind, sp: Spelling): GroupKey {
    if kind.Glob? then GlobGroup(scope) else PathGroup(sp.Key(scope))
  }

  /** Which scopes share a group: globs of the same text, and other scopes with the same path key;
      never a glob and another scope. */
  lemma SameGroupIff(a: string, aKind: ScopeKind, b: string, bKind: ScopeKind, sp: Spelling)
    ensures KeyOfScope(a, aKind, sp) == KeyOfScope(b, bKind, sp) <==>
            if aKind == Glob || bKind == Glob then aKind == bKind && a == b else sp.Key(a) == sp.Key(b)
  {
  }

  // ----- The earliest-revision resolver -----

  /** `compareClaims(a, b) < 0`. */
  predicate Earlier(a: Lock, b: Lock) {
    a.eventRevision < b.eventRevision || (a.eventRevision == b.eventRevision && TextLess(a.lockId, b.lockId))
  }

  function WinnerIndex(claims: seq<Lock>): (w: nat)
    requires claims != []
    ensures w < |claims|
  {
    if |claims| == 1 then 0
    else
      var w := WinnerIndex(claims[..|claims| - 1]);
      if Earlier(claims[|claims| - 1], claims[w]) then |claims| - 1 else w
  }

  ghost predicate IdsDistinct(claims: seq<Lock>) {
    forall i, j :: 0 <= i < j < |claims| ==> claims[i].lockId != claims[j].lockId
  }

  /** The winner precedes every other claim in the order of Event_Revisions. */
  lemma {:induction false} WinnerIsEarliest(claims: seq<Lock>)
    requires claims != [] && IdsDistinct(claims)
    ensures forall i :: 0 <= i < |claims| && i != WinnerIndex(claims) ==>
              Earlier(claims[WinnerIndex(claims)], claims[i])
  {
    if |claims| > 1 {
      var init, last := claims[..|claims| - 1], claims[|claims| - 1];
      WinnerIsEarliest(init);
      var w := WinnerIndex(init);
      TextLessTotal(last.lockId, init[w].lockId);
      forall i | 0 <= i < |init| && i != w && Earlier(last, init[w])
        ensures Earlier(last, init[i])
      {
        assert Earlier(init[w], init[i]);
        if last.eventRevision == init[w].eventRevision == init[i].eventRevision {
          TextLessTransitive(last.lockId, init[w].lockId, init[i].lockId);
        }
      }
    }
  }

  /** In plain terms: no claim has a lower revision, and no claim of the same revision an id that
      comes before the winner's. */
  lemma WinnerIsFirst(claims: seq<Lock>, i: nat)
    requires IdsDistinct(claims) && i < |claims| && i != WinnerIndex(claims)
    ensures var winner := claims[WinnerIndex(claims)];
            && winner.eventRevision <= claims[i].eventRevision
            && (winner.eventRevision == claims[i].eventRevision ==> TextLess(winner.lockId, claims[i].lockId))
  {
    WinnerIsEarliest(claims);
  }

  lemma EarliestIsWinner(claims: seq<Lock>, w: nat)
    requires w < |claims| && IdsDistinct(claims)
    requires forall i :: 0 <= i < |claims| && i != w ==> Earlier(claims[w], claims[i])
    ensures WinnerIndex(claims) == w
  {
    WinnerIsEarliest(claims);
    var v := WinnerIndex(claims);
    if v != w {
      TextLessTotal(claims[v].lockId, claims[w].lockId);
    }
  }

  /** Set every claim's flag: concurrent unless it carries the winner's id. */
  function Resolved(claims: seq<Lock>): (r: seq<Lock>)
    ensures |r| == |claims|
  {
    if claims == [] then []
    else
      var winner := claims[WinnerIndex(claims)];
      seq(|claims|, i requires 0 <= i < |claims| => claims[i].(concurrent := claims[i].lockId != winner.lockId))
  }

  /** `claims.find((lock) => !lock.concurrent)`. */
  function FirstUnflagged(claims: seq<Lock>): Option<Lock> {
    if claims == [] then None
    else if !claims[0].concurrent then Some(claims[0])
    else FirstUnflagged(claims[1..])
  }

  lemma {:induction false} FirstUnflaggedAt(claims: seq<Lock>, w: nat)
    requires w < |claims| && forall i :: 0 <= i < |claims| ==> (claims[i].concurrent <==> i != w)
    ensures FirstUnflagged(claims) == Some(claims[w])
  {
    if w > 0 { FirstUnflaggedAt(claims[1..], w - 1); }
  }

  /** Resolution flags all claims but the winner, and only changes flags. */
  lemma ResolvedFlags(claims: seq<Lock>)
    requires claims != [] && IdsDistinct(claims)
    ensures var w := WinnerIndex(claims);
            && (forall i :: 0 <= i < |claims| ==> Resolved(claims)[i] == claims[i].(concurrent := i != w))
            && WinnerIndex(Resolved(claims)) == w
            && FirstUnflagged(Resolved(claims)) == Some(claims[w].(concurrent := false))
            && Resolved(Resolved(claims)) == Resolved(claims)
  {
    hide Earlier, IdsDistinct;
    var w, r := WinnerIndex(claims), Resolved(claims);
    OtherIdsDiffer(claims, w);
    OnlyFlags(claims, r);
    OtherIdsDiffer(r, w);
    WinnerIsEarliest(claims);
    forall i | 0 <= i < |r| && i != w ensures Earlier(r[w], r[i]) {
      FlagsDoNotCount(claims[w], claims[i], false, true);
    }
    EarliestIsWinner(r, w);
    FirstUnflaggedAt(r, w);
  }

  lemma OtherIdsDiffer(claims: seq<Lock>, w: nat)
    requires w < |claims| && IdsDistinct(claims)
    ensures forall i :: 0 <= i < |claims| && i != w ==> claims[i].lockId != claims[w].lockId
  {
  }

  lemma OnlyFlags(a: seq<Lock>, b: seq<Lock>)
    requires |a| == |b| && IdsDistinct(a) && forall i :: 0 <= i < |a| ==> b[i].lockId == a[i].lockId
    ensures IdsDistinct(b)
  {
  }

  lemma FlagsDoNotCount(a: Lock, b: Lock, x: bool, y: bool)
    ensures Earlier(a.(concurrent := x), b.(concurrent := y)) <==> Earlier(a, b)
  {
  }

  // ----- Valid states -----

  ghost predicate GroupValid(key: GroupKey, claims: seq<Lock>, sp: Spelling) {
    && claims != [] && IdsDistinct(claims) && Resolved(claims) == claims
    && forall i :: 0 <= i < |claims| ==> KeyOfScope(claims[i].scope, claims[i].kind, sp) == key
  }

  ghost function Ids(claims: seq<Lock>): set<string> {
    set i | 0 <= i < |claims| :: claims[i].lockId
  }

  /** A lock id occurs in one group only. */
  ghost predicate GroupsDisjoint(groups: Groups) {
    forall g, h :: g in groups.data && h in groups.data && g != h ==> Ids(groups.data[g]) !! Ids(groups.data[h])
  }

  ghost predicate LocksValid(groups: Groups, sp: Spelling) {
    && groups.Valid()
    && (forall g :: g in groups.data ==> GroupValid(g, groups.data[g], sp))
    && GroupsDisjoint(groups)
  }

  ghost predicate ClaimsBounded(claims: seq<Lock>, bound: nat, ids: set<string>) {
    forall c :: c in claims ==> c.eventRevision <= bound && c.lockId in ids
  }

  /** The claims carry revisions up to `bound` and ids of applied events. */
  ghost predicate Bounded(groups: Groups, bound: nat, ids: set<string>) {
    forall g :: g in groups.data ==> ClaimsBounded(groups.data[g], bound, ids)
  }

  /** The lock that clients are shown for a group. */
  function Holder(groups: Groups, key: GroupKey): Option<Lock> {
    if key in groups.data then FirstUnflagged(groups.data[key]) else None
  }

  // ----- Operations -----

  function ClaimOf(claims: seq<Lock>, memberId: string): (i: Option<nat>)
    ensures i.Some? ==> i.value < |claims| && claims[i.value].holder.memberId == memberId
    ensures i.Some? ==> forall j :: 0 <= j < i.value ==> claims[j].holder.memberId != memberId
    ensures i.None? ==> forall j :: 0 <= j < |claims| ==> claims[j].holder.memberId != memberId
  {
    if claims == [] then None
    else if claims[0].holder.memberId == memberId then Some(0)
    else
      var rest := ClaimOf(claims[1..], memberId);
      assert forall j :: 0 < j < |claims| ==> claims[j] == claims[1..][j - 1];
      if rest.None? then None else Some(rest.value + 1)
  }

  function RemoveAt(claims: seq<Lock>, i: nat): (rest: seq<Lock>)
    requires i < |claims|
    ensures |rest| == |claims| - 1
    ensures forall j :: 0 <= j < |rest| ==> rest[j] == claims[if j < i then j else j + 1]
  {
    claims[..i] + claims[i + 1..]
  }

  /** Store a group, dropping it when it has no claim left. */
  function PutGroup(groups: Groups, key: GroupKey, claims: seq<Lock>): (g: Groups)
    ensures groups.Valid() ==> g.Valid()
  {
    if claims == [] then groups.Delete(key) else groups.Set(key, Resolved(claims))
  }

  datatype Acquired = Acquired(groups: Groups, lock: Lock, winner: Lock, contended: bool)

  function Acquire(groups: Groups, request: Lock, sp: Spelling): Acquired {
    var key := KeyOfScope(request.scope, request.kind, sp);
    var claims := groups.Get(key, []);
    var existing := ClaimOf(claims, request.holder.memberId);
    var all := if existing.Some? then claims else claims + [request.(concurrent := false)];
    var i := if existing.Some? then existing.value else |claims|;
    var resolved := Resolved(all);
    var winner := resolved[WinnerIndex(all)];
    Acquired(groups.Set(key, resolved), resolved[i], winner, resolved[i].lockId != winner.lockId)
  }

  datatype ReleaseTarget = ByLockId(lockId: string) | ByScope(scope: string) | Unspecified

  datatype ReleaseError = NotLockHolder | NoActiveLock

  datatype Released =
    | ReleaseFailed(error: ReleaseError)
    | ReleaseOk(groups: Groups, released: Lock, promoted: Option<Lock>)

  predicate Targets(key: GroupKey, claims: seq<Lock>, target: ReleaseTarget, sp: Spelling) {
    match target
    case ByLockId(lockId) => exists i :: 0 <= i < |claims| && claims[i].lockId == lockId
    case ByScope(scope) => claims != [] && KeyOfScope(scope, claims[0].kind, sp) == key
    case Unspecified => false
  }

  /** The first group in insertion order that the release request names. */
  function FindGroup(keys: seq<GroupKey>, data: map<GroupKey, seq<Lock>>, target: ReleaseTarget, sp: Spelling)
    : (key: Option<GroupKey>)
    ensures key.Some? ==> key.value in data && Targets(key.value, data[key.value], target, sp)
  {
    if keys == [] then None
    else if keys[0] in data && Targets(keys[0], data[keys[0]], target, sp) then Some(keys[0])
    else FindGroup(keys[1..], data, target, sp)
  }

  function Release(groups: Groups, requester: Member, target: ReleaseTarget, sp: Spelling): Released {
    var found := FindGroup(groups.keys, groups.data, target, sp);
    if found.None? || groups.data[found.value] == [] then ReleaseFailed(NoActiveLock)
    else
      var claims := groups.data[found.value];
      var w := WinnerIndex(claims);
      if claims[w].holder.memberId != requester.memberId then ReleaseFailed(NotLockHolder)
      else
        var after := PutGroup(groups, found.value, RemoveAt(claims, w));
        ReleaseOk(after, claims[w].(concurrent := false), Holder(after, found.value))
  }

  predicate Holds(groups: Groups, key: GroupKey, memberId: string) {
    ClaimOf(groups.Get(key, []), memberId).Some?
  }

  /** The member's first claim of a group. */
  function HeldClaim(groups: Groups, key: GroupKey, memberId: string): (lock: Lock)
    requires Holds(groups, key, memberId)
    ensures lock.holder.memberId == memberId
  {
    var claims := groups.Get(key, []);
    claims[ClaimOf(claims, memberId).value]
  }

  function DropClaim(groups: Groups, key: GroupKey, memberId: string): Groups
    requires Holds(groups, key, memberId)
  {
    var claims := groups.Get(key, []);
    PutGroup(groups, key, RemoveAt(claims, ClaimOf(claims, memberId).value))
  }

  /** Move a member's claim to another file scope, stamped with the rename's
      revision; `None` when the member holds nothing there. */
  function TransferPath(groups: Groups, member: Member, fromScope: string, toScope: string, eventRevision: nat,
                        sp: Spelling): Option<Groups>
  {
    var from := KeyOfScope(fromScope, File, sp);
    var to := KeyOfScope(toScope, File, sp);
    if !Holds(groups, from, member.memberId) then None
    else
      var moved := HeldClaim(groups, from, member.memberId).(scope := toScope, eventRevision := eventRevision,
                                                             concurrent := false);
      var without := DropClaim(groups, from, member.memberId);
      Some(PutGroup(without, to, without.Get(to, []) + [moved]))
  }

  /** Drop a member's claim on a deleted file. */
  function ReleaseOnDelete(groups: Groups, scope: string, member: Member, sp: Spelling): Option<Groups> {
    var key := KeyOfScope(scope, File, sp);
    if !Holds(groups, key, member.memberId) then None else Some(DropClaim(groups, key, member.memberId))
  }

  // ----- Expiry -----

  /** What an expiry pass removes: all claims of a device, or old soft claims. */
  datatype Expiry = OfDevice(deviceId: string) | SoftBefore(cutoff: int)

  predicate Expires(lock: Lock, expiry: Expiry) {
    match expiry
    case OfDevice(deviceId) => lock.holder.deviceId == deviceId
    case SoftBefore(cutoff) => lock.mode.Soft? && lock.acquiredAt < cutoff
  }

  function Expired(claims: seq<Lock>, expiry: Expiry): seq<Lock> {
    if claims == [] then []
    else (if Expires(claims[0], expiry) then [claims[0]] else []) + Expired(claims[1..], expiry)
  }

  function Survivors(claims: seq<Lock>, expiry: Expiry): seq<Lock> {
    if claims == [] then []
    else (if Expires(claims[0], expiry) then [] else [claims[0]]) + Survivors(claims[1..], expiry)
  }

  /** Remove the expired claims group by group, in insertion order of the groups. */
  function ExpireGroups(keys: seq<GroupKey>, groups: Groups, expiry: Expiry): (Groups, seq<Lock>)
    decreases |keys|
  {
    if keys == [] then (groups, [])
    else
      var r := ExpireGroups(keys[1..], ExpireGroup(groups, keys[0], expiry), expiry);
      (r.0, Expired(groups.Get(keys[0], []), expiry) + r.1)
  }

  /** One group of a pass; a group that loses nothing is left alone. */
  function ExpireGroup(groups: Groups, key: GroupKey, expiry: Expiry): Groups {
    var claims := groups.Get(key, []);
    var survivors := Survivors(claims, expiry);
    if |survivors| == |claims| then groups else PutGroup(groups, key, survivors)
  }

  function ExpireLocks(groups: Groups, expiry: Expiry): (Groups, seq<Lock>) {
    ExpireGroups(groups.keys, groups, expiry)
  }

  // ----- Snapshots -----

  function Concat(keys: seq<GroupKey>, data: map<GroupKey, seq<Lock>>): seq<Lock> {
    if keys == [] then []
    else (if keys[0] in data then data[keys[0]] else []) + Concat(keys[1..], data)
  }

  function AllLocks(groups: Groups): seq<Lock> {
    Concat(groups.keys, groups.data)
  }

  function AddToGroup(groups: Groups, lock: Lock, sp: Spelling): (g: Groups)
    ensures groups.Valid() ==> g.Valid()
  {
    var key := KeyOfScope(lock.scope, lock.kind, sp);
    groups.Set(key, groups.Get(key, []) + [lock])
  }

  /** Regroup a snapshot's locks, in the order of the snapshot. */
  function Regroup(groups: Groups, locks: seq<Lock>, sp: Spelling): (g: Groups)
    ensures groups.Valid() ==> g.Valid()
    decreases |locks|
  {
    if locks == [] then groups else Regroup(AddToGroup(groups, locks[0], sp), locks[1..], sp)
  }

  function ResolveAll(groups: Groups): (r: Groups)
    ensures groups.Valid() ==> r.Valid()
  {
    JsMap(groups.keys, map g | g in groups.data :: Resolved(groups.data[g]))
  }

  function RestoreLocks(locks: seq<Lock>, sp: Spelling): Groups {
    ResolveAll(Regroup(Empty(), locks, sp))
  }
}
