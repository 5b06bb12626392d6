/** Diffing two scans of a folder (apps/agent/src/watcher.ts, `scanOnce`): replaying the
    events gives the new file set, and renames pair files by their inodes. */
module FolderScans {
  import opened Protocol
  import opened JsMaps

  datatype FileMeta = FileMeta(ino: int, size: int, mtimeMs: int)

  type Files = JsMap<string, FileMeta>

  datatype FileEvent =
    Saved(path: string) | Renamed(fromPath: string, toPath: string) | Created(path: string) | Deleted(path: string)

  predicate HasInode(meta: FileMeta) {
    0 < meta.ino <= MAX_SAFE_INTEGER
  }

  predicate IsRenameCandidate(before: FileMeta, after: FileMeta) {
    HasInode(before) && HasInode(after) && before.ino == after.ino
  }

  predicate SameFile(known: Files, current: Files, deletion: string, creation: string) {
    deletion in known.data && creation in current.data
    && IsRenameCandidate(known.data[deletion], current.data[creation])
  }

  // ----- The diff, on values -----

  /** The paths of one scan that the other does not have. */
  function Missing(keys: seq<string>, other: Files): seq<string> {
    if keys == [] then []
    else if keys[0] in other.data then Missing(keys[1..], other)
    else [keys[0]] + Missing(keys[1..], other)
  }

  lemma {:induction false} MissingMembers(keys: seq<string>, other: Files)
    ensures forall p :: p in Missing(keys, other) <==> p in keys && p !in other.data
    ensures Distinct(keys) ==> Distinct(Missing(keys, other))
  {
    if keys != [] {
      MissingMembers(keys[1..], other);
      assert Distinct(keys) ==> Distinct(keys[1..]) && keys[0] !in keys[1..];
    }
  }

  function SavedEvents(keys: seq<string>, known: Files, current: Files): seq<FileEvent> {
    if keys == [] then []
    else
      (if keys[0] in known.data && keys[0] in current.data
          && (current.data[keys[0]].size != known.data[keys[0]].size
              || current.data[keys[0]].mtimeMs != known.data[keys[0]].mtimeMs)
       then [Saved(keys[0])] else [])
      + SavedEvents(keys[1..], known, current)
  }

  /** The creations that may be a deletion's file. */
  function CreationsOf(deletion: string, creations: seq<string>, known: Files, current: Files): seq<string> {
    if creations == [] then []
    else
      (if SameFile(known, current, deletion, creations[0]) then [creations[0]] else [])
        + CreationsOf(deletion, creations[1..], known, current)
  }

  function DeletionsOf(creation: string, deletions: seq<string>, known: Files, current: Files): seq<string> {
    if deletions == [] then []
    else
      (if SameFile(known, current, deletions[0], creation) then [deletions[0]] else [])
        + DeletionsOf(creation, deletions[1..], known, current)
  }

  /** The creation a deletion is paired with: the only candidate of a file whose only
      candidate it is. */
  function Partner(deletion: string, deletions: seq<string>, creations: seq<string>, known: Files,
                   current: Files): Option<string>
  {
    var candidates := CreationsOf(deletion, creations, known, current);
    if |candidates| == 1
       && |DeletionsOf(candidates[0], deletions, known, current)| == 1 then Some(candidates[0]) else None
  }

  function Renames(todo: seq<string>, deletions: seq<string>, creations: seq<string>, known: Files,
                   current: Files): seq<FileEvent>
  {
    if todo == [] then []
    else
      var partner := Partner(todo[0], deletions, creations, known, current);
      (if partner.Some? then [Renamed(todo[0], partner.value)] else [])
        + Renames(todo[1..], deletions, creations, known, current)
  }

  predicate IsPartner(creation: string, deletions: seq<string>, creations: seq<string>, known: Files, current: Files) {
    exists d :: d in deletions && Partner(d, deletions, creations, known, current) == Some(creation)
  }

  function NewFiles(todo: seq<string>, deletions: seq<string>, creations: seq<string>, known: Files,
                    current: Files): seq<FileEvent>
  {
    if todo == [] then []
    else
      (if IsPartner(todo[0], deletions, creations, known, current) then [] else [Created(todo[0])])
      + NewFiles(todo[1..], deletions, creations, known, current)
  }

  function GoneFiles(todo: seq<string>, deletions: seq<string>, creations: seq<string>, known: Files,
                     current: Files): seq<FileEvent>
  {
    if todo == [] then []
    else
      (if Partner(todo[0], deletions, creations, known, current).Some? then [] else [Deleted(todo[0])])
      + GoneFiles(todo[1..], deletions, creations, known, current)
  }

  function ScanEvents(known: Files, current: Files): seq<FileEvent> {
    var deletions, creations := Missing(known.keys, current), Missing(current.keys, known);
    SavedEvents(known.keys, known, current)
    + Renames(deletions, deletions, creations, known, current)
    + NewFiles(creations, deletions, creations, known, current)
    + GoneFiles(deletions, deletions, creations, known, current)
  }

  // ----- Pairing -----

  lemma {:induction false} CreationsMembers(deletion: string, creations: seq<string>, known: Files, current: Files)
    ensures forall c :: c in CreationsOf(deletion, creations, known, current) <==>
              c in creations && SameFile(known, current, deletion, c)
    ensures Distinct(creations) ==> Distinct(CreationsOf(deletion, creations, known, current))
  {
    if creations != [] {
      CreationsMembers(deletion, creations[1..], known, current);
      assert Distinct(creations) ==> creations[0] !in creations[1..] && Distinct(creations[1..]);
    }
  }

  lemma {:induction false} DeletionsMembers(creation: string, deletions: seq<string>, known: Files, current: Files)
    ensures forall d :: d in DeletionsOf(creation, deletions, known, current) <==>
              d in deletions && SameFile(known, current, d, creation)
    ensures Distinct(deletions) ==> Distinct(DeletionsOf(creation, deletions, known, current))
  {
    if deletions != [] {
      DeletionsMembers(creation, deletions[1..], known, current);
      assert Distinct(deletions) ==> deletions[0] !in deletions[1..] && Distinct(deletions[1..]);
    }
  }

  lemma {:induction false} OnlyCreation(deletion: string, creations: seq<string>, known: Files, current: Files,
                                        c: string)
    requires Distinct(creations) && c in CreationsOf(deletion, creations, known, current)
    ensures |CreationsOf(deletion, creations, known, current)| == 1 <==>
            forall x :: x in creations && SameFile(known, current, deletion, x) ==> x == c
  {
    CreationsMembers(deletion, creations, known, current);
    var r := CreationsOf(deletion, creations, known, current);
    if |r| != 1 {
      assert r[0] != r[1] && r[0] in r && r[1] in r;
    }
  }

  lemma {:induction false} OnlyDeletion(creation: string, deletions: seq<string>, known: Files, current: Files,
                                        d: string)
    requires Distinct(deletions) && d in DeletionsOf(creation, deletions, known, current)
    ensures |DeletionsOf(creation, deletions, known, current)| == 1 <==>
            forall x :: x in deletions && SameFile(known, current, x, creation) ==> x == d
  {
    DeletionsMembers(creation, deletions, known, current);
    var r := DeletionsOf(creation, deletions, known, current);
    if |r| != 1 {
      assert r[0] != r[1] && r[0] in r && r[1] in r;
    }
  }

  /** A vanished path is renamed to a new one exactly when both carry the same valid
      inode and no other vanished or new path carries it. */
  lemma PairedIff(deletions: seq<string>, creations: seq<string>, known: Files, current: Files, d: string, c: string)
    requires Distinct(deletions) && Distinct(creations) && d in deletions && c in creations
    ensures Partner(d, deletions, creations, known, current) == Some(c) <==>
            && SameFile(known, current, d, c)
            && (forall x :: x in creations && SameFile(known, current, d, x) ==> x == c)
            && (forall x :: x in deletions && SameFile(known, current, x, c) ==> x == d)
  {
    var candidates := CreationsOf(d, creations, known, current);
    CreationsMembers(d, creations, known, current);
    DeletionsMembers(c, deletions, known, current);
    if SameFile(known, current, d, c) {
      OnlyCreation(d, creations, known, current, c);
      OnlyDeletion(c, deletions, known, current, d);
      assert d in DeletionsOf(c, deletions, known, current);
      if |candidates| == 1 { assert candidates == [c]; }
    }
    if Partner(d, deletions, creations, known, current) == Some(c) {
      assert candidates[0] in candidates;
    }
  }

  /** No two vanished paths are renamed to the same new one. */
  lemma PairingIsInjective(deletions: seq<string>, creations: seq<string>, known: Files, current: Files, d: string,
                           d': string, c: string)
    requires Distinct(deletions) && Distinct(creations) && d in deletions && d' in deletions
    requires Partner(d, deletions, creations, known, current) == Some(c) ==
             Partner(d', deletions, creations, known, current)
    ensures d == d' && c in creations
  {
    var candidates := CreationsOf(d, creations, known, current);
    CreationsMembers(d, creations, known, current);
    assert candidates[0] in candidates;
    PairedIff(deletions, creations, known, current, d, c);
    PairedIff(deletions, creations, known, current, d', c);
  }

  // ----- Replaying -----

  function After(paths: set<string>, event: FileEvent): set<string> {
    match event
    case Saved(_) => paths
    case Renamed(fromPath, toPath) => paths - {fromPath} + {toPath}
    case Created(path) => paths + {path}
    case Deleted(path) => paths - {path}
  }

  function Replay(paths: set<string>, events: seq<FileEvent>): set<string>
    decreases |events|
  {
    if events == [] then paths else Replay(After(paths, events[0]), events[1..])
  }

  lemma {:induction false} ReplayConcat(paths: set<string>, a: seq<FileEvent>, b: seq<FileEvent>)
    ensures Replay(paths, a + b) == Replay(Replay(paths, a), b)
    decreases |a|
  {
    if a == [] {
      assert a + b == b;
    } else {
      assert (a + b)[1..] == a[1..] + b;
      ReplayConcat(After(paths, a[0]), a[1..], b);
    }
  }

  lemma ReplayFirst(paths: set<string>, event: FileEvent, rest: seq<FileEvent>)
    ensures Replay(paths, [event] + rest) == Replay(After(paths, event), rest)
    ensures Replay(paths, [] + rest) == Replay(paths, rest)
  {
    assert ([event] + rest)[1..] == rest && [] + rest == rest;
  }

  lemma {:induction false} ReplaySaved(paths: set<string>, keys: seq<string>, known: Files, current: Files)
    ensures Replay(paths, SavedEvents(keys, known, current)) == paths
  {
    if keys != [] {
      ReplaySaved(paths, keys[1..], known, current);
      ReplayFirst(paths, Saved(keys[0]), SavedEvents(keys[1..], known, current));
    }
  }

  /** The vanished paths among `todo` that are renamed, and what they are renamed to. */
  ghost function Moved(todo: seq<string>, deletions: seq<string>, creations: seq<string>, known: Files,
                       current: Files): set<string>
  {
    set d | d in todo && Partner(d, deletions, creations, known, current).Some?
  }

  ghost function Partners(todo: seq<string>, deletions: seq<string>, creations: seq<string>, known: Files,
                          current: Files): set<string>
  {
    set d | d in Moved(todo, deletions, creations, known, current) ::
      Partner(d, deletions, creations, known, current).GetOr("")
  }

  lemma PartnerIsNew(d: string, deletions: seq<string>, creations: seq<string>, known: Files, current: Files)
    ensures Partner(d, deletions, creations, known, current).Some? ==>
              Partner(d, deletions, creations, known, current).value in creations
  {
    var candidates := CreationsOf(d, creations, known, current);
    CreationsMembers(d, creations, known, current);
    if |candidates| == 1 { assert candidates[0] in candidates; }
  }

  lemma MovedCons(d: string, todo: seq<string>, deletions: seq<string>, creations: seq<string>, known: Files,
                  current: Files)
    ensures var partner := Partner(d, deletions, creations, known, current);
            && Moved([d] + todo, deletions, creations, known, current) ==
               Moved(todo, deletions, creations, known, current) + (if partner.Some? then {d} else {})
            && Partners([d] + todo, deletions, creations, known, current) ==
               Partners(todo, deletions, creations, known, current) + (if partner.Some? then {partner.value} else {})
  {
    hide Partner;
    var all := Moved([d] + todo, deletions, creations, known, current);
    assert forall x :: x in [d] + todo <==> x == d || x in todo;
    var partner := Partner(d, deletions, creations, known, current);
    assert all == Moved(todo, deletions, creations, known, current) + (if partner.Some? then {d} else {});
  }

  lemma {:induction false} ReplayRenames(paths: set<string>, todo: seq<string>, deletions: seq<string>,
                                         creations: seq<string>, known: Files, current: Files)
    requires (forall d :: d in todo ==> d in deletions) && (forall c :: c in creations ==> c !in deletions)
    ensures Replay(paths, Renames(todo, deletions, creations, known, current)) ==
            paths - Moved(todo, deletions, creations, known, current)
              + Partners(todo, deletions, creations, known, current)
    decreases |todo|
  {
    if todo == [] {
      assert Moved([], deletions, creations, known, current) == {}
             && Partners([], deletions, creations, known, current) == {};
    } else {
      var d, rest := todo[0], todo[1..];
      hide Partner;
      assert todo == [d] + rest;
      MovedCons(d, rest, deletions, creations, known, current);
      PartnerIsNew(d, deletions, creations, known, current);
      var partner := Partner(d, deletions, creations, known, current);
      ReplayFirst(paths, Renamed(d, partner.GetOr("")), Renames(rest, deletions, creations, known, current));
      ReplayRenames(if partner.Some? then After(paths, Renamed(d, partner.value))
                    else paths, rest, deletions, creations, known, current);
    }
  }

  lemma {:induction false} ReplayNew(paths: set<string>, todo: seq<string>, deletions: seq<string>,
                                     creations: seq<string>, known: Files, current: Files)
    ensures Replay(paths, NewFiles(todo, deletions, creations, known, current)) ==
            paths + set c | c in todo && !IsPartner(c, deletions, creations, known, current)
    decreases |todo|
  {
    hide IsPartner;
    if todo != [] {
      var c, rest := todo[0], todo[1..];
      assert todo == [c] + rest;
      ReplayFirst(paths, Created(c), NewFiles(rest, deletions, creations, known, current));
      ReplayNew(if IsPartner(c, deletions, creations, known, current) then paths
                else paths + {c}, rest, deletions, creations, known, current);
    }
  }

  lemma {:induction false} ReplayGone(paths: set<string>, todo: seq<string>, deletions: seq<string>,
                                      creations: seq<string>, known: Files, current: Files)
    ensures Replay(paths, GoneFiles(todo, deletions, creations, known, current)) ==
            paths - set d | d in todo && Partner(d, deletions, creations, known, current).None?
    decreases |todo|
  {
    hide Partner;
    if todo != [] {
      var d, rest := todo[0], todo[1..];
      assert todo == [d] + rest;
      ReplayFirst(paths, Deleted(d), GoneFiles(rest, deletions, creations, known, current));
      ReplayGone(if Partner(d, deletions, creations, known, current).Some? then paths
                 else paths - {d}, rest, deletions, creations, known, current);
    }
  }

  lemma PartnersAre(deletions: seq<string>, creations: seq<string>, known: Files, current: Files, c: string)
    ensures c in Partners(deletions, deletions, creations, known, current) <==>
              IsPartner(c, deletions, creations, known, current)
  {
    hide Partner;
    var moved := Moved(deletions, deletions, creations, known, current);
    if IsPartner(c, deletions, creations, known, current) {
      var d :| d in deletions && Partner(d, deletions, creations, known, current) == Some(c);
      assert d in moved;
    }
  }

  /** Replaying the events of a scan over the old file set gives the new one. */
  lemma ReplayGivesCurrent(known: Files, current: Files)
    requires known.Valid() && current.Valid()
    ensures Replay(known.data.Keys, ScanEvents(known, current)) == current.data.Keys
  {
    hide Partner, IsPartner, Moved, Partners, SavedEvents, Renames, NewFiles, GoneFiles;
    var deletions, creations := Missing(known.keys, current), Missing(current.keys, known);
    MissingMembers(known.keys, current);
    MissingMembers(current.keys, known);
    var saved, renames :=
      SavedEvents(known.keys, known, current), Renames(deletions, deletions, creations, known, current);
    var created, gone :=
      NewFiles(creations, deletions, creations, known, current),
      GoneFiles(deletions, deletions, creations, known, current);
    var paths := known.data.Keys;
    ReplayConcat(paths, saved + renames + created, gone);
    ReplayConcat(paths, saved + renames, created);
    ReplayConcat(paths, saved, renames);
    ReplaySaved(paths, known.keys, known, current);
    ReplayRenames(paths, deletions, deletions, creations, known, current);
    var moved, partners :=
      Moved(deletions, deletions, creations, known, current), Partners(deletions, deletions, creations, known, current);
    ReplayNew(paths - moved + partners, creations, deletions, creations, known, current);
    var unpaired := set c | c in creations && !IsPartner(c, deletions, creations, known, current);
    var lost := set d | d in deletions && Partner(d, deletions, creations, known, current).None?;
    ReplayGone(paths - moved + partners + unpaired, deletions, deletions, creations, known, current);
    SplitPaths(deletions, creations, known, current);
    forall p ensures p in paths - moved + partners + unpaired - lost <==> p in current.data {
      assert p in deletions <==> p in paths && p !in current.data;
      assert p in creations <==> p in current.data && p !in paths;
    }
  }

  /** Every vanished path is moved or lost, every new one a partner or fresh. */
  lemma SplitPaths(deletions: seq<string>, creations: seq<string>, known: Files, current: Files)
    ensures var moved := Moved(deletions, deletions, creations, known, current);
            var lost := set d | d in deletions && Partner(d, deletions, creations, known, current).None?;
            moved + lost == (set d | d in deletions) && moved !! lost
    ensures var partners := Partners(deletions, deletions, creations, known, current);
            var unpaired := set c | c in creations && !IsPartner(c, deletions, creations, known, current);
            partners + unpaired == (set c | c in creations) && partners !! unpaired
  {
    var partners := Partners(deletions, deletions, creations, known, current);
    forall c ensures c in partners <==> IsPartner(c, deletions, creations, known, current) {
      PartnersAre(deletions, creations, known, current, c);
    }
    forall c | c in partners ensures c in creations {
      var d :| d in deletions && Partner(d, deletions, creations, known, current) == Some(c);
      PartnerIsNew(d, deletions, creations, known, current);
    }
    hide Partner, Partners;
  }

  // ----- Every path once -----

  predicate Mentions(event: FileEvent, path: string) {
    match event
    case Saved(p) => p == path
    case Renamed(fromPath, toPath) => fromPath == path || toPath == path
    case Created(p) => p == path
    case Deleted(p) => p == path
  }

  function Count(events: seq<FileEvent>, path: string): nat {
    if events == [] then 0 else (if Mentions(events[0], path) then 1 else 0) + Count(events[1..], path)
  }

  lemma {:induction false} CountConcat(a: seq<FileEvent>, b: seq<FileEvent>, path: string)
    ensures Count(a + b, path) == Count(a, path) + Count(b, path)
  {
    if a == [] {
      assert a + b == b;
    } else {
      assert (a + b)[1..] == a[1..] + b;
      CountConcat(a[1..], b, path);
    }
  }

  lemma CountFirst(event: FileEvent, rest: seq<FileEvent>, path: string)
    ensures Count([event] + rest, path) == (if Mentions(event, path) then 1 else 0) + Count(rest, path)
    ensures Count([] + rest, path) == Count(rest, path)
  {
    assert ([event] + rest)[1..] == rest && [] + rest == rest;
  }

  lemma {:induction false} CountSaved(keys: seq<string>, known: Files, current: Files, path: string)
    requires path !in known.data || path !in current.data
    ensures Count(SavedEvents(keys, known, current), path) == 0
  {
    if keys != [] {
      CountSaved(keys[1..], known, current, path);
      CountFirst(Saved(keys[0]), SavedEvents(keys[1..], known, current), path);
    }
  }

  lemma {:induction false} CountGone(todo: seq<string>, deletions: seq<string>, creations: seq<string>, known: Files,
                                     current: Files, path: string)
    requires Distinct(todo)
    ensures Count(GoneFiles(todo, deletions, creations, known, current), path) ==
            if path in todo && Partner(path, deletions, creations, known, current).None? then 1 else 0
    decreases |todo|
  {
    hide Partner;
    if todo != [] {
      assert todo[0] !in todo[1..] && Distinct(todo[1..]);
      CountGone(todo[1..], deletions, creations, known, current, path);
      CountFirst(Deleted(todo[0]), GoneFiles(todo[1..], deletions, creations, known, current), path);
    }
  }

  lemma {:induction false} CountNew(todo: seq<string>, deletions: seq<string>, creations: seq<string>, known: Files,
                                    current: Files, path: string)
    requires Distinct(todo)
    ensures Count(NewFiles(todo, deletions, creations, known, current), path) ==
            if path in todo && !IsPartner(path, deletions, creations, known, current) then 1 else 0
    decreases |todo|
  {
    hide IsPartner;
    if todo != [] {
      assert todo[0] !in todo[1..] && Distinct(todo[1..]);
      CountNew(todo[1..], deletions, creations, known, current, path);
      CountFirst(Created(todo[0]), NewFiles(todo[1..], deletions, creations, known, current), path);
    }
  }

  /** A vanished path is in a rename exactly when it has a partner. */
  lemma {:induction false} CountRenamedFrom(todo: seq<string>, deletions: seq<string>, creations: seq<string>,
                                            known: Files, current: Files, path: string)
    requires Distinct(todo) && path !in creations
    ensures Count(Renames(todo, deletions, creations, known, current), path) ==
            if path in todo && Partner(path, deletions, creations, known, current).Some? then 1 else 0
    decreases |todo|
  {
    if todo != [] {
      assert todo[0] !in todo[1..] && Distinct(todo[1..]);
      CountRenamedFrom(todo[1..], deletions, creations, known, current, path);
      PartnerIsNew(todo[0], deletions, creations, known, current);
      hide Partner;
      var partner := Partner(todo[0], deletions, creations, known, current);
      CountFirst(Renamed(todo[0], partner.GetOr("")), Renames(todo[1..], deletions, creations, known, current), path);
    }
  }

  /** A new path is in a rename exactly when it is some vanished path's partner. */
  lemma {:induction false} CountRenamedTo(todo: seq<string>, deletions: seq<string>, creations: seq<string>,
                                          known: Files, current: Files, path: string)
    requires Distinct(todo) && Distinct(deletions) && Distinct(creations) && (forall d :: d in todo ==> d in deletions)
             && path !in deletions
    ensures Count(Renames(todo, deletions, creations, known, current), path) ==
            if exists d :: d in todo && Partner(d, deletions, creations, known, current) == Some(path) then 1 else 0
    decreases |todo|
  {
    hide Partner;
    if todo != [] {
      assert todo[0] !in todo[1..] && Distinct(todo[1..]) && todo[0] in todo;
      CountRenamedTo(todo[1..], deletions, creations, known, current, path);
      var partner := Partner(todo[0], deletions, creations, known, current);
      CountFirst(Renamed(todo[0], partner.GetOr("")), Renames(todo[1..], deletions, creations, known, current), path);
      if partner == Some(path) {
        forall d | d in todo[1..] ensures Partner(d, deletions, creations, known, current) != Some(path) {
          if Partner(d, deletions, creations, known, current) == Some(path) {
            PairingIsInjective(deletions, creations, known, current, todo[0], d, path);
          }
        }
      }
    }
  }

  /** Every path that vanished or appeared is in exactly one event. */
  lemma EveryPathOnce(known: Files, current: Files, path: string)
    requires known.Valid() && current.Valid() && (path in known.data) != (path in current.data)
    ensures Count(ScanEvents(known, current), path) == 1
  {
    hide Partner, SavedEvents, Renames, NewFiles, GoneFiles, Count;
    var deletions, creations := Missing(known.keys, current), Missing(current.keys, known);
    MissingMembers(known.keys, current);
    MissingMembers(current.keys, known);
    var saved, renames :=
      SavedEvents(known.keys, known, current), Renames(deletions, deletions, creations, known, current);
    var created, gone :=
      NewFiles(creations, deletions, creations, known, current),
      GoneFiles(deletions, deletions, creations, known, current);
    CountConcat(saved + renames + created, gone, path);
    CountConcat(saved + renames, created, path);
    CountConcat(saved, renames, path);
    CountSaved(known.keys, known, current, path);
    CountGone(deletions, deletions, creations, known, current, path);
    CountNew(creations, deletions, creations, known, current, path);
    if path in known.data {
      assert path in deletions && path !in creations;
      CountRenamedFrom(deletions, deletions, creations, known, current, path);
    } else {
      assert path in creations && path !in deletions;
      CountRenamedTo(deletions, deletions, creations, known, current, path);
    }
  }

  // ----- What a scan reports -----

  /** A path in both scans whose size or modification time changed. */
  predicate Rewritten(known: Files, current: Files, path: string) {
    && path in known.data && path in current.data
    && (known.data[path].size, known.data[path].mtimeMs) != (current.data[path].size, current.data[path].mtimeMs)
  }

  predicate Vanished(known: Files, current: Files, path: string) {
    path in known.data && path !in current.data
  }

  /** The file of a vanished path is found at a new one: both carry the same valid inode number, and
      no other vanished path and no other new path carries it. */
  ghost predicate MovedTo(known: Files, current: Files, fromPath: string, toPath: string) {
    && Vanished(known, current, fromPath) && Vanished(current, known, toPath)
    && known.data[fromPath].ino == current.data[toPath].ino && 1 <= known.data[fromPath].ino <= 9007199254740991
    && (forall x :: Vanished(known, current, x) && known.data[x].ino == known.data[fromPath].ino ==> x == fromPath)
    && (forall x :: Vanished(current, known, x) && current.data[x].ino == known.data[fromPath].ino ==> x == toPath)
  }

  lemma MovedIff(known: Files, current: Files, d: string, c: string)
    requires known.Valid() && current.Valid() && Vanished(known, current, d)
    ensures Partner(d, Missing(known.keys, current), Missing(current.keys, known), known, current) == Some(c)
       <==> MovedTo(known, current, d, c)
  {
    var deletions, creations := Missing(known.keys, current), Missing(current.keys, known);
    MissingMembers(known.keys, current);
    MissingMembers(current.keys, known);
    if c in creations {
      PairedIff(deletions, creations, known, current, d, c);
    } else {
      PartnerIsCreation(d, deletions, creations, known, current);
    }
  }

  lemma PartnerIsCreation(d: string, deletions: seq<string>, creations: seq<string>, known: Files, current: Files)
    ensures var partner := Partner(d, deletions, creations, known, current);
            partner.Some? ==> partner.value in creations
  {
    CreationsMembers(d, creations, known, current);
    var candidates := CreationsOf(d, creations, known, current);
    if |candidates| == 1 {
      assert candidates[0] in candidates;
    }
  }

  lemma {:induction false} SavedMembers(keys: seq<string>, known: Files, current: Files)
    ensures forall event :: event in SavedEvents(keys, known, current) <==>
              event.Saved? && event.path in keys && Rewritten(known, current, event.path)
  {
    if keys != [] {
      SavedMembers(keys[1..], known, current);
      assert forall path :: path in keys <==> path == keys[0] || path in keys[1..];
    }
  }

  lemma {:induction false} RenamesMembers(todo: seq<string>, deletions: seq<string>, creations: seq<string>,
                                          known: Files, current: Files)
    ensures forall event :: event in Renames(todo, deletions, creations, known, current) <==>
              event.Renamed? && event.fromPath in todo
              && Partner(event.fromPath, deletions, creations, known, current) == Some(event.toPath)
  {
    hide Partner;
    if todo != [] {
      RenamesMembers(todo[1..], deletions, creations, known, current);
      assert forall path :: path in todo <==> path == todo[0] || path in todo[1..];
    }
  }

  lemma {:induction false} NewMembers(todo: seq<string>, deletions: seq<string>, creations: seq<string>,
                                      known: Files, current: Files)
    ensures forall event :: event in NewFiles(todo, deletions, creations, known, current) <==>
              event.Created? && event.path in todo && !IsPartner(event.path, deletions, creations, known, current)
  {
    hide IsPartner;
    if todo != [] {
      NewMembers(todo[1..], deletions, creations, known, current);
      assert forall path :: path in todo <==> path == todo[0] || path in todo[1..];
    }
  }

  lemma {:induction false} GoneMembers(todo: seq<string>, deletions: seq<string>, creations: seq<string>,
                                       known: Files, current: Files)
    ensures forall event :: event in GoneFiles(todo, deletions, creations, known, current) <==>
              event.Deleted? && event.path in todo
              && Partner(event.path, deletions, creations, known, current).None?
  {
    hide Partner;
    if todo != [] {
      GoneMembers(todo[1..], deletions, creations, known, current);
      assert forall path :: path in todo <==> path == todo[0] || path in todo[1..];
    }
  }

  /** What the scan reports, told from the two file sets: a save for every rewritten path, a rename
      for every file found at a new path, and otherwise a creation or a deletion. */
  ghost predicate Reports(known: Files, current: Files, event: FileEvent) {
    match event
    case Saved(path) => Rewritten(known, current, path)
    case Renamed(fromPath, toPath) => MovedTo(known, current, fromPath, toPath)
    case Created(path) => Vanished(current, known, path) && forall d :: !MovedTo(known, current, d, path)
    case Deleted(path) => Vanished(known, current, path) && forall c :: !MovedTo(known, current, path, c)
  }

  lemma ScanReportsIff(known: Files, current: Files, event: FileEvent)
    requires known.Valid() && current.Valid()
    ensures event in ScanEvents(known, current) <==> Reports(known, current, event)
  {
    hide Partner, MovedTo, Rewritten, SavedEvents, Renames, NewFiles, GoneFiles;
    var deletions, creations := Missing(known.keys, current), Missing(current.keys, known);
    MissingMembers(known.keys, current);
    MissingMembers(current.keys, known);
    SavedMembers(known.keys, known, current);
    RenamesMembers(deletions, deletions, creations, known, current);
    NewMembers(creations, deletions, creations, known, current);
    GoneMembers(deletions, deletions, creations, known, current);
    OnlyVanished(known, current);
    match event
    case Saved(path) =>
      RewrittenIsKnown(known, current, path);
    case Renamed(fromPath, toPath) =>
      if Vanished(known, current, fromPath) { MovedIff(known, current, fromPath, toPath); }
    case Created(path) =>
      forall d | Vanished(known, current, d) { MovedIff(known, current, d, path); }
    case Deleted(path) =>
      if Vanished(known, current, path) { forall c { MovedIff(known, current, path, c); } }
  }

  lemma OnlyVanished(known: Files, current: Files)
    ensures forall d, c :: MovedTo(known, current, d, c) ==> Vanished(known, current, d)
  {
  }

  lemma RewrittenIsKnown(known: Files, current: Files, path: string)
    ensures Rewritten(known, current, path) ==> path in known.data
  {
  }

  // ----- The watcher -----

  type CandidateMap = map<string, seq<string>>

  function Listed(m: CandidateMap, key: string): seq<string> {
    if key in m then m[key] else []
  }

  function Noted(m: CandidateMap, key: string, value: string): CandidateMap {
    m[key := Listed(m, key) + [value]]
  }

  lemma {:induction false} CreationsAppend(d: string, creations: seq<string>, c: string, known: Files, current: Files)
    ensures CreationsOf(d, creations + [c], known, current) ==
            CreationsOf(d, creations, known, current) + (if SameFile(known, current, d, c) then [c] else [])
  {
    if creations == [] {
      assert [] + [c] == [c] && [c][1..] == [];
    } else {
      assert (creations + [c])[1..] == creations[1..] + [c];
      CreationsAppend(d, creations[1..], c, known, current);
    }
  }

  lemma {:induction false} DeletionsAppend(c: string, deletions: seq<string>, d: string, known: Files, current: Files)
    ensures DeletionsOf(c, deletions + [d], known, current) ==
            DeletionsOf(c, deletions, known, current) + (if SameFile(known, current, d, c) then [d] else [])
  {
    if deletions == [] {
      assert [] + [d] == [d] && [d][1..] == [];
    } else {
      assert (deletions + [d])[1..] == deletions[1..] + [d];
      DeletionsAppend(c, deletions[1..], d, known, current);
    }
  }

  /** The saved files and the vanished paths. */
  method CompareKnown(known: Files, current: Files) returns (events: seq<FileEvent>, deletions: seq<string>)
    requires known.Valid()
    ensures events == SavedEvents(known.keys, known, current) && deletions == Missing(known.keys, current)
  {
    hide Distinct, SavedEvents, Missing;
    WholeAndNone(known.keys);
    events, deletions := [], [];
    for i := 0 to |known.keys|
      invariant events + SavedEvents(known.keys[i..], known, current) == SavedEvents(known.keys, known, current)
      invariant deletions + Missing(known.keys[i..], current) == Missing(known.keys, current)
    {
      var path := known.keys[i];
      assert path in known.keys;
      ComparedStep(known, current, i);
      if path !in current.data {
        Associates(deletions, [path], Missing(known.keys[i + 1..], current));
        deletions := deletions + [path];
      } else if current.data[path].size != known.data[path].size
                || current.data[path].mtimeMs != known.data[path].mtimeMs {
        Associates(events, [Saved(path)], SavedEvents(known.keys[i + 1..], known, current));
        events := events + [Saved(path)];
      }
    }
    NothingCompared(known, current);
  }

  predicate Touched(path: string, known: Files, current: Files) {
    && path in known.data && path in current.data
    && (current.data[path].size != known.data[path].size || current.data[path].mtimeMs != known.data[path].mtimeMs)
  }

  lemma ComparedStep(known: Files, current: Files, i: nat)
    requires i < |known.keys|
    ensures SavedEvents(known.keys[i..], known, current)
         == if Touched(known.keys[i], known, current)
            then [Saved(known.keys[i])] + SavedEvents(known.keys[i + 1..], known, current)
            else SavedEvents(known.keys[i + 1..], known, current)
    ensures Missing(known.keys[i..], current)
         == if known.keys[i] in current.data then Missing(known.keys[i + 1..], current)
            else [known.keys[i]] + Missing(known.keys[i + 1..], current)
  {
    assert known.keys[i..][1..] == known.keys[i + 1..];
    assert [] + SavedEvents(known.keys[i + 1..], known, current) == SavedEvents(known.keys[i + 1..], known, current);
  }

  lemma NothingCompared(known: Files, current: Files)
    ensures SavedEvents([], known, current) == [] && Missing([], current) == []
  {
  }

  method FindCreations(known: Files, current: Files) returns (creations: seq<string>)
    ensures creations == Missing(current.keys, known)
  {
    hide Distinct;
    creations := [];
    for i := 0 to |current.keys|
      invariant creations + Missing(current.keys[i..], known) == Missing(current.keys, known)
    {
      assert current.keys[i..][1..] == current.keys[i + 1..];
      if current.keys[i] !in known.data {
        Associates(creations, [current.keys[i]], Missing(current.keys[i + 1..], known));
        creations := creations + [current.keys[i]];
      }
    }
  }

  ghost predicate ByDeletion(m: CandidateMap, done: seq<string>, creations: seq<string>, known: Files, current: Files) {
    forall d :: Listed(m, d) == if d in done then CreationsOf(d, creations, known, current) else []
  }

  ghost predicate ByCreation(m: CandidateMap, done: seq<string>, creations: seq<string>, known: Files, current: Files) {
    forall c :: c in creations ==> Listed(m, c) == DeletionsOf(c, done, known, current)
  }

  /** The maps after one vanished path was compared with the new ones in `front`. */
  ghost predicate Compared(byDeletion: CandidateMap, byCreation: CandidateMap, byDeletion': CandidateMap,
                           byCreation': CandidateMap, del: string, done: seq<string>, front: seq<string>,
                           known: Files, current: Files)
  {
    && (forall d :: Listed(byDeletion', d) ==
                    if d == del then CreationsOf(del, front, known, current) else Listed(byDeletion, d))
    && (forall c :: Listed(byCreation', c) ==
                    if c in front then DeletionsOf(c, done + [del], known, current) else Listed(byCreation, c))
  }

  lemma ComparesNext(byDeletion: CandidateMap, byCreation: CandidateMap, byDeletion': CandidateMap,
                     byCreation': CandidateMap, del: string, done: seq<string>, front: seq<string>, cre: string,
                     known: Files, current: Files)
    requires Compared(byDeletion, byCreation, byDeletion', byCreation', del, done, front, known, current)
    requires cre !in front && Listed(byCreation, cre) == DeletionsOf(cre, done, known, current)
    ensures if SameFile(known, current, del, cre)
            then Compared(byDeletion, byCreation, Noted(byDeletion', del, cre), Noted(byCreation', cre, del), del,
                          done, front + [cre], known, current)
            else Compared(byDeletion, byCreation, byDeletion', byCreation', del, done, front + [cre], known, current)
  {
    hide CreationsOf, DeletionsOf, SameFile, Listed, Noted;
    CreationsAppend(del, front, cre, known, current);
    DeletionsAppend(cre, done, del, known, current);
    NotedListed(byDeletion', del, cre);
    NotedListed(byCreation', cre, del);
    assert CreationsOf(del, front, known, current) + [] == CreationsOf(del, front, known, current);
    assert DeletionsOf(cre, done, known, current) + [] == DeletionsOf(cre, done, known, current);
  }

  /** One vanished path against every new one. */
  method MatchOne(del: string, creations: seq<string>, byDeletion: CandidateMap, byCreation: CandidateMap, known: Files,
                  current: Files,
                  ghost done: seq<string>) returns (byDeletion': CandidateMap, byCreation': CandidateMap)
    requires Distinct(creations) && del !in done
    requires ByDeletion(byDeletion, done, creations, known, current)
             && ByCreation(byCreation, done, creations, known, current)
    ensures ByDeletion(byDeletion', done + [del], creations, known, current)
    ensures ByCreation(byCreation', done + [del], creations, known, current)
  {
    hide Compared, ByDeletion, ByCreation, Listed, Noted, CreationsOf, DeletionsOf, SameFile, Distinct;
    byDeletion', byCreation' := byDeletion, byCreation;
    ComparesNothing(del, creations, byDeletion, byCreation, known, current, done);
    for j := 0 to |creations|
      invariant Compared(byDeletion, byCreation, byDeletion', byCreation', del, done, creations[..j], known, current)
    {
      var cre := creations[j];
      NotBefore(creations, j);
      assert cre in creations && creations[..j + 1] == creations[..j] + [cre];
      ComparesNext(byDeletion, byCreation, byDeletion', byCreation', del, done, creations[..j], cre, known, current);
      if SameFile(known, current, del, cre) {
        byDeletion' := Noted(byDeletion', del, cre);
        byCreation' := Noted(byCreation', cre, del);
      }
    }
    assert creations[..|creations|] == creations;
    ComparedAll(del, creations, byDeletion, byCreation, byDeletion', byCreation', known, current, done);
  }

  lemma ComparesNothing(del: string, creations: seq<string>, byDeletion: CandidateMap, byCreation: CandidateMap,
                        known: Files, current: Files, done: seq<string>)
    requires del !in done && ByDeletion(byDeletion, done, creations, known, current)
    requires ByCreation(byCreation, done, creations, known, current)
    ensures Compared(byDeletion, byCreation, byDeletion, byCreation, del, done, [], known, current)
    ensures forall c :: c in creations ==> Listed(byCreation, c) == DeletionsOf(c, done, known, current)
  {
    hide Listed;
  }

  lemma ComparedAll(del: string, creations: seq<string>, byDeletion: CandidateMap, byCreation: CandidateMap,
                    byDeletion': CandidateMap, byCreation': CandidateMap, known: Files, current: Files,
                    done: seq<string>)
    requires ByDeletion(byDeletion, done, creations, known, current)
    requires Compared(byDeletion, byCreation, byDeletion', byCreation', del, done, creations, known, current)
    ensures ByDeletion(byDeletion', done + [del], creations, known, current)
    ensures ByCreation(byCreation', done + [del], creations, known, current)
  {
    hide Listed, CreationsOf, DeletionsOf;
  }

  lemma NotedListed(m: CandidateMap, key: string, value: string)
    ensures forall k :: Listed(Noted(m, key, value), k) == if k == key then Listed(m, key) + [value] else Listed(m, k)
    ensures Listed(m, key) + [] == Listed(m, key)
  {
  }

  lemma NotBefore(keys: seq<string>, j: nat)
    requires Distinct(keys) && j < |keys|
    ensures keys[j] !in keys[..j]
  {
  }

  lemma DistinctSlices(keys: seq<string>, j: nat)
    requires Distinct(keys) && j < |keys|
    ensures keys[j] !in keys[..j] && keys[j] !in keys[j + 1..] && keys[..j + 1] == keys[..j] + [keys[j]]
  {
  }

  method Candidates(deletions: seq<string>, creations: seq<string>, known: Files, current: Files)
    returns (byDeletion: CandidateMap, byCreation: CandidateMap)
    requires Distinct(deletions) && Distinct(creations)
    ensures ByDeletion(byDeletion, deletions, creations, known, current)
            && ByCreation(byCreation, deletions, creations, known, current)
  {
    byDeletion, byCreation := map[], map[];
    for i := 0 to |deletions|
      invariant ByDeletion(byDeletion, deletions[..i], creations, known, current)
      invariant ByCreation(byCreation, deletions[..i], creations, known, current)
    {
      hide ByDeletion, ByCreation, Distinct;
      DistinctSlices(deletions, i);
      byDeletion, byCreation :=
        MatchOne(deletions[i], creations, byDeletion, byCreation, known, current, deletions[..i]);
    }
    assert deletions[..|deletions|] == deletions;
  }

  /** Pair the vanished paths one after the other. */
  method Pair(deletions: seq<string>, creations: seq<string>, byDeletion: CandidateMap, byCreation: CandidateMap,
              known: Files, current: Files)
    returns (renames: seq<FileEvent>, unmatched: seq<string>, used: set<string>)
    requires Distinct(deletions) && Distinct(creations)
    requires ByDeletion(byDeletion, deletions, creations, known, current)
             && ByCreation(byCreation, deletions, creations, known, current)
    ensures renames == Renames(deletions, deletions, creations, known, current)
    ensures Deletes(unmatched) == GoneFiles(deletions, deletions, creations, known, current)
    ensures forall c :: c in used <==> IsPartner(c, deletions, creations, known, current)
  {
    hide Partner, CreationsOf, DeletionsOf, Distinct, Renames, GoneFiles, ByDeletion, ByCreation, Listed;
    WholeAndNone(deletions);
    renames, unmatched, used := [], [], {};
    for i := 0 to |deletions|
      invariant renames + Renames(deletions[i..], deletions, creations, known, current) ==
                Renames(deletions, deletions, creations, known, current)
      invariant Deletes(unmatched) + GoneFiles(deletions[i..], deletions, creations, known, current) ==
                GoneFiles(deletions, deletions, creations, known, current)
      invariant forall c :: c in used <==>
                  exists d :: d in deletions[..i] && Partner(d, deletions, creations, known, current) == Some(c)
    {
      var del := deletions[i];
      DistinctSlices(deletions, i);
      assert del in deletions;
      RenamesStep(deletions, i, deletions, creations, known, current);
      var candidates := Listed(byDeletion, del);
      PartnerByMaps(del, deletions, creations, byDeletion, byCreation, known, current);
      if |candidates| == 1 && |Listed(byCreation, candidates[0])| == 1 && candidates[0] !in used {
        Associates(renames, [Renamed(del, candidates[0])],
                   Renames(deletions[i + 1..], deletions, creations, known, current));
        used := used + {candidates[0]};
        renames := renames + [Renamed(del, candidates[0])];
        assert [] + GoneFiles(deletions[i + 1..], deletions, creations, known, current)
            == GoneFiles(deletions[i + 1..], deletions, creations, known, current);
      } else {
        assert [] + Renames(deletions[i + 1..], deletions, creations, known, current)
            == Renames(deletions[i + 1..], deletions, creations, known, current);
        NotUsedTwice(del, deletions, creations, used, i, known, current);
        Associates(Deletes(unmatched), [Deleted(del)],
                   GoneFiles(deletions[i + 1..], deletions, creations, known, current));
        DeletesAppend(unmatched, del);
        unmatched := unmatched + [del];
      }
    }
    NoneNew(deletions, creations, known, current);
  }

  function Deletes(paths: seq<string>): seq<FileEvent> {
    if paths == [] then [] else [Deleted(paths[0])] + Deletes(paths[1..])
  }

  lemma {:induction false} DeletesAppend(paths: seq<string>, path: string)
    ensures Deletes(paths + [path]) == Deletes(paths) + [Deleted(path)]
  {
    if paths == [] {
      assert [] + [path] == [path] && [path][1..] == [];
    } else {
      assert (paths + [path])[1..] == paths[1..] + [path];
      DeletesAppend(paths[1..], path);
    }
  }

  lemma PartnerByMaps(del: string, deletions: seq<string>, creations: seq<string>, byDeletion: CandidateMap,
                      byCreation: CandidateMap, known: Files,
                      current: Files)
    requires del in deletions
    requires ByDeletion(byDeletion, deletions, creations, known, current)
             && ByCreation(byCreation, deletions, creations, known, current)
    ensures var candidates := Listed(byDeletion, del);
            Partner(del, deletions, creations, known, current) ==
            if |candidates| == 1 && |Listed(byCreation, candidates[0])| == 1 then Some(candidates[0]) else None
  {
    var candidates := Listed(byDeletion, del);
    assert candidates == CreationsOf(del, creations, known, current);
    CreationsMembers(del, creations, known, current);
    if |candidates| == 1 { assert candidates[0] in candidates; }
  }

  /** The test for a used creation never decides: a partner is used at most once. */
  lemma NotUsedTwice(del: string, deletions: seq<string>, creations: seq<string>, used: set<string>, i: nat,
                     known: Files, current: Files)
    requires Distinct(deletions) && Distinct(creations) && i < |deletions| && del == deletions[i]
    requires forall c :: c in used <==>
               exists d :: d in deletions[..i] && Partner(d, deletions, creations, known, current) == Some(c)
    ensures Partner(del, deletions, creations, known, current).Some? ==>
              Partner(del, deletions, creations, known, current).value !in used
  {
    hide Partner;
    var partner := Partner(del, deletions, creations, known, current);
    if partner.Some? && partner.value in used {
      var d :| d in deletions[..i] && Partner(d, deletions, creations, known, current) == partner;
      PairingIsInjective(deletions, creations, known, current, d, del, partner.value);
      NotBefore(deletions, i);
    }
  }

  lemma NewFilesStep(todo: seq<string>, i: nat, deletions: seq<string>, creations: seq<string>, known: Files,
                     current: Files)
    requires i < |todo|
    ensures NewFiles(todo[i..], deletions, creations, known, current)
         == (if IsPartner(todo[i], deletions, creations, known, current) then [] else [Created(todo[i])])
            + NewFiles(todo[i + 1..], deletions, creations, known, current)
  {
    hide IsPartner;
    assert todo[i..][1..] == todo[i + 1..];
  }

  lemma RenamesStep(todo: seq<string>, i: nat, deletions: seq<string>, creations: seq<string>, known: Files,
                    current: Files)
    requires i < |todo|
    ensures var partner := Partner(todo[i], deletions, creations, known, current);
            && Renames(todo[i..], deletions, creations, known, current)
               == (if partner.Some? then [Renamed(todo[i], partner.value)] else [])
                  + Renames(todo[i + 1..], deletions, creations, known, current)
            && GoneFiles(todo[i..], deletions, creations, known, current)
               == (if partner.Some? then [] else [Deleted(todo[i])])
                  + GoneFiles(todo[i + 1..], deletions, creations, known, current)
  {
    hide Partner;
    assert todo[i..][1..] == todo[i + 1..];
  }

  lemma WholeAndNone(todo: seq<string>)
    ensures todo[0..] == todo && todo[..0] == [] && todo[|todo|..] == [] && todo[..|todo|] == todo
  {
  }

  method Unused(creations: seq<string>, used: set<string>, ghost deletions: seq<string>, ghost known: Files,
                ghost current: Files)
    returns (events: seq<FileEvent>)
    requires forall c :: c in used <==> IsPartner(c, deletions, creations, known, current)
    ensures events == NewFiles(creations, deletions, creations, known, current)
  {
    hide IsPartner, NewFiles;
    WholeAndNone(creations);
    events := [];
    for i := 0 to |creations|
      invariant events + NewFiles(creations[i..], deletions, creations, known, current) ==
                NewFiles(creations, deletions, creations, known, current)
    {
      NewFilesStep(creations, i, deletions, creations, known, current);
      if creations[i] !in used {
        Associates(events, [Created(creations[i])], NewFiles(creations[i + 1..], deletions, creations, known, current));
        events := events + [Created(creations[i])];
      } else {
        assert [] + NewFiles(creations[i + 1..], deletions, creations, known, current)
            == NewFiles(creations[i + 1..], deletions, creations, known, current);
      }
    }
    NoneNew(deletions, creations, known, current);
  }

  lemma NoneNew(deletions: seq<string>, creations: seq<string>, known: Files, current: Files)
    ensures NewFiles([], deletions, creations, known, current) == []
    ensures Renames([], deletions, creations, known, current) == []
    ensures GoneFiles([], deletions, creations, known, current) == []
  {
  }

  class FolderWatcher {
    var known: Files

    constructor ()
      ensures known == Empty()
    {
      known := Empty();
    }

    /** Take the current tree as the baseline, without events. */
    method Prime(tree: Files)
      modifies this
      ensures known == tree
    {
      known := tree;
    }

    /** One scan: diff against the baseline, then make the new tree the baseline. */
    method ScanOnce(current: Files) returns (events: seq<FileEvent>)
      requires known.Valid() && current.Valid()
      modifies this
      ensures known == current && events == ScanEvents(old(known), current)
    {
      hide SavedEvents, Renames, NewFiles, GoneFiles, IsPartner, Distinct, ByDeletion, ByCreation;
      var saved, deletions := CompareKnown(known, current);
      var creations := FindCreations(known, current);
      MissingMembers(known.keys, current);
      MissingMembers(current.keys, known);
      var byDeletion, byCreation := Candidates(deletions, creations, known, current);
      var renames, unmatched, used := Pair(deletions, creations, byDeletion, byCreation, known, current);
      var created := Unused(creations, used, deletions, known, current);
      events := saved + renames + created + Deletes(unmatched);
      known := current;
    }
  }

  // ----- Any sequence of scans -----

  function ReplayScans(paths: set<string>, baseline: Files, scans: seq<Files>): set<string>
    decreases |scans|
  {
    if scans == [] then paths else ReplayScans(Replay(paths, ScanEvents(baseline, scans[0])), scans[0], scans[1..])
  }

  /** Replaying the events of any sequence of scans over the primed file set yields the
      files of the last scan. */
  lemma {:induction false} ReplayAllScans(baseline: Files, scans: seq<Files>)
    requires baseline.Valid() && forall s: Files :: s in scans ==> s.Valid()
    ensures ReplayScans(baseline.data.Keys, baseline, scans) ==
            (if scans == [] then baseline else scans[|scans| - 1]).data.Keys
    decreases |scans|
  {
    hide ScanEvents, Replay;
    if scans != [] {
      assert scans[0] in scans;
      ReplayGivesCurrent(baseline, scans[0]);
      ReplayAllScans(scans[0], scans[1..]);
    }
  }
}
