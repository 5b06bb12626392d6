/** The active-editor bookkeeping: the extension's path tracker
    (apps/vscode-extension/src/editor-host.ts, vscode-adapter.ts) and the scopes the agent
    claims and retires for it (apps/agent/src/agent.ts). */
module EditorScopes {
  import opened Protocol
  import Paths

  // ----- Paths the agent accepts -----

  predicate Escapes(normalized: string) {
    normalized == ".." || "../" <= normalized
  }

  predicate LocalControl(normalized: string) {
    || normalized == ".coordination"
    || normalized == ".cfls-cache"
    || ".coordination/" <= normalized
    || ".cfls-cache/" <= normalized
  }

  predicate DriveLetter(c: char) {
    'A' <= c <= 'Z' || 'a' <= c <= 'z'
  }

  predicate Rooted(path: string) {
    || (path != "" && path[0] in "/\\")
    || (|path| > 1 && DriveLetter(path[0]) && path[1] == ':')
  }

  /** The path an untrusted local client may name; `excluded` is the analyzer's exclusion
      list. */
  function RepositoryRelativePath(value: Option<string>, excluded: string -> bool): (path: Option<string>)
    ensures path.Some? ==> path.value != ""
  {
    if value.None? || value.value == "" || '\0' in value.value || Rooted(value.value) then None
    else
      var normalized := Paths.NormalizePath(value.value);
      if normalized == "" || Escapes(normalized) || excluded(normalized) || LocalControl(normalized) then None
      else Some(normalized)
  }

  /** The segments that a path resolves to. */
  function Resolved(value: string): seq<string> {
    Paths.Resolve(Paths.Segments(value))
  }

  /** A normalised path starts with a segment exactly if that is its first one. */
  lemma FirstSegment(segments: seq<string>, segment: string)
    requires segments != [] && (forall s :: s in segments ==> Paths.Plain(s)) && Paths.Plain(segment)
    ensures Paths.Join(segments) == segment || segment + "/" <= Paths.Join(segments) <==> segments[0] == segment
  {
    hide Paths.Segments, Paths.Plain;
    var path := Paths.Join(segments);
    Paths.SegmentsOfJoin(segments);
    if path == segment {
      Paths.SegmentsOfPlain(segment, "");
    } else if segment + "/" <= path {
      var rest := path[|segment| + 1..];
      assert path == segment + "/" + rest;
      Paths.SegmentsOfPlain(segment, rest);
    }
  }

  /** Exactly these paths are accepted: not rooted, and resolving to a path below the repository and
      outside the excluded and the control directories. The accepted path is the normal form, all
      of its segments proper names. */
  lemma AcceptedPathIff(value: string, excluded: string -> bool)
    ensures var path := RepositoryRelativePath(Some(value), excluded); var segments := Resolved(value);
            && (path.Some? <==>
                && value != "" && '\0' !in value && !Rooted(value)
                && segments != [] && segments[0] !in {"..", ".coordination", ".cfls-cache"}
                && !excluded(Paths.NormalizePath(value)))
            && (path.Some? ==>
                && path.value == Paths.NormalizePath(value) == Paths.NormalizePath(path.value)
                && Paths.Segments(path.value) == segments
                && (forall s :: s in segments ==> s != "" && s != "." && s != "..")
                && path.value[0] !in "/\\")
  {
    hide Paths.Segments, Paths.Resolve, Rooted;
    var segments := Resolved(value);
    Paths.ResolveIsCanonical(Paths.Segments(value));
    Paths.NormalizeTwice(value);
    if segments != [] {
      FirstSegment(segments, "..");
      FirstSegment(segments, ".coordination");
      FirstSegment(segments, ".cfls-cache");
      Paths.SegmentsOfJoin(segments);
      StartsWithName(segments);
      if segments[0] != ".." { NoParent(segments); }
    }
  }

  lemma StartsWithName(segments: seq<string>)
    requires segments != [] && Paths.Canonical(segments)
    ensures segments[0] != "" && Paths.Join(segments) != ""
    ensures Paths.Join(segments)[0] == segments[0][0] && segments[0][0] !in "/\\"
  {
    assert segments[0] in segments;
    assert segments[0][0] in segments[0];
  }

  /** `..` stands in front only. */
  lemma NoParent(segments: seq<string>)
    requires Paths.Canonical(segments) && segments != [] && segments[0] != ".."
    ensures forall s :: s in segments ==> s != ".."
  {
    var i := 0;
    while i < |segments|
      invariant 0 <= i <= |segments| && forall j :: 0 <= j < i ==> segments[j] != ".."
    {
      if i > 0 { assert segments[i - 1] != ".."; }
      i := i + 1;
    }
  }

  /** The drive is looked for before the path is normalised, so an accepted path may start with one
      all the same: exactly if the first segment that the path resolves to does. */
  lemma DriveMayRemain(value: string, excluded: string -> bool)
    requires RepositoryRelativePath(Some(value), excluded).Some?
    ensures Rooted(RepositoryRelativePath(Some(value), excluded).value) <==>
            |Resolved(value)[0]| > 1 && DriveLetter(Resolved(value)[0][0]) && Resolved(value)[0][1] == ':'
  {
    hide Paths.Segments, Paths.Resolve;
    var segments := Resolved(value);
    AcceptedPathIff(value, excluded);
    Paths.ResolveIsCanonical(Paths.Segments(value));
    StartsWithName(segments);
    SecondCharacter(segments);
  }

  lemma SecondCharacter(segments: seq<string>)
    requires segments != []
    ensures |segments[0]| > 1 ==> |Paths.Join(segments)| > 1 && Paths.Join(segments)[1] == segments[0][1]
    ensures |segments[0]| == 1 && |Paths.Join(segments)| > 1 ==> Paths.Join(segments)[1] == '/'
  {
  }

  lemma DriveBehindDot()
    ensures RepositoryRelativePath(Some("./C:/x"), _ => false) == Some("C:/x") && Rooted("C:/x")
  {
    hide Paths.Segments, Paths.Resolve, Paths.Join, Paths.NormalizePath;
    DriveSegments();
    assert Resolved("./C:/x") == ["C:", "x"];
    DriveNormalized();
    AcceptedPathIff("./C:/x", _ => false);
  }

  lemma DriveSegments()
    ensures Paths.Segments("./C:/x") == [".", "C:", "x"]
    ensures Paths.Resolve([".", "C:", "x"]) == ["C:", "x"]
  {
    hide Paths.Segments, Paths.Resolve;
    Paths.SegmentsOfPlain(".", "C:/x");
    Paths.SegmentsOfPlain("C:", "x");
    Paths.SegmentsOfPlain("x", "");
    assert "." + "/" + "C:/x" == "./C:/x" && "C:" + "/" + "x" == "C:/x";
    assert [".", "C:", "x"] == ["."] + (["C:"] + ["x"]);
    ResolveThree(".", "C:", "x");
    assert ["C:"] + ["x"] == ["C:", "x"];
  }

  lemma DriveNormalized()
    ensures Paths.NormalizePath("./C:/x") == "C:/x"
  {
    hide Paths.Segments, Paths.Resolve, Paths.Join;
    DriveSegments();
    JoinTwo("C:", "x");
    assert "C:" + "/" + "x" == "C:/x";
  }

  lemma ResolveThree(a: string, b: string, c: string)
    ensures Paths.Resolve([a, b, c]) == Paths.Push(Paths.Push(Paths.Push([], a), b), c)
  {
    hide Paths.Push;
    assert [a, b, c][..2] == [a, b] && [a, b][..1] == [a] && [a][..0] == [];
    assert Paths.Resolve([a]) == Paths.Push([], a);
    assert Paths.Resolve([a, b]) == Paths.Push(Paths.Resolve([a]), b);
  }

  lemma JoinTwo(a: string, b: string)
    ensures Paths.Join([a, b]) == a + "/" + b
  {
    assert [a, b][1..] == [b];
  }

  // ----- Messages to the host -----

  datatype Message =
    | LockAcquire(scope: string)
    | LockRelease(scope: string)
    | PathRenamed(fromPath: string, toPath: string)
    | PathDeleted(path: string)

  /** What one message does to the scopes the sender holds at the host. */
  function Received(held: set<string>, message: Message): set<string> {
    match message
    case LockAcquire(scope) => held + {scope}
    case LockRelease(scope) => held - {scope}
    case PathRenamed(fromPath, toPath) =>
      if fromPath in held then held - {fromPath} + {toPath} else held
    case PathDeleted(path) => held - {path}
  }

  function Held(held: set<string>, messages: seq<Message>): set<string>
    decreases messages
  {
    if messages == [] then held else Held(Received(held, messages[0]), messages[1..])
  }

  lemma {:induction false} HeldAppend(held: set<string>, first: seq<Message>, second: seq<Message>)
    ensures Held(held, first + second) == Held(Held(held, first), second)
    decreases first
  {
    if first == [] {
      assert first + second == second;
    } else {
      assert (first + second)[1..] == first[1..] + second;
      HeldAppend(Received(held, first[0]), first[1..], second);
    }
  }

  // ----- The agent's scopes, in insertion order -----

  predicate NoDuplicates(scopes: seq<string>) {
    forall i, j :: 0 <= i < j < |scopes| ==> scopes[i] != scopes[j]
  }

  function Members(scopes: seq<string>): set<string> {
    set scope | scope in scopes
  }

  function Without(scopes: seq<string>, path: string): seq<string> {
    if scopes == [] then []
    else if scopes[0] == path then Without(scopes[1..], path)
    else [scopes[0]] + Without(scopes[1..], path)
  }

  function With(scopes: seq<string>, path: string): seq<string> {
    if path in scopes then scopes else scopes + [path]
  }

  lemma {:induction false} WithoutMembers(scopes: seq<string>, path: string)
    ensures Members(Without(scopes, path)) == Members(scopes) - {path}
    ensures NoDuplicates(scopes) ==> NoDuplicates(Without(scopes, path))
    ensures path !in scopes ==> Without(scopes, path) == scopes
  {
    if scopes != [] {
      WithoutMembers(scopes[1..], path);
      var rest := Without(scopes[1..], path);
      assert Members(scopes) == Members(scopes[1..]) + {scopes[0]};
      assert scopes[0] != path ==> Members([scopes[0]] + rest) == Members(rest) + {scopes[0]};
      assert NoDuplicates(scopes) ==> NoDuplicates(scopes[1..]);
      if NoDuplicates(scopes) && scopes[0] != path {
        assert scopes[0] !in Members(scopes[1..]);
        InMembers(scopes[1..], rest, path);
      }
    }
  }

  lemma WithMembers(scopes: seq<string>, path: string)
    ensures Members(With(scopes, path)) == Members(scopes) + {path}
    ensures NoDuplicates(scopes) ==> NoDuplicates(With(scopes, path))
  {
  }

  // ----- What the agent does with one input -----

  datatype EditorEvent =
    | ActiveEditorChanged(path: Option<string>, oldPath: Option<string>, snapshot: bool)
    | FileClosed(path: Option<string>)
    | FileRenamed(path: Option<string>, oldPath: Option<string>)
    | FileDeleted(path: Option<string>)
    | PassiveActivity(path: Option<string>)

  /** An event from the extension, or a change the folder watcher noticed. */
  datatype Input =
    | FromEditor(event: EditorEvent)
    | WatchedRename(fromPath: string, toPath: string)
    | WatchedDeletion(path: string)

  datatype Outcome = Outcome(scopes: seq<string>, sent: seq<Message>)

  function Claim(scopes: seq<string>, path: string): Outcome {
    if path in scopes then Outcome(scopes, []) else Outcome(scopes + [path], [LockAcquire(path)])
  }

  function Retire(scopes: seq<string>, path: string, online: bool): Outcome {
    Outcome(Without(scopes, path), if path in scopes && online then [LockRelease(path)] else [])
  }

  function ForwardRename(scopes: seq<string>, fromPath: string, toPath: string, online: bool): Outcome {
    Outcome(
      if fromPath in scopes then With(Without(scopes, fromPath), toPath) else scopes,
      if online then [PathRenamed(fromPath, toPath)] else [])
  }

  function ForwardDeletion(scopes: seq<string>, path: string, online: bool): Outcome {
    var retired := Retire(scopes, path, online);
    if online then Outcome(retired.scopes, retired.sent + [PathDeleted(path)]) else retired
  }

  /** Retires every listed scope other than `keep`. */
  function RetireOthers(scopes: seq<string>, listed: seq<string>, keep: Option<string>): Outcome {
    if listed == [] then Outcome(scopes, [])
    else
      var before := RetireOthers(scopes, listed[..|listed| - 1], keep);
      var last := listed[|listed| - 1];
      if Some(last) == keep then before
      else
        var retired := Retire(before.scopes, last, true);
        Outcome(retired.scopes, before.sent + retired.sent)
  }

  function Reconcile(scopes: seq<string>, path: Option<string>): Outcome {
    var others := RetireOthers(scopes, scopes, path);
    if path.None? then others
    else
      var claimed := Claim(others.scopes, path.value);
      Outcome(claimed.scopes, others.sent + claimed.sent)
  }

  function SwitchEditor(scopes: seq<string>, path: Option<string>, oldPath: Option<string>): Outcome {
    var retired :=
      if oldPath.Some? && oldPath != path then Retire(scopes, oldPath.value, true) else Outcome(scopes, []);
    if path.None? || path.value == "" then retired
    else
      var claimed := Claim(retired.scopes, path.value);
      Outcome(claimed.scopes, retired.sent + claimed.sent)
  }

  /** An editor event is dropped while offline; `excluded` is the exclusion list. */
  function HandleEvent(scopes: seq<string>, event: EditorEvent, excluded: string -> bool): Outcome {
    match event
    case ActiveEditorChanged(rawPath, rawOldPath, snapshot) =>
      var path := RepositoryRelativePath(rawPath, excluded);
      if snapshot then Reconcile(scopes, path)
      else SwitchEditor(scopes, path, RepositoryRelativePath(rawOldPath, excluded))
    case FileClosed(rawPath) =>
      var path := RepositoryRelativePath(rawPath, excluded);
      if path.None? then Outcome(scopes, []) else Retire(scopes, path.value, true)
    case FileRenamed(rawPath, rawOldPath) =>
      var path := RepositoryRelativePath(rawPath, excluded);
      var oldPath := RepositoryRelativePath(rawOldPath, excluded);
      if path.None? || oldPath.None? then Outcome(scopes, [])
      else ForwardRename(scopes, oldPath.value, path.value, true)
    case FileDeleted(rawPath) =>
      var path := RepositoryRelativePath(rawPath, excluded);
      if path.None? then Outcome(scopes, []) else ForwardDeletion(scopes, path.value, true)
    case PassiveActivity(_) => Outcome(scopes, [])
  }

  function Handle(scopes: seq<string>, input: Input, online: bool, excluded: string -> bool): Outcome {
    match input
    case FromEditor(event) => if online then HandleEvent(scopes, event, excluded) else Outcome(scopes, [])
    case WatchedRename(fromPath, toPath) => ForwardRename(scopes, fromPath, toPath, online)
    case WatchedDeletion(path) => ForwardDeletion(scopes, path, online)
  }

  // ----- Replaying the messages gives the scopes -----

  /** The messages account for the change of scopes. */
  ghost predicate Accounts(scopes: seq<string>, outcome: Outcome) {
    && NoDuplicates(outcome.scopes)
    && Held(Members(scopes), outcome.sent) == Members(outcome.scopes)
  }

  lemma RetireAccounts(scopes: seq<string>, path: string)
    requires NoDuplicates(scopes)
    ensures Accounts(scopes, Retire(scopes, path, true))
  {
    WithoutMembers(scopes, path);
  }

  lemma ClaimAccounts(scopes: seq<string>, path: string)
    requires NoDuplicates(scopes)
    ensures Accounts(scopes, Claim(scopes, path))
  {
    WithMembers(scopes, path);
    assert Held(Members(scopes), [LockAcquire(path)]) == Members(scopes) + {path};
  }

  lemma RenameAccounts(scopes: seq<string>, fromPath: string, toPath: string)
    requires NoDuplicates(scopes)
    ensures Accounts(scopes, ForwardRename(scopes, fromPath, toPath, true))
  {
    WithoutMembers(scopes, fromPath);
    WithMembers(Without(scopes, fromPath), toPath);
  }

  lemma DeletionAccounts(scopes: seq<string>, path: string)
    requires NoDuplicates(scopes)
    ensures Accounts(scopes, ForwardDeletion(scopes, path, true))
  {
    RetireAccounts(scopes, path);
    WithoutMembers(scopes, path);
    var retired := Retire(scopes, path, true);
    HeldAppend(Members(scopes), retired.sent, [PathDeleted(path)]);
  }

  lemma Chained(scopes: seq<string>, first: Outcome, second: Outcome)
    requires Accounts(scopes, first) && Accounts(first.scopes, second)
    ensures Accounts(scopes, Outcome(second.scopes, first.sent + second.sent))
  {
    HeldAppend(Members(scopes), first.sent, second.sent);
  }

  lemma {:induction false} RetireOthersAccounts(scopes: seq<string>, listed: seq<string>, keep: Option<string>)
    requires NoDuplicates(scopes)
    ensures Accounts(scopes, RetireOthers(scopes, listed, keep))
    ensures forall path ::
      path in RetireOthers(scopes, listed, keep).scopes
      <==> path in scopes && (path !in listed || Some(path) == keep)
  {
    if listed != [] {
      var shorter := listed[..|listed| - 1];
      var last := listed[|listed| - 1];
      assert listed == shorter + [last];
      RetireOthersAccounts(scopes, shorter, keep);
      var before := RetireOthers(scopes, shorter, keep);
      if Some(last) != keep {
        RetireAccounts(before.scopes, last);
        WithoutMembers(before.scopes, last);
        Chained(scopes, before, Retire(before.scopes, last, true));
        InMembers(before.scopes, Without(before.scopes, last), last);
      }
    }
  }

  lemma InMembers(scopes: seq<string>, fewer: seq<string>, gone: string)
    requires Members(fewer) == Members(scopes) - {gone}
    ensures forall path :: path in fewer <==> path in scopes && path != gone
  {
    forall path ensures path in fewer <==> path in scopes && path != gone {
      assert path in fewer <==> path in Members(fewer);
    }
  }

  lemma ReconcileAccounts(scopes: seq<string>, path: Option<string>)
    requires NoDuplicates(scopes)
    ensures Accounts(scopes, Reconcile(scopes, path))
    ensures Members(Reconcile(scopes, path).scopes) == if path.Some? then {path.value} else {}
  {
    hide Held, RetireOthers, Without;
    RetireOthersAccounts(scopes, scopes, path);
    var others := RetireOthers(scopes, scopes, path);
    if path.Some? {
      ClaimAccounts(others.scopes, path.value);
      Chained(scopes, others, Claim(others.scopes, path.value));
    }
  }

  lemma SwitchAccounts(scopes: seq<string>, path: Option<string>, oldPath: Option<string>)
    requires NoDuplicates(scopes)
    ensures Accounts(scopes, SwitchEditor(scopes, path, oldPath))
  {
    var retired :=
      if oldPath.Some? && oldPath != path then Retire(scopes, oldPath.value, true) else Outcome(scopes, []);
    if oldPath.Some? {
      RetireAccounts(scopes, oldPath.value);
    }
    if path.Some? {
      ClaimAccounts(retired.scopes, path.value);
      Chained(scopes, retired, Claim(retired.scopes, path.value));
    }
  }

  /** The scopes an offline change moves without telling the host. */
  predicate Silent(scopes: seq<string>, input: Input, online: bool) {
    && !online
    && match input
       case FromEditor(_) => false
       case WatchedRename(fromPath, toPath) => fromPath in scopes && fromPath != toPath
       case WatchedDeletion(path) => path in scopes
  }

  /** Replaying the messages of one step gives the new scopes, exactly unless an offline
      rename or deletion moved one of them. */
  lemma HandleAccountsIff(scopes: seq<string>, input: Input, online: bool, excluded: string -> bool)
    requires NoDuplicates(scopes)
    ensures NoDuplicates(Handle(scopes, input, online, excluded).scopes)
    ensures Accounts(scopes, Handle(scopes, input, online, excluded)) <==> !Silent(scopes, input, online)
  {
    hide RepositoryRelativePath, Reconcile, SwitchEditor;
    match input
    case FromEditor(event) =>
      if online {
        HandleEventAccounts(scopes, event, excluded);
      }
    case WatchedRename(fromPath, toPath) =>
      RenameAccounts(scopes, fromPath, toPath);
      WithoutMembers(scopes, fromPath);
      WithMembers(Without(scopes, fromPath), toPath);
      if fromPath in scopes && fromPath != toPath {
        assert fromPath in Members(scopes);
      } else if fromPath in scopes {
        assert Members(scopes) - {fromPath} + {toPath} == Members(scopes);
      }
    case WatchedDeletion(path) =>
      DeletionAccounts(scopes, path);
      WithoutMembers(scopes, path);
      assert path in scopes <==> path in Members(scopes);
  }

  lemma HandleEventAccounts(scopes: seq<string>, event: EditorEvent, excluded: string -> bool)
    requires NoDuplicates(scopes)
    ensures Accounts(scopes, HandleEvent(scopes, event, excluded))
  {
    hide RepositoryRelativePath, Reconcile, SwitchEditor, Retire, ForwardRename, ForwardDeletion;
    assert Accounts(scopes, Outcome(scopes, []));
    match event
    case ActiveEditorChanged(rawPath, rawOldPath, snapshot) =>
      var path := RepositoryRelativePath(rawPath, excluded);
      if snapshot {
        ReconcileAccounts(scopes, path);
      } else {
        SwitchAccounts(scopes, path, RepositoryRelativePath(rawOldPath, excluded));
      }
    case FileClosed(rawPath) =>
      var path := RepositoryRelativePath(rawPath, excluded);
      if path.Some? { RetireAccounts(scopes, path.value); }
    case FileRenamed(rawPath, rawOldPath) =>
      var path := RepositoryRelativePath(rawPath, excluded);
      var oldPath := RepositoryRelativePath(rawOldPath, excluded);
      if path.Some? && oldPath.Some? { RenameAccounts(scopes, oldPath.value, path.value); }
    case FileDeleted(rawPath) =>
      var path := RepositoryRelativePath(rawPath, excluded);
      if path.Some? { DeletionAccounts(scopes, path.value); }
    case PassiveActivity(_) =>
  }

  /** The scopes and everything sent after a run of inputs, all online. */
  function OnlineRun(inputs: seq<Input>, excluded: string -> bool): Outcome {
    if inputs == [] then Outcome([], [])
    else
      var before := OnlineRun(inputs[..|inputs| - 1], excluded);
      var step := Handle(before.scopes, inputs[|inputs| - 1], true, excluded);
      Outcome(step.scopes, before.sent + step.sent)
  }

  /** In every online run, replaying what was sent gives exactly the claimed scopes. */
  lemma {:induction false} HostHoldsTheScopes(inputs: seq<Input>, excluded: string -> bool)
    ensures NoDuplicates(OnlineRun(inputs, excluded).scopes)
    ensures Held({}, OnlineRun(inputs, excluded).sent) == Members(OnlineRun(inputs, excluded).scopes)
  {
    hide Handle, Held;
    if inputs == [] {
      NothingHeld();
    } else {
      HostHoldsTheScopes(inputs[..|inputs| - 1], excluded);
      var before := OnlineRun(inputs[..|inputs| - 1], excluded);
      var last := inputs[|inputs| - 1];
      HandleAccountsIff(before.scopes, last, true, excluded);
      assert Accounts([], before) by { NothingHeld(); }
      Chained([], before, Handle(before.scopes, last, true, excluded));
      NothingHeld();
    }
  }

  lemma NothingHeld()
    ensures Members([]) == {} && Held({}, []) == {}
  {
  }

  // ----- What is sent, and when -----

  predicate PathMessage(message: Message) {
    message.PathRenamed? || message.PathDeleted?
  }

  function PathMessages(messages: seq<Message>): seq<Message> {
    if messages == [] then []
    else (if PathMessage(messages[0]) then [messages[0]] else []) + PathMessages(messages[1..])
  }

  /** What the host is told about a rename or a deletion: everything the watcher saw, and from the
      editor what names accepted paths. */
  function Reported(input: Input, excluded: string -> bool): seq<Message> {
    match input
    case WatchedRename(fromPath, toPath) => [PathRenamed(fromPath, toPath)]
    case WatchedDeletion(path) => [PathDeleted(path)]
    case FromEditor(FileRenamed(toPath, fromPath)) =>
      var from, to := RepositoryRelativePath(fromPath, excluded), RepositoryRelativePath(toPath, excluded);
      if from.Some? && to.Some? then [PathRenamed(from.value, to.value)] else []
    case FromEditor(FileDeleted(path)) =>
      var gone := RepositoryRelativePath(path, excluded);
      if gone.Some? then [PathDeleted(gone.value)] else []
    case _ => []
  }

  function AllReported(inputs: seq<Input>, excluded: string -> bool): seq<Message> {
    if inputs == [] then []
    else AllReported(inputs[..|inputs| - 1], excluded) + Reported(inputs[|inputs| - 1], excluded)
  }

  lemma {:induction false} PathMessagesAppend(a: seq<Message>, b: seq<Message>)
    ensures PathMessages(a + b) == PathMessages(a) + PathMessages(b)
  {
    if a == [] {
      assert a + b == b;
    } else {
      assert (a + b)[1..] == a[1..] + b && (a + b)[0] == a[0];
      PathMessagesAppend(a[1..], b);
    }
  }

  lemma PathMessagesOne(message: Message)
    ensures PathMessages([message]) == if PathMessage(message) then [message] else []
  {
    assert [message][1..] == [];
  }

  ghost predicate LocksOnly(messages: seq<Message>) {
    forall m :: m in messages ==> !PathMessage(m)
  }

  lemma {:induction false} LocksOnlyNone(messages: seq<Message>)
    requires LocksOnly(messages)
    ensures PathMessages(messages) == []
  {
    if messages != [] {
      assert messages[0] in messages;
      LocksOnlyNone(messages[1..]);
    }
  }

  lemma {:induction false} RetireOthersLocks(scopes: seq<string>, listed: seq<string>, keep: Option<string>)
    ensures LocksOnly(RetireOthers(scopes, listed, keep).sent)
  {
    if listed != [] {
      RetireOthersLocks(scopes, listed[..|listed| - 1], keep);
    }
  }

  /** One online input: the host is told of a rename or a deletion once, whether or not a scope was
      claimed, and of nothing else of the kind. */
  lemma InputIsReported(scopes: seq<string>, input: Input, excluded: string -> bool)
    ensures PathMessages(Handle(scopes, input, true, excluded).sent) == Reported(input, excluded)
  {
    hide RepositoryRelativePath, Without, RetireOthers;
    match input
    case FromEditor(FileDeleted(rawPath)) =>
      var path := RepositoryRelativePath(rawPath, excluded);
      if path.Some? { DeletionIsReported(scopes, path.value); }
    case WatchedDeletion(path) => DeletionIsReported(scopes, path);
    case WatchedRename(fromPath, toPath) => PathMessagesOne(PathRenamed(fromPath, toPath));
    case FromEditor(FileRenamed(rawPath, rawOldPath)) =>
      var from, to := RepositoryRelativePath(rawOldPath, excluded), RepositoryRelativePath(rawPath, excluded);
      if from.Some? && to.Some? { PathMessagesOne(PathRenamed(from.value, to.value)); }
    case FromEditor(ActiveEditorChanged(rawPath, _, _)) =>
      RetireOthersLocks(scopes, scopes, RepositoryRelativePath(rawPath, excluded));
      LocksOnlyNone(Handle(scopes, input, true, excluded).sent);
    case _ => LocksOnlyNone(Handle(scopes, input, true, excluded).sent);
  }

  lemma DeletionIsReported(scopes: seq<string>, path: string)
    ensures PathMessages(ForwardDeletion(scopes, path, true).sent) == [PathDeleted(path)]
  {
    var released := Retire(scopes, path, true).sent;
    LocksOnlyNone(released);
    PathMessagesAppend(released, [PathDeleted(path)]);
    PathMessagesOne(PathDeleted(path));
  }

  /** A scope that a deletion ends is released first, and then the deletion is told. */
  lemma DeletionSends(scopes: seq<string>, input: Input, path: string, excluded: string -> bool)
    requires Reported(input, excluded) == [PathDeleted(path)]
    ensures Handle(scopes, input, true, excluded).sent ==
            (if path in scopes then [LockRelease(path), PathDeleted(path)] else [PathDeleted(path)])
  {
    hide RepositoryRelativePath, Without;
    assert [] + [PathDeleted(path)] == [PathDeleted(path)];
  }

  /** Over every online run the host is told of exactly the renames and deletions, in order. */
  lemma {:induction false} RunIsReported(inputs: seq<Input>, excluded: string -> bool)
    ensures PathMessages(OnlineRun(inputs, excluded).sent) == AllReported(inputs, excluded)
  {
    hide Handle, Reported;
    if inputs != [] {
      var init, last := inputs[..|inputs| - 1], inputs[|inputs| - 1];
      var before := OnlineRun(init, excluded);
      RunIsReported(init, excluded);
      InputIsReported(before.scopes, last, excluded);
      PathMessagesAppend(before.sent, Handle(before.scopes, last, true, excluded).sent);
    }
  }

  /** No lock message is idle: it claims what is not held, or releases what is. */
  predicate Needed(held: set<string>, messages: seq<Message>)
    decreases messages
  {
    messages == []
    || ((match messages[0]
         case LockAcquire(scope) => scope !in held
         case LockRelease(scope) => scope in held
         case _ => true)
        && Needed(Received(held, messages[0]), messages[1..]))
  }

  lemma {:induction false} NeededAppend(held: set<string>, a: seq<Message>, b: seq<Message>)
    requires Needed(held, a) && Needed(Held(held, a), b)
    ensures Needed(held, a + b)
    decreases a
  {
    if a == [] {
      assert a + b == b;
    } else {
      assert (a + b)[1..] == a[1..] + b && (a + b)[0] == a[0];
      NeededAppend(Received(held, a[0]), a[1..], b);
    }
  }

  lemma {:induction false} RetireOthersNeeded(scopes: seq<string>, listed: seq<string>, keep: Option<string>)
    requires NoDuplicates(scopes)
    ensures Needed(Members(scopes), RetireOthers(scopes, listed, keep).sent)
  {
    hide Without, NoDuplicates;
    if listed != [] {
      var shorter, last := listed[..|listed| - 1], listed[|listed| - 1];
      RetireOthersNeeded(scopes, shorter, keep);
      RetireOthersAccounts(scopes, shorter, keep);
      var before := RetireOthers(scopes, shorter, keep);
      RetireNeeded(before.scopes, last);
      NeededAppend(Members(scopes), before.sent, Retire(before.scopes, last, true).sent);
      assert before.sent + [] == before.sent;
    }
  }

  lemma RetireNeeded(scopes: seq<string>, path: string)
    ensures Needed(Members(scopes), Retire(scopes, path, true).sent)
  {
  }

  lemma ClaimNeeded(scopes: seq<string>, path: string)
    ensures Needed(Members(scopes), Claim(scopes, path).sent)
  {
  }

  lemma InputSendsOnlyNeeded(scopes: seq<string>, input: Input, excluded: string -> bool)
    requires NoDuplicates(scopes)
    ensures Needed(Members(scopes), Handle(scopes, input, true, excluded).sent)
  {
    hide RepositoryRelativePath, Without, Claim, Retire, Held, NoDuplicates, Accounts, RetireOthers, Members;
    assert Needed(Members(scopes), []);
    match input
    case FromEditor(ActiveEditorChanged(rawPath, rawOldPath, snapshot)) =>
      var path, oldPath := RepositoryRelativePath(rawPath, excluded), RepositoryRelativePath(rawOldPath, excluded);
      var first :=
        if snapshot then RetireOthers(scopes, scopes, path)
        else if oldPath.Some? && oldPath != path then Retire(scopes, oldPath.value, true) else Outcome(scopes, []);
      if snapshot {
        RetireOthersNeeded(scopes, scopes, path);
        RetireOthersAccounts(scopes, scopes, path);
      } else if oldPath.Some? {
        RetireNeeded(scopes, oldPath.value);
        RetireAccounts(scopes, oldPath.value);
      }
      assert Held(Members(scopes), first.sent) == Members(first.scopes) by { FirstHeld(scopes, first); }
      if path.Some? {
        ClaimNeeded(first.scopes, path.value);
        NeededAppend(Members(scopes), first.sent, Claim(first.scopes, path.value).sent);
      }
    case FromEditor(FileClosed(rawPath)) =>
      var path := RepositoryRelativePath(rawPath, excluded);
      if path.Some? { RetireNeeded(scopes, path.value); }
    case FromEditor(FileDeleted(rawPath)) =>
      var path := RepositoryRelativePath(rawPath, excluded);
      if path.Some? { DeletionNeeded(scopes, path.value); }
    case WatchedDeletion(path) => DeletionNeeded(scopes, path);
    case _ =>
  }

  lemma FirstHeld(scopes: seq<string>, first: Outcome)
    requires Accounts(scopes, first) || first == Outcome(scopes, [])
    ensures Held(Members(scopes), first.sent) == Members(first.scopes)
  {
  }

  lemma DeletionNeeded(scopes: seq<string>, path: string)
    ensures Needed(Members(scopes), ForwardDeletion(scopes, path, true).sent)
  {
    RetireNeeded(scopes, path);
    NeededAppend(Members(scopes), Retire(scopes, path, true).sent, [PathDeleted(path)]);
  }

  /** Over every online run, too. */
  lemma {:induction false} RunSendsOnlyNeeded(inputs: seq<Input>, excluded: string -> bool)
    ensures Needed({}, OnlineRun(inputs, excluded).sent)
  {
    hide Handle, Held;
    if inputs != [] {
      var init, last := inputs[..|inputs| - 1], inputs[|inputs| - 1];
      var before := OnlineRun(init, excluded);
      RunSendsOnlyNeeded(init, excluded);
      HostHoldsTheScopes(init, excluded);
      InputSendsOnlyNeeded(before.scopes, last, excluded);
      NeededAppend({}, before.sent, Handle(before.scopes, last, true, excluded).sent);
    }
  }

  /** Offline nothing is sent, and only what the watcher sees moves scopes. */
  lemma OfflineIsSilent(scopes: seq<string>, input: Input, excluded: string -> bool)
    ensures var after := Handle(scopes, input, false, excluded);
            && after.sent == []
            && Members(after.scopes) ==
               match input
               case FromEditor(_) => Members(scopes)
               case WatchedDeletion(path) => Members(scopes) - {path}
               case WatchedRename(fromPath, toPath) =>
                 if fromPath in scopes then Members(scopes) - {fromPath} + {toPath} else Members(scopes)
  {
    match input
    case FromEditor(_) =>
    case WatchedDeletion(path) => WithoutMembers(scopes, path);
    case WatchedRename(fromPath, toPath) =>
      WithoutMembers(scopes, fromPath);
      WithMembers(Without(scopes, fromPath), toPath);
  }

  /** Which scopes each online input leaves. */
  lemma InputLeavesScopes(scopes: seq<string>, input: Input, excluded: string -> bool)
    requires NoDuplicates(scopes)
    ensures Members(Handle(scopes, input, true, excluded).scopes) ==
            match input
            case WatchedDeletion(path) => Members(scopes) - {path}
            case WatchedRename(fromPath, toPath) =>
              if fromPath in scopes then Members(scopes) - {fromPath} + {toPath} else Members(scopes)
            case FromEditor(ActiveEditorChanged(path, oldPath, snapshot)) =>
              var new_ := Accepted(path, excluded);
              if snapshot then new_ else Members(scopes) - (Accepted(oldPath, excluded) - new_) + new_
            case FromEditor(FileClosed(path)) => Members(scopes) - Accepted(path, excluded)
            case FromEditor(FileDeleted(path)) => Members(scopes) - Accepted(path, excluded)
            case FromEditor(FileRenamed(path, oldPath)) =>
              if Accepted(path, excluded) != {} && Accepted(oldPath, excluded) * Members(scopes) != {} then
                Members(scopes) - Accepted(oldPath, excluded) + Accepted(path, excluded)
              else Members(scopes)
            case FromEditor(PassiveActivity(_)) => Members(scopes)
  {
    hide RepositoryRelativePath, Without, RetireOthers;
    match input
    case WatchedDeletion(path) => WithoutMembers(scopes, path);
    case WatchedRename(fromPath, toPath) => RenameMembers(scopes, fromPath, toPath);
    case FromEditor(ActiveEditorChanged(rawPath, rawOldPath, snapshot)) =>
      var path, oldPath := RepositoryRelativePath(rawPath, excluded), RepositoryRelativePath(rawOldPath, excluded);
      if snapshot {
        ReconcileAccounts(scopes, path);
      } else {
        if oldPath.Some? { WithoutMembers(scopes, oldPath.value); }
        var kept := if oldPath.Some? && oldPath != path then Without(scopes, oldPath.value) else scopes;
        if path.Some? { WithMembers(kept, path.value); }
      }
    case FromEditor(FileClosed(rawPath)) =>
      var path := RepositoryRelativePath(rawPath, excluded);
      if path.Some? { WithoutMembers(scopes, path.value); }
    case FromEditor(FileDeleted(rawPath)) =>
      var path := RepositoryRelativePath(rawPath, excluded);
      if path.Some? { WithoutMembers(scopes, path.value); }
    case FromEditor(FileRenamed(rawPath, rawOldPath)) =>
      var from, to := RepositoryRelativePath(rawOldPath, excluded), RepositoryRelativePath(rawPath, excluded);
      if from.Some? && to.Some? {
        RenameMembers(scopes, from.value, to.value);
        assert from.value in scopes <==> from.value in {from.value} * Members(scopes);
      }
    case _ =>
  }

  /** The path as a set: empty if it is refused. */
  function Accepted(path: Option<string>, excluded: string -> bool): set<string> {
    var accepted := RepositoryRelativePath(path, excluded);
    if accepted.Some? then {accepted.value} else {}
  }

  lemma RenameMembers(scopes: seq<string>, fromPath: string, toPath: string)
    ensures Members(ForwardRename(scopes, fromPath, toPath, true).scopes) ==
            if fromPath in scopes then Members(scopes) - {fromPath} + {toPath} else Members(scopes)
  {
    WithoutMembers(scopes, fromPath);
    WithMembers(Without(scopes, fromPath), toPath);
  }

  // ----- The extension's tracker -----

  datatype Transition = Transition(path: Option<string>, oldPath: Option<string>)

  datatype Tracker = Tracker(activePath: Option<string>, lastClearedPath: Option<string>) {
    function SetActive(path: Option<string>): (Tracker, Option<Transition>) {
      if activePath == path then (this, None)
      else (Tracker(path, if path.None? then activePath else None), Some(Transition(path, activePath)))
    }

    function ClearIfActive(path: Option<string>): (Tracker, Option<Transition>) {
      if path.Some? && activePath == path then SetActive(None) else (this, None)
    }

    function Rename(fromPath: Option<string>, toPath: Option<string>): (Tracker, Option<Transition>) {
      if fromPath.Some? && activePath == fromPath then
        if toPath.None? then SetActive(None) else (Tracker(toPath, None), None)
      else (this, None)
    }

    function CurrentState(): Transition {
      if activePath.Some? then Transition(activePath, None) else Transition(None, lastClearedPath)
    }
  }

  class ActiveEditorPathTracker {
    var activePath: Option<string>
    var lastClearedPath: Option<string>

    function State(): Tracker
      reads this
    {
      Tracker(activePath, lastClearedPath)
    }

    constructor ()
      ensures State() == Tracker(None, None)
    {
      activePath, lastClearedPath := None, None;
    }

    method SetActive(path: Option<string>) returns (transition: Option<Transition>)
      modifies this
      ensures (State(), transition) == old(State()).SetActive(path)
    {
      if activePath == path {
        return None;
      }
      var oldPath := activePath;
      activePath := path;
      lastClearedPath := if path.None? then oldPath else None;
      transition := Some(Transition(path, oldPath));
    }

    method ClearIfActive(path: Option<string>) returns (transition: Option<Transition>)
      modifies this
      ensures (State(), transition) == old(State()).ClearIfActive(path)
    {
      if path.Some? && activePath == path {
        transition := SetActive(None);
      } else {
        transition := None;
      }
    }

    method Rename(fromPath: Option<string>, toPath: Option<string>) returns (transition: Option<Transition>)
      modifies this
      ensures (State(), transition) == old(State()).Rename(fromPath, toPath)
    {
      if fromPath.Some? && activePath == fromPath {
        if toPath.None? {
          transition := SetActive(None);
          return;
        }
        activePath := toPath;
        lastClearedPath := None;
      }
      transition := None;
    }

    method CurrentState() returns (state: Transition)
      ensures state == State().CurrentState()
    {
      state := if activePath.Some? then Transition(activePath, None) else Transition(None, lastClearedPath);
    }
  }

  // ----- The adapter drives the tracker and the agent -----

  /** A VS Code notification, with the workspace-relative paths it resolves to. */
  datatype Action =
    | Activate(path: Option<string>)
    | CloseDocument(path: Option<string>)
    | RenameFile(fromPath: Option<string>, toPath: Option<string>)
    | DeleteFile(path: Option<string>)
    | Touch(path: Option<string>)
    | Reconnect

  function Changed(transition: Option<Transition>): seq<EditorEvent> {
    if transition.None? then []
    else [ActiveEditorChanged(transition.value.path, transition.value.oldPath, false)]
  }

  /** The tracker after the action, and the events published. */
  function Publish(tracker: Tracker, action: Action): (Tracker, seq<EditorEvent>) {
    match action
    case Activate(path) =>
      var (after, transition) := tracker.SetActive(path);
      (after, Changed(transition))
    case CloseDocument(path) =>
      var (after, transition) := tracker.ClearIfActive(path);
      (after, Changed(transition) + if path.Some? then [FileClosed(path)] else [])
    case RenameFile(fromPath, toPath) =>
      var (after, transition) := tracker.Rename(fromPath, toPath);
      (after, Changed(transition) + if fromPath.Some? && toPath.Some? then [FileRenamed(toPath, fromPath)] else [])
    case DeleteFile(path) =>
      var (after, transition) := tracker.ClearIfActive(path);
      (after, Changed(transition) + if path.Some? then [FileDeleted(path)] else [])
    case Touch(path) => (tracker, if path.Some? then [PassiveActivity(path)] else [])
    case Reconnect =>
      var state := tracker.CurrentState();
      (tracker, [ActiveEditorChanged(state.path, state.oldPath, true)])
  }

  function HandleAll(scopes: seq<string>, events: seq<EditorEvent>, excluded: string -> bool): Outcome
    decreases events
  {
    if events == [] then Outcome(scopes, [])
    else
      var first := HandleEvent(scopes, events[0], excluded);
      var rest := HandleAll(first.scopes, events[1..], excluded);
      Outcome(rest.scopes, first.sent + rest.sent)
  }

  /** The scope the active path stands for, if the agent accepts it. */
  function Wanted(tracker: Tracker, excluded: string -> bool): seq<string> {
    var path := RepositoryRelativePath(tracker.activePath, excluded);
    if path.Some? then [path.value] else []
  }

  ghost predicate Agree(tracker: Tracker, scopes: seq<string>, excluded: string -> bool) {
    scopes == Wanted(tracker, excluded)
  }

  /** The action cannot part the agent from the tracker: a renamed active file stays accepted
      or stays refused, and no other spelling of the active path is closed, deleted or
      renamed. */
  predicate Faithful(tracker: Tracker, action: Action, excluded: string -> bool) {
    match action
    case CloseDocument(path) => !Alias(tracker, path, excluded)
    case DeleteFile(path) => !Alias(tracker, path, excluded)
    case RenameFile(fromPath, toPath) =>
      if fromPath.None? || toPath.None? then true
      else
        var source := RepositoryRelativePath(fromPath, excluded);
        var target := RepositoryRelativePath(toPath, excluded);
        if tracker.activePath == fromPath then source.Some? == target.Some?
        else Alias(tracker, fromPath, excluded) ==> target.None? || target == source
    case _ => true
  }

  /** A different spelling that the agent takes for the active path. */
  predicate Alias(tracker: Tracker, path: Option<string>, excluded: string -> bool) {
    && path.Some?
    && tracker.activePath != path
    && RepositoryRelativePath(path, excluded).Some?
    && RepositoryRelativePath(path, excluded) == RepositoryRelativePath(tracker.activePath, excluded)
  }

  lemma OneEvent(scopes: seq<string>, event: EditorEvent, excluded: string -> bool)
    ensures HandleAll(scopes, [event], excluded).scopes == HandleEvent(scopes, event, excluded).scopes
  {
  }

  lemma TwoEvents(scopes: seq<string>, first: EditorEvent, second: EditorEvent, excluded: string -> bool)
    ensures HandleAll(scopes, [first] + [second], excluded).scopes
         == HandleEvent(HandleEvent(scopes, first, excluded).scopes, second, excluded).scopes
  {
    assert ([first] + [second])[1..] == [second];
    OneEvent(HandleEvent(scopes, first, excluded).scopes, second, excluded);
  }

  /** A tab switch is followed from any agreeing state. */
  lemma SwitchFollows(tracker: Tracker, path: Option<string>, scopes: seq<string>, excluded: string -> bool)
    requires Agree(tracker, scopes, excluded) && tracker.activePath != path
    ensures Agree(tracker.SetActive(path).0,
              HandleEvent(scopes, ActiveEditorChanged(path, tracker.activePath, false), excluded).scopes, excluded)
  {
    hide RepositoryRelativePath;
    var was := RepositoryRelativePath(tracker.activePath, excluded);
    if was.Some? {
      assert Without([was.value], was.value) == [];
    }
  }

  /** The active path is the last one shown, until it is closed, deleted or renamed; the tracker
      remembers the path that was cleared last, for as long as none is active. */
  lemma TrackerFollows(tracker: Tracker, action: Action)
    requires tracker.activePath.Some? ==> tracker.lastClearedPath.None?
    ensures var after := Publish(tracker, action).0;
            && after.activePath ==
               (match action
                case Activate(path) => path
                case CloseDocument(path) => if path == tracker.activePath then None else tracker.activePath
                case DeleteFile(path) => if path == tracker.activePath then None else tracker.activePath
                case RenameFile(fromPath, toPath) =>
                  if fromPath.Some? && fromPath == tracker.activePath then toPath else tracker.activePath
                case _ => tracker.activePath)
            && after.lastClearedPath ==
               if after.activePath.Some? then None
               else if tracker.activePath.Some? then tracker.activePath else tracker.lastClearedPath
  {
  }

  /** What an action makes the agent tell the host: one message for a rename or a deletion of
      accepted paths. */
  function ReportedBy(action: Action, excluded: string -> bool): seq<Message> {
    match action
    case RenameFile(fromPath, toPath) => Reported(FromEditor(FileRenamed(toPath, fromPath)), excluded)
    case DeleteFile(path) => Reported(FromEditor(FileDeleted(path)), excluded)
    case _ => []
  }

  lemma ActionIsReported(tracker: Tracker, scopes: seq<string>, action: Action, excluded: string -> bool)
    ensures PathMessages(HandleAll(scopes, Publish(tracker, action).1, excluded).sent) == ReportedBy(action, excluded)
  {
    hide RepositoryRelativePath, HandleEvent;
    NoPath(excluded);
    var (after, events) := Publish(tracker, action);
    EventsReported(scopes, events, excluded);
    match action
    case Activate(path) => SwitchReportsNothing(tracker.SetActive(path).1, [], excluded);
    case CloseDocument(path) =>
      SwitchReportsNothing(tracker.ClearIfActive(path).1, if path.Some? then [FileClosed(path)] else [], excluded);
    case DeleteFile(path) =>
      SwitchReportsNothing(tracker.ClearIfActive(path).1, if path.Some? then [FileDeleted(path)] else [], excluded);
    case RenameFile(fromPath, toPath) =>
      SwitchReportsNothing(tracker.Rename(fromPath, toPath).1,
                           if fromPath.Some? && toPath.Some? then [FileRenamed(toPath, fromPath)] else [], excluded);
    case _ =>
  }

  lemma {:induction false} SwitchReportsNothing(transition: Option<Transition>, rest: seq<EditorEvent>, excluded: string -> bool)
    requires |rest| <= 1
    ensures EditorReports(Changed(transition) + rest, excluded) ==
            if rest == [] then [] else Reported(FromEditor(rest[0]), excluded)
    ensures Changed(transition) + [] == Changed(transition)
  {
    hide RepositoryRelativePath;
    var told := if rest == [] then [] else Reported(FromEditor(rest[0]), excluded);
    assert EditorReports(rest, excluded) == told by {
      assert EditorReports([], excluded) == [] && told + [] == told;
      assert rest != [] ==> rest[1..] == [];
    }
    if transition.Some? {
      assert (Changed(transition) + rest)[1..] == rest;
      assert [] + EditorReports(rest, excluded) == EditorReports(rest, excluded);
    } else {
      assert Changed(transition) + rest == rest;
    }
  }

  function EditorReports(events: seq<EditorEvent>, excluded: string -> bool): seq<Message> {
    if events == [] then []
    else Reported(FromEditor(events[0]), excluded) + EditorReports(events[1..], excluded)
  }

  lemma {:induction false} EventsReported(scopes: seq<string>, events: seq<EditorEvent>, excluded: string -> bool)
    ensures PathMessages(HandleAll(scopes, events, excluded).sent) == EditorReports(events, excluded)
    decreases events
  {
    hide Reported, HandleEvent;
    if events != [] {
      var first := HandleEvent(scopes, events[0], excluded);
      assert Handle(scopes, FromEditor(events[0]), true, excluded) == first;
      InputIsReported(scopes, FromEditor(events[0]), excluded);
      EventsReported(first.scopes, events[1..], excluded);
      PathMessagesAppend(first.sent, HandleAll(first.scopes, events[1..], excluded).sent);
    }
  }

  /** One published action keeps agent and tracker together exactly when it is faithful. */
  lemma ActionFollowedIff(tracker: Tracker, scopes: seq<string>, action: Action, excluded: string -> bool)
    requires Agree(tracker, scopes, excluded)
    ensures var (after, events) := Publish(tracker, action);
            Agree(after, HandleAll(scopes, events, excluded).scopes, excluded) <==> Faithful(tracker, action, excluded)
  {
    hide RepositoryRelativePath;
    match action
    case Activate(path) =>
      if tracker.activePath != path {
        SwitchFollows(tracker, path, scopes, excluded);
        OneEvent(scopes, ActiveEditorChanged(path, tracker.activePath, false), excluded);
      }
    case CloseDocument(path) => CloseFollowed(tracker, scopes, path, FileClosed(path), excluded);
    case DeleteFile(path) => CloseFollowed(tracker, scopes, path, FileDeleted(path), excluded);
    case RenameFile(fromPath, toPath) => RenameFollowed(tracker, scopes, fromPath, toPath, excluded);
    case Touch(path) =>
    case Reconnect => ReconnectRestores(tracker, scopes, excluded);
  }

  lemma CloseFollowed(tracker: Tracker, scopes: seq<string>, path: Option<string>, event: EditorEvent,
                      excluded: string -> bool)
    requires Agree(tracker, scopes, excluded)
    requires event == FileClosed(path) || event == FileDeleted(path)
    ensures var (after, transition) := tracker.ClearIfActive(path);
            var events := Changed(transition) + if path.Some? then [event] else [];
            Agree(after, HandleAll(scopes, events, excluded).scopes, excluded) <==> !Alias(tracker, path, excluded)
  {
    hide RepositoryRelativePath, HandleAll;
    NoPath(excluded);
    var (after, transition) := tracker.ClearIfActive(path);
    var closing := RepositoryRelativePath(path, excluded);
    assert closing.Some? ==> Without([closing.value], closing.value) == [];
    if path.None? {
      assert Changed(transition) + [] == [];
      NoEvents(scopes, excluded);
    } else if tracker.activePath == path {
      SwitchFollows(tracker, None, scopes, excluded);
      var first := ActiveEditorChanged(None, path, false);
      TwoEvents(scopes, first, event, excluded);
      assert Changed(transition) == [first];
      assert HandleEvent(scopes, first, excluded).scopes == [];
      assert closing.Some? ==> Without([], closing.value) == [];
      assert HandleEvent([], event, excluded).scopes == [];
    } else {
      var active := RepositoryRelativePath(tracker.activePath, excluded);
      assert closing.Some? && active.Some? && active != closing
             ==> Without([active.value], closing.value) == [active.value];
      assert Changed(transition) + [event] == [event];
      OneEvent(scopes, event, excluded);
    }
  }

  lemma NoPath(excluded: string -> bool)
    ensures RepositoryRelativePath(None, excluded) == None
  {
  }

  lemma NoEvents(scopes: seq<string>, excluded: string -> bool)
    ensures HandleAll(scopes, [], excluded).scopes == scopes
  {
  }

  lemma RenameFollowed(tracker: Tracker, scopes: seq<string>, fromPath: Option<string>, toPath: Option<string>,
                       excluded: string -> bool)
    requires Agree(tracker, scopes, excluded)
    ensures var (after, events) := Publish(tracker, RenameFile(fromPath, toPath));
            Agree(after, HandleAll(scopes, events, excluded).scopes, excluded)
            <==> Faithful(tracker, RenameFile(fromPath, toPath), excluded)
  {
    hide RepositoryRelativePath, HandleAll;
    var (after, transition) := tracker.Rename(fromPath, toPath);
    var source := RepositoryRelativePath(fromPath, excluded);
    assert source.Some? ==> Without([source.value], source.value) == [];
    if fromPath.Some? && toPath.Some? {
      var event := FileRenamed(toPath, fromPath);
      assert Changed(transition) + [event] == [event];
      OneEvent(scopes, event, excluded);
    } else if fromPath.Some? && tracker.activePath == fromPath {
      var event := ActiveEditorChanged(None, fromPath, false);
      assert Changed(transition) + [] == [event];
      SwitchFollows(tracker, None, scopes, excluded);
      OneEvent(scopes, event, excluded);
    } else {
      assert Changed(transition) + [] == [];
      NoEvents(scopes, excluded);
    }
  }

  /** A snapshot event restores agreement from any scopes whatever. */
  lemma ReconnectRestores(tracker: Tracker, scopes: seq<string>, excluded: string -> bool)
    requires NoDuplicates(scopes)
    ensures var (after, events) := Publish(tracker, Reconnect);
            after == tracker && Agree(after, HandleAll(scopes, events, excluded).scopes, excluded)
  {
    hide RepositoryRelativePath, HandleAll;
    var state := tracker.CurrentState();
    OneEvent(scopes, ActiveEditorChanged(state.path, state.oldPath, true), excluded);
    var path := RepositoryRelativePath(state.path, excluded);
    ReconcileAccounts(scopes, path);
    OnlyMember(Reconcile(scopes, path).scopes, path);
  }

  lemma OnlyMember(scopes: seq<string>, path: Option<string>)
    requires NoDuplicates(scopes)
    requires Members(scopes) == if path.Some? then {path.value} else {}
    ensures scopes == if path.Some? then [path.value] else []
  {
    if scopes != [] {
      NotSingle(scopes);
    }
    if path.Some? {
      assert path.value in Members(scopes);
    }
  }

  lemma NotSingle(scopes: seq<string>)
    requires NoDuplicates(scopes) && scopes != []
    ensures scopes[0] in Members(scopes)
    ensures |scopes| > 1 ==> scopes[1] in Members(scopes) && scopes[0] != scopes[1]
  {
  }

  /** Actions with the tracker state each one meets: every one published and faithful. */
  predicate AllFaithful(tracker: Tracker, actions: seq<Action>, excluded: string -> bool)
    decreases actions
  {
    actions == [] ||
    (Faithful(tracker, actions[0], excluded)
     && AllFaithful(Publish(tracker, actions[0]).0, actions[1..], excluded))
  }

  function TrackerAfter(tracker: Tracker, actions: seq<Action>): Tracker
    decreases actions
  {
    if actions == [] then tracker else TrackerAfter(Publish(tracker, actions[0]).0, actions[1..])
  }

  function ScopesAfter(tracker: Tracker, scopes: seq<string>, actions: seq<Action>,
                       excluded: string -> bool): seq<string>
    decreases actions
  {
    if actions == [] then scopes
    else
      var (after, events) := Publish(tracker, actions[0]);
      ScopesAfter(after, HandleAll(scopes, events, excluded).scopes, actions[1..], excluded)
  }

  /** While the agent listens, its scopes are exactly the active path or empty. */
  lemma {:induction false} ScopesFollowTheTracker(tracker: Tracker, scopes: seq<string>, actions: seq<Action>,
                                                  excluded: string -> bool)
    requires Agree(tracker, scopes, excluded) && AllFaithful(tracker, actions, excluded)
    ensures Agree(TrackerAfter(tracker, actions), ScopesAfter(tracker, scopes, actions, excluded), excluded)
    decreases actions
  {
    hide Agree, Faithful, Publish, HandleAll;
    if actions != [] {
      ActionFollowedIff(tracker, scopes, actions[0], excluded);
      var (after, events) := Publish(tracker, actions[0]);
      ScopesFollowTheTracker(after, HandleAll(scopes, events, excluded).scopes, actions[1..], excluded);
    }
  }

  /** Whatever was missed while disconnected, a snapshot followed by faithful actions ends with
      the host holding exactly the active path. */
  lemma SnapshotHeals(tracker: Tracker, scopes: seq<string>, actions: seq<Action>, excluded: string -> bool)
    requires NoDuplicates(scopes) && AllFaithful(tracker, actions, excluded)
    ensures ScopesAfter(tracker, scopes, [Reconnect] + actions, excluded)
         == Wanted(TrackerAfter(tracker, actions), excluded)
  {
    hide Publish, HandleAll, Faithful, AllFaithful, Wanted;
    ReconnectRestores(tracker, scopes, excluded);
    assert ([Reconnect] + actions)[1..] == actions;
    ScopesFollowTheTracker(tracker, HandleAll(scopes, Publish(tracker, Reconnect).1, excluded).scopes, actions,
                           excluded);
  }

  /** Renaming the active file to a path the agent refuses strands its scope: the next tab
      switch claims the new file and still holds the old one. */
  lemma RefusedRenameStrandsTheScope(fromPath: string, toPath: string, next: string, excluded: string -> bool)
    requires RepositoryRelativePath(Some(fromPath), excluded).Some?
    requires RepositoryRelativePath(Some(toPath), excluded).None?
    requires RepositoryRelativePath(Some(next), excluded).Some?
    requires RepositoryRelativePath(Some(next), excluded) != RepositoryRelativePath(Some(fromPath), excluded)
    ensures var tracker := Tracker(Some(fromPath), None);
            ScopesAfter(tracker, Wanted(tracker, excluded),
              [RenameFile(Some(fromPath), Some(toPath)), Activate(Some(next))], excluded)
            == [RepositoryRelativePath(Some(fromPath), excluded).value,
                RepositoryRelativePath(Some(next), excluded).value]
  {
    hide RepositoryRelativePath, HandleAll;
    var tracker := Tracker(Some(fromPath), None);
    var renamed := Tracker(Some(toPath), None);
    var scopes := Wanted(tracker, excluded);
    var actions := [RenameFile(Some(fromPath), Some(toPath)), Activate(Some(next))];
    var rename := FileRenamed(Some(toPath), Some(fromPath));
    var switch := ActiveEditorChanged(Some(next), Some(toPath), false);
    assert Publish(tracker, actions[0]) == (renamed, [rename]) by {
      assert Changed(None) + [rename] == [rename];
    }
    OneEvent(scopes, rename, excluded);
    assert actions[1..] == [Activate(Some(next))];
    assert Publish(renamed, Activate(Some(next))) == (Tracker(Some(next), None), [switch]);
    OneEvent(scopes, switch, excluded);
    LastAction(renamed, scopes, Activate(Some(next)), excluded);
  }

  lemma LastAction(tracker: Tracker, scopes: seq<string>, action: Action, excluded: string -> bool)
    ensures ScopesAfter(tracker, scopes, [action], excluded)
         == HandleAll(scopes, Publish(tracker, action).1, excluded).scopes
  {
    hide Publish, HandleAll;
  }

  /** The agent's editor bookkeeping, with everything it sent. */
  class ActiveEditorScopes {
    const excluded: string -> bool
    var activeEditorScopes: seq<string>
    var sent: seq<Message>

    ghost predicate Valid()
      reads this
    {
      NoDuplicates(activeEditorScopes)
    }

    constructor (excluded: string -> bool)
      ensures Valid() && this.excluded == excluded && activeEditorScopes == [] && sent == []
    {
      this.excluded := excluded;
      activeEditorScopes, sent := [], [];
    }

    /** The state after `outcome`. */
    twostate predicate Did(outcome: Outcome)
      reads this
    {
      activeEditorScopes == outcome.scopes && sent == old(sent) + outcome.sent
    }

    method Delete(path: string) returns (wasActive: bool)
      modifies this`activeEditorScopes
      ensures activeEditorScopes == Without(old(activeEditorScopes), path)
      ensures wasActive == (path in old(activeEditorScopes))
    {
      wasActive := path in activeEditorScopes;
      activeEditorScopes := Without(activeEditorScopes, path);
    }

    method RetireActiveEditorScope(path: string, online: bool)
      modifies this
      ensures Did(Retire(old(activeEditorScopes), path, online))
    {
      var wasActive := Delete(path);
      if wasActive && online {
        sent := sent + [LockRelease(path)];
      }
    }

    method ClaimActiveEditorScope(path: string)
      modifies this
      ensures Did(Claim(old(activeEditorScopes), path))
    {
      if path in activeEditorScopes {
        return;
      }
      activeEditorScopes := activeEditorScopes + [path];
      sent := sent + [LockAcquire(path)];
    }

    method ForwardPathRename(fromPath: string, toPath: string, online: bool)
      modifies this
      ensures Did(ForwardRename(old(activeEditorScopes), fromPath, toPath, online))
    {
      WithoutMembers(activeEditorScopes, fromPath);
      var wasActive := Delete(fromPath);
      if wasActive {
        activeEditorScopes := With(activeEditorScopes, toPath);
      }
      if online {
        sent := sent + [PathRenamed(fromPath, toPath)];
      }
    }

    method ForwardPathDeletion(path: string, online: bool)
      modifies this
      ensures Did(ForwardDeletion(old(activeEditorScopes), path, online))
    {
      RetireActiveEditorScope(path, online);
      if online {
        sent := sent + [PathDeleted(path)];
      }
    }

    method ReconcileActiveEditorSnapshot(path: Option<string>)
      modifies this
      ensures Did(Reconcile(old(activeEditorScopes), path))
    {
      hide Without;
      var listed := activeEditorScopes;
      for i := 0 to |listed|
        invariant Did(RetireOthers(listed, listed[..i], path))
      {
        assert listed[..i + 1][..i] == listed[..i];
        if Some(listed[i]) != path {
          RetireActiveEditorScope(listed[i], true);
        }
      }
      assert listed[..|listed|] == listed;
      if path.Some? {
        ClaimActiveEditorScope(path.value);
      }
    }

    method HandleEditorEvent(event: EditorEvent, online: bool)
      requires Valid()
      modifies this
      ensures Valid() && Did(Handle(old(activeEditorScopes), FromEditor(event), online, excluded))
    {
      hide RepositoryRelativePath, Reconcile, Retire, Claim, ForwardRename, ForwardDeletion;
      HandleAccountsIff(activeEditorScopes, FromEditor(event), online, excluded);
      if !online {
        return;
      }
      match event {
        case ActiveEditorChanged(rawPath, rawOldPath, snapshot) =>
          var path := RepositoryRelativePath(rawPath, excluded);
          var oldPath := RepositoryRelativePath(rawOldPath, excluded);
          if snapshot {
            ReconcileActiveEditorSnapshot(path);
            return;
          }
          if oldPath.Some? && oldPath != path {
            RetireActiveEditorScope(oldPath.value, true);
          }
          if path.Some? && |path.value| > 0 {
            ClaimActiveEditorScope(path.value);
          }
        case FileClosed(rawPath) =>
          var path := RepositoryRelativePath(rawPath, excluded);
          if path.Some? {
            RetireActiveEditorScope(path.value, true);
          }
        case FileRenamed(rawPath, rawOldPath) =>
          var path := RepositoryRelativePath(rawPath, excluded);
          var oldPath := RepositoryRelativePath(rawOldPath, excluded);
          if oldPath.Some? && path.Some? {
            ForwardPathRename(oldPath.value, path.value, true);
          }
        case FileDeleted(rawPath) =>
          var path := RepositoryRelativePath(rawPath, excluded);
          if path.Some? {
            ForwardPathDeletion(path.value, true);
          }
        case PassiveActivity(_) =>
      }
    }
  }
}
