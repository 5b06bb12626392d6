/** Applying a service plan (apps/cli/src/service.ts): five loops that run one list of
    actions in order and stop at the first one that must not fail. */
module ServicePlans {
  import opened Protocol

  datatype Command = Command(id: string, beforeRemoval: bool, allowFailure: bool, allowMissingService: bool)

  datatype Removal = Removal(path: string, allowMissing: bool)

  datatype Plan = Plan(uninstalls: bool, directories: seq<string>, filesToWrite: seq<string>,
                       filesToRemove: seq<Removal>,
                       commands: seq<Command>)

  datatype Action = Ensure(directory: string) | Write(path: string) | Run(command: Command) | Remove(file: Removal)

  /** What the executor answers: success or an exit code, an exception because the file
      is not there, or any other exception. `absent` says that the output of a command
      confirms that its service does not exist. */
  datatype Response = Done | Exited(code: int, absent: bool) | NoSuchFile | Threw

  /** How the executor answers an action, after the actions before it. */
  type Executor = (seq<Action>, Action) -> Response

  datatype Applied = Applied(ok: bool, ran: seq<Action>, results: seq<Response>, warnings: seq<Action>,
                             failure: Option<Action>)

  predicate Succeeded(response: Response) {
    response.Done? || (response.Exited? && response.code == 0)
  }

  /** Failures that are reported as warnings. */
  predicate Tolerated(plan: Plan, action: Action, response: Response) {
    match action
    case Ensure(_) => false
    case Write(_) => false
    case Remove(file) => file.allowMissing && response.NoSuchFile?
    case Run(command) =>
      command.allowFailure
      || (plan.uninstalls && command.allowMissingService && response.Exited? && response.absent)
  }

  /** The actions in the order in which the plan declares them to run. */
  function Planned(plan: Plan): seq<Action> {
    Ensures(plan.directories) + Writes(plan.filesToWrite) + Runs(plan.commands, true) + Removes(plan.filesToRemove)
      + Runs(plan.commands, false)
  }

  function Ensures(directories: seq<string>): seq<Action> {
    if directories == [] then [] else [Ensure(directories[0])] + Ensures(directories[1..])
  }

  function Writes(files: seq<string>): seq<Action> {
    if files == [] then [] else [Write(files[0])] + Writes(files[1..])
  }

  function Removes(files: seq<Removal>): seq<Action> {
    if files == [] then [] else [Remove(files[0])] + Removes(files[1..])
  }

  function Runs(commands: seq<Command>, beforeRemoval: bool): seq<Action> {
    if commands == [] then []
    else (if commands[0].beforeRemoval == beforeRemoval then [Run(commands[0])] else [])
         + Runs(commands[1..], beforeRemoval)
  }

  const NOTHING_RAN := Applied(true, [], [], [], None)

  /** One more action. */
  function Step(plan: Plan, so: Applied, action: Action, executor: Executor): Applied {
    var response := executor(so.ran, action);
    var ran := so.(ran := so.ran + [action],
                   results := if action.Run? && response.Exited? then so.results + [response] else so.results);
    if Succeeded(response) then ran
    else if Tolerated(plan, action, response) then ran.(warnings := ran.warnings + [action])
    else ran.(ok := false, failure := Some(action))
  }

  function Execute(plan: Plan, so: Applied, actions: seq<Action>, executor: Executor): Applied
    decreases |actions|
  {
    if !so.ok || actions == [] then so else Execute(plan, Step(plan, so, actions[0], executor), actions[1..], executor)
  }

  lemma {:induction false} ExecuteConcat(plan: Plan, so: Applied, a: seq<Action>, b: seq<Action>, executor: Executor)
    ensures Execute(plan, so, a + b, executor) == Execute(plan, Execute(plan, so, a, executor), b, executor)
    decreases |a|
  {
    if a == [] {
      assert a + b == b;
    } else {
      assert (a + b)[1..] == a[1..] + b;
      if so.ok { ExecuteConcat(plan, Step(plan, so, a[0], executor), a[1..], b, executor); }
    }
  }

  method RunAll(plan: Plan, so: Applied, actions: seq<Action>, executor: Executor) returns (r: Applied)
    requires so.ok
    ensures r == Execute(plan, so, actions, executor)
  {
    r := so;
    for i := 0 to |actions|
      invariant r.ok && Execute(plan, r, actions[i..], executor) == Execute(plan, so, actions, executor)
    {
      assert actions[i..][1..] == actions[i + 1..];
      r := Step(plan, r, actions[i], executor);
      if !r.ok {
        return;
      }
    }
    assert actions[|actions|..] == [];
  }

  method RunCommands(plan: Plan, so: Applied, beforeRemoval: bool, executor: Executor) returns (r: Applied)
    requires so.ok
    ensures r == Execute(plan, so, Runs(plan.commands, beforeRemoval), executor)
  {
    r := so;
    for i := 0 to |plan.commands|
      invariant r.ok && Execute(plan, r, Runs(plan.commands[i..], beforeRemoval), executor) ==
                        Execute(plan, so, Runs(plan.commands, beforeRemoval), executor)
    {
      ghost var rest := Runs(plan.commands[i + 1..], beforeRemoval);
      assert plan.commands[i..][1..] == plan.commands[i + 1..] && [] + rest == rest;
      if plan.commands[i].beforeRemoval == beforeRemoval {
        assert Runs(plan.commands[i..], beforeRemoval)[1..] == rest;
        r := Step(plan, r, Run(plan.commands[i]), executor);
        if !r.ok {
          return;
        }
      }
    }
    assert plan.commands[|plan.commands|..] == [];
  }

  /** Directories, files, the commands that precede removal, removals, the other commands. */
  method ApplyServicePlan(plan: Plan, executor: Executor) returns (r: Applied)
    ensures r == Execute(plan, NOTHING_RAN, Planned(plan), executor)
  {
    var ensures_, writes, removes := Ensures(plan.directories), Writes(plan.filesToWrite), Removes(plan.filesToRemove);
    ghost var before, after := Runs(plan.commands, true), Runs(plan.commands, false);
    ExecuteConcat(plan, NOTHING_RAN, ensures_ + writes + before + removes, after, executor);
    ExecuteConcat(plan, NOTHING_RAN, ensures_ + writes + before, removes, executor);
    ExecuteConcat(plan, NOTHING_RAN, ensures_ + writes, before, executor);
    ExecuteConcat(plan, NOTHING_RAN, ensures_, writes, executor);
    r := RunAll(plan, NOTHING_RAN, ensures_, executor);
    if r.ok { r := RunAll(plan, r, writes, executor); }
    if r.ok { r := RunCommands(plan, r, true, executor); }
    if r.ok { r := RunAll(plan, r, removes, executor); }
    if r.ok { r := RunCommands(plan, r, false, executor); }
  }

  /** An action's answer lets the plan go on. */
  predicate GoesOn(plan: Plan, ran: seq<Action>, action: Action, executor: Executor) {
    var response := executor(ran, action);
    Succeeded(response) || Tolerated(plan, action, response)
  }

  lemma StepGoesOn(plan: Plan, so: Applied, action: Action, executor: Executor)
    requires so.ok && so.failure.None?
    ensures var r := Step(plan, so, action, executor);
            && r.ran == so.ran + [action] && (r.ok <==> GoesOn(plan, so.ran, action, executor))
            && r.failure == if r.ok then None else Some(action)
  {
  }

  /** The actions that ran are a prefix of the plan: all of it, if the plan succeeded,
      and otherwise up to the reported failure. */
  lemma {:induction false} RanInOrder(plan: Plan, so: Applied, actions: seq<Action>, executor: Executor)
    requires so.ok && so.failure.None?
    ensures var r := Execute(plan, so, actions, executor); var n := |r.ran| - |so.ran|;
            && 0 <= n <= |actions| && r.ran == so.ran + actions[..n]
            && (r.ok ==> r.failure.None? && n == |actions|)
            && (!r.ok ==> n > 0 && r.failure == Some(actions[n - 1]))
    decreases |actions|
  {
    hide Step;
    if actions == [] {
      assert so.ran + actions[..0] == so.ran;
    } else {
      var next := Step(plan, so, actions[0], executor);
      StepGoesOn(plan, so, actions[0], executor);
      assert actions[..1] == [actions[0]];
      if next.ok {
        RanInOrder(plan, next, actions[1..], executor);
        var n := |Execute(plan, so, actions, executor).ran| - |so.ran|;
        assert so.ran + actions[..n] == next.ran + actions[1..][..n - 1];
      }
    }
  }

  /** It stops at the first action that must not fail, and at no other: every action that
      ran lets the plan go on, except the last one of a failed plan. */
  lemma {:induction false} StopsAtFirstFailure(plan: Plan, so: Applied, actions: seq<Action>, i: nat,
                                               executor: Executor)
    requires so.ok && so.failure.None? && i < |actions| && i < |Execute(plan, so, actions, executor).ran| - |so.ran|
    ensures var r := Execute(plan, so, actions, executor);
            GoesOn(plan, so.ran + actions[..i], actions[i], executor) <==> (r.ok || i < |r.ran| - |so.ran| - 1)
    decreases |actions|
  {
    hide Step, GoesOn;
    var next := Step(plan, so, actions[0], executor);
    StepGoesOn(plan, so, actions[0], executor);
    RanInOrder(plan, so, actions, executor);
    assert so.ran + actions[..0] == so.ran;
    if next.ok {
      RanInOrder(plan, next, actions[1..], executor);
      if i > 0 {
        StopsAtFirstFailure(plan, next, actions[1..], i - 1, executor);
        assert next.ran + actions[1..][..i - 1] == so.ran + actions[..i];
      }
    }
  }

  // ----- The declared order, and what is reported -----

  /** Strictly increasing places that are exactly those of the commands of one phase. */
  ghost predicate Places(commands: seq<Command>, beforeRemoval: bool, places: seq<nat>) {
    && (forall j, k :: 0 <= j < k < |places| ==> places[j] < places[k])
    && (forall k :: 0 <= k < |places| ==> places[k] < |commands| && commands[places[k]].beforeRemoval == beforeRemoval)
    && (forall i :: 0 <= i < |commands| && commands[i].beforeRemoval == beforeRemoval ==> i in places)
  }

  lemma {:induction false} RunsAppend(commands: seq<Command>, last: Command, beforeRemoval: bool)
    ensures Runs(commands + [last], beforeRemoval) ==
            Runs(commands, beforeRemoval) + if last.beforeRemoval == beforeRemoval then [Run(last)] else []
  {
    if commands == [] {
      assert commands + [last] == [last] && [last][1..] == [];
    } else {
      assert (commands + [last])[1..] == commands[1..] + [last] && (commands + [last])[0] == commands[0];
      RunsAppend(commands[1..], last, beforeRemoval);
    }
  }

  lemma {:induction false} RunsArePlaced(commands: seq<Command>, beforeRemoval: bool) returns (places: seq<nat>)
    ensures Places(commands, beforeRemoval, places) && |Runs(commands, beforeRemoval)| == |places|
    ensures forall k :: 0 <= k < |places| ==> Runs(commands, beforeRemoval)[k] == Run(commands[places[k]])
  {
    places := [];
    if commands != [] {
      hide Runs;
      var init, last := commands[..|commands| - 1], commands[|commands| - 1];
      assert commands == init + [last];
      RunsAppend(init, last, beforeRemoval);
      places := RunsArePlaced(init, beforeRemoval);
      if last.beforeRemoval == beforeRemoval {
        PlaceLast(init, last, beforeRemoval, places);
        places := places + [|init|];
      } else {
        PlaceOther(init, last, beforeRemoval, places);
      }
    }
  }

  lemma PlaceLast(init: seq<Command>, last: Command, beforeRemoval: bool, places: seq<nat>)
    requires Places(init, beforeRemoval, places) && last.beforeRemoval == beforeRemoval
    ensures Places(init + [last], beforeRemoval, places + [|init|])
  {
    var more := places + [|init|];
    assert more[|places|] == |init|;
    forall i | 0 <= i < |init + [last]| && (init + [last])[i].beforeRemoval == beforeRemoval ensures i in more {
      if i < |init| { assert i in places; }
    }
  }

  lemma PlaceOther(init: seq<Command>, last: Command, beforeRemoval: bool, places: seq<nat>)
    requires Places(init, beforeRemoval, places) && last.beforeRemoval != beforeRemoval
    ensures Places(init + [last], beforeRemoval, places)
  {
  }

  lemma {:induction false} EnsuresAt(directories: seq<string>)
    ensures |Ensures(directories)| == |directories|
    ensures forall i :: 0 <= i < |directories| ==> Ensures(directories)[i] == Ensure(directories[i])
  {
    if directories != [] { EnsuresAt(directories[1..]); }
  }

  lemma {:induction false} WritesAt(files: seq<string>)
    ensures |Writes(files)| == |files|
    ensures forall i :: 0 <= i < |files| ==> Writes(files)[i] == Write(files[i])
  {
    if files != [] { WritesAt(files[1..]); }
  }

  lemma {:induction false} RemovesAt(files: seq<Removal>)
    ensures |Removes(files)| == |files|
    ensures forall i :: 0 <= i < |files| ==> Removes(files)[i] == Remove(files[i])
  {
    if files != [] { RemovesAt(files[1..]); }
  }

  /** The commands of one phase, each once and in the order of the plan. */
  ghost predicate RunsOf(commands: seq<Command>, beforeRemoval: bool, part: seq<Action>) {
    exists places :: Places(commands, beforeRemoval, places) && |part| == |places|
                     && forall k :: 0 <= k < |places| ==> part[k] == Run(commands[places[k]])
  }

  /** Every directory, then every file to write, then the commands that precede removal, then every
      file to remove, then the other commands; each list in its own order, nothing left out. */
  lemma PlanOrder(plan: Plan)
    returns (made: seq<Action>, written: seq<Action>, before: seq<Action>, removed: seq<Action>, after: seq<Action>)
    ensures Planned(plan) == made + written + before + removed + after
    ensures |made| == |plan.directories| && forall i :: 0 <= i < |made| ==> made[i] == Ensure(plan.directories[i])
    ensures |written| == |plan.filesToWrite| && forall i :: 0 <= i < |written| ==>
              written[i] == Write(plan.filesToWrite[i])
    ensures |removed| == |plan.filesToRemove| && forall i :: 0 <= i < |removed| ==>
              removed[i] == Remove(plan.filesToRemove[i])
    ensures RunsOf(plan.commands, true, before) && RunsOf(plan.commands, false, after)
  {
    hide Ensures, Writes, Runs, Removes;
    made, written, removed := Ensures(plan.directories), Writes(plan.filesToWrite), Removes(plan.filesToRemove);
    before, after := Runs(plan.commands, true), Runs(plan.commands, false);
    EnsuresAt(plan.directories);
    WritesAt(plan.filesToWrite);
    RemovesAt(plan.filesToRemove);
    var first := RunsArePlaced(plan.commands, true);
    var last := RunsArePlaced(plan.commands, false);
  }

  /** When the plan goes on after an action: it succeeded; or a file to remove may be missing and is;
      or a command may fail; or, on uninstall, its service may be absent and is. */
  lemma GoesOnIff(plan: Plan, ran: seq<Action>, action: Action, executor: Executor)
    ensures GoesOn(plan, ran, action, executor) <==>
            var response := executor(ran, action);
            || response == Done || (exists absent :: response == Exited(0, absent))
            || (action.Remove? && action.file.allowMissing && response == NoSuchFile)
            || (action.Run? && action.command.allowFailure)
            || (action.Run? && plan.uninstalls && action.command.allowMissingService && response.Exited?
                && response.absent)
  {
    var response := executor(ran, action);
    if response.Exited? && response.code == 0 { assert response == Exited(0, response.absent); }
  }

  function ExitOf(ran: seq<Action>, action: Action, executor: Executor): seq<Response> {
    if action.Run? && executor(ran, action).Exited? then [executor(ran, action)] else []
  }

  function WarningOf(ran: seq<Action>, action: Action, executor: Executor): seq<Action> {
    match executor(ran, action)
    case Done => []
    case Exited(code, _) => if code == 0 then [] else [action]
    case _ => [action]
  }

  /** What the first `n` actions that ran report. */
  function Exits(ran: seq<Action>, n: nat, executor: Executor): seq<Response>
    requires n <= |ran|
  {
    if n == 0 then [] else Exits(ran, n - 1, executor) + ExitOf(ran[..n - 1], ran[n - 1], executor)
  }

  function Warnings(ran: seq<Action>, n: nat, executor: Executor): seq<Action>
    requires n <= |ran|
  {
    if n == 0 then [] else Warnings(ran, n - 1, executor) + WarningOf(ran[..n - 1], ran[n - 1], executor)
  }

  /** The reported results are the exits of the commands that ran, in order; the warnings are the
      failures that the plan went on after, in order. */
  ghost predicate ReportsWell(r: Applied, executor: Executor) {
    && r.results == Exits(r.ran, |r.ran|, executor)
    && (r.ok ==> r.warnings == Warnings(r.ran, |r.ran|, executor))
    && (!r.ok ==> r.ran != [] && r.warnings == Warnings(r.ran, |r.ran| - 1, executor))
  }

  lemma {:induction false} SameFrontReports(ran: seq<Action>, last: Action, n: nat, executor: Executor)
    requires n <= |ran|
    ensures Exits(ran + [last], n, executor) == Exits(ran, n, executor)
    ensures Warnings(ran + [last], n, executor) == Warnings(ran, n, executor)
  {
    if n > 0 {
      SameFrontReports(ran, last, n - 1, executor);
      assert (ran + [last])[..n - 1] == ran[..n - 1];
    }
  }

  lemma OneMoreReport(ran: seq<Action>, last: Action, executor: Executor)
    ensures var more := ran + [last];
            && Exits(more, |more|, executor) == Exits(ran, |ran|, executor) + ExitOf(ran, last, executor)
            && Warnings(more, |more|, executor) == Warnings(ran, |ran|, executor) + WarningOf(ran, last, executor)
            && Warnings(more, |more| - 1, executor) == Warnings(ran, |ran|, executor)
  {
    hide ExitOf, WarningOf;
    SameFrontReports(ran, last, |ran|, executor);
    assert (ran + [last])[..|ran|] == ran && (ran + [last])[|ran|] == last;
  }

  lemma StepReports(plan: Plan, so: Applied, action: Action, executor: Executor)
    requires so.ok && ReportsWell(so, executor)
    ensures ReportsWell(Step(plan, so, action, executor), executor)
  {
    hide Exits, Warnings, Tolerated;
    OneMoreReport(so.ran, action, executor);
    assert so.results + [] == so.results && so.warnings + [] == so.warnings;
  }

  lemma {:induction false} ExecuteReports(plan: Plan, so: Applied, actions: seq<Action>, executor: Executor)
    requires ReportsWell(so, executor)
    ensures ReportsWell(Execute(plan, so, actions, executor), executor)
    decreases |actions|
  {
    hide Step, ReportsWell;
    if so.ok && actions != [] {
      StepReports(plan, so, actions[0], executor);
      ExecuteReports(plan, Step(plan, so, actions[0], executor), actions[1..], executor);
    }
  }

  lemma PlanReports(plan: Plan, executor: Executor)
    ensures ReportsWell(Execute(plan, NOTHING_RAN, Planned(plan), executor), executor)
  {
    ExecuteReports(plan, NOTHING_RAN, Planned(plan), executor);
  }
}
