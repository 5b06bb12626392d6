/** Merging a dependency-graph delta (apps/host/src/authority.ts, `mergeDependencyDelta`). */
module DependencyGraphs {
  import opened Protocol
  import opened JsMaps
  import KeyOrder

  datatype Edge = Edge(from: string, to: string, kind: string, confidence: int)

  datatype EdgeKey = EdgeKey(from: string, to: string, kind: string)

  datatype Module = Module(sourceFile: string, edges: seq<Edge>)

  datatype Contract = Contract(id: string, fingerprint: string)

  datatype Graph = Graph(version: nat, modules: seq<Module>, contracts: seq<Contract>)

  datatype EdgeOp = AddEdge | RemoveEdge

  datatype EdgeChange = EdgeChange(op: EdgeOp, edge: Edge)

  datatype Delta = Delta(changedEdges: seq<EdgeChange>, changedContracts: seq<Contract>)

  function KeyOf(edge: Edge): EdgeKey {
    EdgeKey(edge.from, edge.to, edge.kind)
  }

  // ----- One change, on values -----

  function EdgesBut(edges: seq<Edge>, key: EdgeKey): seq<Edge> {
    if edges == [] then []
    else (if KeyOf(edges[0]) == key then [] else [edges[0]]) + EdgesBut(edges[1..], key)
  }

  lemma {:induction false} EdgesButMembers(edges: seq<Edge>, key: EdgeKey)
    ensures forall e :: e in EdgesBut(edges, key) <==> e in edges && KeyOf(e) != key
  {
    if edges != [] {
      EdgesButMembers(edges[1..], key);
    }
  }

  predicate Holds(edges: seq<Edge>, key: EdgeKey) {
    exists e :: e in edges && KeyOf(e) == key
  }

  function Changed(edges: seq<Edge>, change: EdgeChange): seq<Edge> {
    if change.op.RemoveEdge? then EdgesBut(edges, KeyOf(change.edge))
    else if Holds(edges, KeyOf(change.edge)) then edges else edges + [change.edge]
  }

  /** The module that a file's changes go to: the last one of that file. */
  function IndexOf(modules: seq<Module>, file: string): (i: Option<nat>)
    ensures i.Some? ==> i.value < |modules| && modules[i.value].sourceFile == file
    ensures i.Some? ==> forall j :: i.value < j < |modules| ==> modules[j].sourceFile != file
    ensures i.None? ==> forall j :: 0 <= j < |modules| ==> modules[j].sourceFile != file
  {
    if modules == [] then None
    else if modules[|modules| - 1].sourceFile == file then Some(|modules| - 1)
    else IndexOf(modules[..|modules| - 1], file)
  }

  function WithModule(modules: seq<Module>, file: string): seq<Module> {
    if IndexOf(modules, file).Some? then modules else modules + [Module(file, [])]
  }

  function ApplyChange(modules: seq<Module>, change: EdgeChange): seq<Module> {
    var ms := WithModule(modules, change.edge.from);
    var i := IndexOf(modules, change.edge.from).GetOr(|modules|);
    ms[i := ms[i].(edges := Changed(ms[i].edges, change))]
  }

  function ApplyChanges(modules: seq<Module>, changes: seq<EdgeChange>): seq<Module>
    decreases |changes|
  {
    if changes == [] then modules else ApplyChanges(ApplyChange(modules, changes[0]), changes[1..])
  }

  function NonEmpty(modules: seq<Module>): seq<Module> {
    if modules == [] then []
    else (if modules[0].edges == [] then [] else [modules[0]]) + NonEmpty(modules[1..])
  }

  type Contracts = JsMap<string, Contract>

  function IndexContracts(index: Contracts, contracts: seq<Contract>): (r: Contracts)
    ensures index.Valid() ==> r.Valid()
    decreases |contracts|
  {
    if contracts == [] then index else IndexContracts(index.Set(contracts[0].id, contracts[0]), contracts[1..])
  }

  /** An empty fingerprint removes the contract. */
  function ApplyContracts(index: Contracts, changes: seq<Contract>): (r: Contracts)
    ensures index.Valid() ==> r.Valid()
    decreases |changes|
  {
    if changes == [] then index
    else
      ApplyContracts(if changes[0].fingerprint == "" then index.Delete(changes[0].id)
                     else index.Set(changes[0].id, changes[0]),
                     changes[1..])
  }

  function Merged(current: Graph, delta: Delta): Graph {
    Graph(current.version + 1, NonEmpty(ApplyChanges(current.modules, delta.changedEdges)),
          ApplyContracts(IndexContracts(Empty(), current.contracts), delta.changedContracts).Values())
  }

  // ----- The same in place -----

  lemma ButStep(edges: seq<Edge>, i: nat, key: EdgeKey)
    requires i < |edges|
    ensures EdgesBut(edges[i..], key) ==
            (if KeyOf(edges[i]) == key then [] else [edges[i]]) + EdgesBut(edges[i + 1..], key)
  {
    assert edges[i..][1..] == edges[i + 1..];
  }

  lemma ButEnds(edges: seq<Edge>, key: EdgeKey)
    ensures edges[0..] == edges && EdgesBut(edges[|edges|..], key) == []
  {
  }

  /** `edges.filter(e => edgeKey(e) !== key)`. */
  method Filtered(edges: seq<Edge>, key: EdgeKey) returns (rest: seq<Edge>)
    ensures rest == EdgesBut(edges, key)
  {
    hide EdgesBut;
    rest := [];
    ButEnds(edges, key);
    for i := 0 to |edges|
      invariant rest + EdgesBut(edges[i..], key) == EdgesBut(edges, key)
    {
      ButStep(edges, i, key);
      Associates(rest, if KeyOf(edges[i]) == key then [] else [edges[i]], EdgesBut(edges[i + 1..], key));
      if KeyOf(edges[i]) != key {
        rest := rest + [edges[i]];
      }
    }
  }

  class ModuleNode {
    const sourceFile: string
    var edges: seq<Edge>

    constructor (sourceFile: string, edges: seq<Edge>)
      ensures this.sourceFile == sourceFile && this.edges == edges
    {
      this.sourceFile, this.edges := sourceFile, edges;
    }

    function Value(): Module
      reads this
    {
      Module(sourceFile, edges)
    }

    method Change(change: EdgeChange)
      modifies this
      ensures edges == Changed(old(edges), change)
    {
      if change.op.RemoveEdge? {
        edges := Filtered(edges, KeyOf(change.edge));
      } else if !Holds(edges, KeyOf(change.edge)) {
        edges := edges + [change.edge];
      }
    }
  }

  /** The nodes stand for the modules, and the index leads to the node of each file. */
  ghost predicate Stands(nodes: seq<ModuleNode>, byFile: map<string, ModuleNode>, modules: seq<Module>)
    reads nodes
  {
    && |nodes| == |modules|
    && (forall i :: 0 <= i < |nodes| ==> nodes[i].Value() == modules[i])
    && (forall i, j :: 0 <= i < j < |nodes| ==> nodes[i] != nodes[j])
    && (forall f :: f in byFile <==> IndexOf(modules, f).Some?)
    && (forall f :: f in byFile ==> byFile[f] == nodes[IndexOf(modules, f).value])
  }

  lemma IndexAppend(modules: seq<Module>, m: Module, file: string)
    ensures IndexOf(modules + [m], file) == if m.sourceFile == file then Some(|modules|) else IndexOf(modules, file)
  {
    assert (modules + [m])[..|modules|] == modules;
  }

  lemma {:induction false} IndexUpdate(modules: seq<Module>, i: nat, edges: seq<Edge>, file: string)
    requires i < |modules|
    ensures IndexOf(modules[i := modules[i].(edges := edges)], file) == IndexOf(modules, file)
  {
    var last := |modules| - 1;
    var after := modules[i := modules[i].(edges := edges)];
    if i < last {
      IndexUpdate(modules[..last], i, edges, file);
      assert after[..last] == modules[..last][i := modules[..last][i].(edges := edges)];
    } else {
      assert after[..last] == modules[..last];
    }
  }

  /** A copy of every module, and a map from files to the copies. */
  method CopyModules(modules: seq<Module>) returns (nodes: seq<ModuleNode>, byFile: map<string, ModuleNode>)
    ensures Stands(nodes, byFile, modules) && forall n :: n in nodes ==> fresh(n)
  {
    nodes, byFile := [], map[];
    for i := 0 to |modules|
      invariant Stands(nodes, byFile, modules[..i]) && forall n :: n in nodes ==> fresh(n)
    {
      var node := new ModuleNode(modules[i].sourceFile, modules[i].edges);
      nodes, byFile := AddNode(nodes, byFile, node, modules[..i]);
      assert modules[..i + 1] == modules[..i] + [modules[i]];
    }
    assert modules[..|modules|] == modules;
  }

  method AddNode(nodes: seq<ModuleNode>, byFile: map<string, ModuleNode>, node: ModuleNode, ghost modules: seq<Module>)
    returns (nodes': seq<ModuleNode>, byFile': map<string, ModuleNode>)
    requires Stands(nodes, byFile, modules) && node !in nodes
    ensures nodes' == nodes + [node] && byFile' == byFile[node.sourceFile := node]
    ensures Stands(nodes', byFile', modules + [node.Value()])
  {
    nodes', byFile' := nodes + [node], byFile[node.sourceFile := node];
    forall f ensures IndexOf(modules + [node.Value()], f) == if node.sourceFile == f then Some(|modules|)
    else IndexOf(modules, f)
    {
      IndexAppend(modules, node.Value(), f);
    }
  }

  /** The node of a file, made when it is missing. */
  method NodeOf(nodes: seq<ModuleNode>, byFile: map<string, ModuleNode>, file: string, ghost modules: seq<Module>)
    returns (nodes': seq<ModuleNode>, byFile': map<string, ModuleNode>)
    requires Stands(nodes, byFile, modules)
    ensures Stands(nodes', byFile', WithModule(modules, file)) && (forall n :: n in nodes' ==> n in nodes || fresh(n))
    ensures file in byFile' && IndexOf(WithModule(modules, file), file) == Some(IndexOf(modules, file).GetOr(|modules|))
  {
    nodes', byFile' := nodes, byFile;
    if file !in byFile {
      var node := new ModuleNode(file, []);
      nodes', byFile' := AddNode(nodes, byFile, node, modules);
      IndexAppend(modules, Module(file, []), file);
    }
  }

  /** Changing one node changes one module. */
  method ChangeNode(nodes: seq<ModuleNode>, byFile: map<string, ModuleNode>, change: EdgeChange, ghost i: nat,
                    ghost modules: seq<Module>)
    requires Stands(nodes, byFile, modules) && change.edge.from in byFile
             && IndexOf(modules, change.edge.from) == Some(i)
    modifies nodes
    ensures Stands(nodes, byFile, modules[i := modules[i].(edges := Changed(modules[i].edges, change))])
  {
    hide IndexOf, Changed;
    byFile[change.edge.from].Change(change);
    forall f ensures IndexOf(modules[i := modules[i].(edges := Changed(modules[i].edges, change))], f) ==
    IndexOf(modules, f)
    {
      IndexUpdate(modules, i, Changed(modules[i].edges, change), f);
    }
  }

  /** One change, through the index, on the shared node. */
  method ApplyToNodes(nodes: seq<ModuleNode>, byFile: map<string, ModuleNode>, change: EdgeChange,
                      ghost modules: seq<Module>)
    returns (nodes': seq<ModuleNode>, byFile': map<string, ModuleNode>)
    requires Stands(nodes, byFile, modules)
    modifies nodes
    ensures Stands(nodes', byFile', ApplyChange(modules, change))
    ensures forall n :: n in nodes' ==> n in nodes || fresh(n)
  {
    hide Stands, IndexOf, Changed, WithModule;
    nodes', byFile' := NodeOf(nodes, byFile, change.edge.from, modules);
    assert forall i :: 0 <= i < |nodes'| ==> nodes'[i] in nodes';
    ChangeNode(nodes', byFile', change, IndexOf(modules, change.edge.from).GetOr(|modules|),
               WithModule(modules, change.edge.from));
  }

  method MergeDependencyDelta(current: Graph, delta: Delta) returns (merged: Graph)
    ensures merged == Merged(current, delta)
  {
    hide Stands, ApplyChange, NonEmpty, ApplyContracts, IndexContracts;
    var nodes, byFile := CopyModules(current.modules);
    ghost var modules := current.modules;
    for i := 0 to |delta.changedEdges|
      invariant Stands(nodes, byFile, modules) && forall n :: n in nodes ==> fresh(n)
      invariant ApplyChanges(modules, delta.changedEdges[i..]) == ApplyChanges(current.modules, delta.changedEdges)
    {
      assert delta.changedEdges[i..][1..] == delta.changedEdges[i + 1..];
      assert forall i :: 0 <= i < |nodes| ==> nodes[i] in nodes;
      nodes, byFile := ApplyToNodes(nodes, byFile, delta.changedEdges[i], modules);
      modules := ApplyChange(modules, delta.changedEdges[i]);
    }
    assert delta.changedEdges[|delta.changedEdges|..] == [];
    var contracts := MergeContracts(current.contracts, delta.changedContracts);
    var kept := CollectNonEmpty(nodes, byFile, modules);
    merged := Graph(current.version + 1, kept, contracts);
  }

  method CollectNonEmpty(nodes: seq<ModuleNode>, ghost byFile: map<string, ModuleNode>, ghost modules: seq<Module>)
    returns (kept: seq<Module>)
    requires Stands(nodes, byFile, modules)
    ensures kept == NonEmpty(modules)
  {
    kept := [];
    for i := 0 to |nodes|
      invariant kept + NonEmpty(modules[i..]) == NonEmpty(modules)
    {
      assert modules[i..][1..] == modules[i + 1..];
      if nodes[i].edges != [] {
        Associates(kept, [nodes[i].Value()], NonEmpty(modules[i + 1..]));
        kept := kept + [nodes[i].Value()];
      }
    }
    assert modules[|nodes|..] == [];
  }

  method MergeContracts(current: seq<Contract>, changes: seq<Contract>) returns (contracts: seq<Contract>)
    ensures contracts == ApplyContracts(IndexContracts(Empty(), current), changes).Values()
  {
    var index: Contracts := Empty();
    for i := 0 to |current|
      invariant IndexContracts(index, current[i..]) == IndexContracts(Empty(), current)
    {
      assert current[i..][1..] == current[i + 1..];
      index := index.Set(current[i].id, current[i]);
    }
    assert current[|current|..] == [];
    for i := 0 to |changes|
      invariant ApplyContracts(index, changes[i..]) == ApplyContracts(IndexContracts(Empty(), current), changes)
    {
      assert changes[i..][1..] == changes[i + 1..];
      index := if changes[i].fingerprint == "" then index.Delete(changes[i].id)
      else index.Set(changes[i].id, changes[i]);
    }
    assert changes[|changes|..] == [];
    contracts := index.Values();
  }

  // ----- What a merge means -----

  function Find(edges: seq<Edge>, key: EdgeKey): Option<Edge> {
    if edges == [] then None else if KeyOf(edges[0]) == key then Some(edges[0]) else Find(edges[1..], key)
  }

  /** The edge of a key, looked up in the module of its source file. */
  function Lookup(modules: seq<Module>, key: EdgeKey): Option<Edge> {
    var i := IndexOf(modules, key.from);
    if i.None? then None else Find(modules[i.value].edges, key)
  }

  /** One edge through a list of changes: removed, or added unless it is there. */
  function Followed(found: Option<Edge>, changes: seq<EdgeChange>, key: EdgeKey): Option<Edge>
    decreases |changes|
  {
    if changes == [] then found
    else
      var change := changes[0];
      Followed(if KeyOf(change.edge) != key then found
               else if change.op.RemoveEdge? then None
               else if found.Some? then found else Some(change.edge),
               changes[1..], key)
  }

  lemma {:induction false} FindBut(edges: seq<Edge>, removed: EdgeKey, key: EdgeKey)
    ensures Find(EdgesBut(edges, removed), key) == if key == removed then None else Find(edges, key)
  {
    if edges != [] {
      FindBut(edges[1..], removed, key);
      var rest := EdgesBut(edges[1..], removed);
      assert ([edges[0]] + rest)[1..] == rest && [] + rest == rest;
    }
  }

  lemma {:induction false} FindAppend(edges: seq<Edge>, e: Edge, key: EdgeKey)
    ensures Find(edges + [e], key) == if Find(edges, key).Some? then Find(edges, key)
            else if KeyOf(e) == key then Some(e) else None
  {
    if edges == [] {
      assert edges + [e] == [e] && [e][1..] == [];
    } else {
      assert (edges + [e])[1..] == edges[1..] + [e];
      FindAppend(edges[1..], e, key);
    }
  }

  lemma {:induction false} FindHolds(edges: seq<Edge>, key: EdgeKey)
    ensures Find(edges, key).Some? <==> Holds(edges, key)
    ensures Find(edges, key).Some? ==> Find(edges, key).value in edges && KeyOf(Find(edges, key).value) == key
  {
    if edges != [] {
      FindHolds(edges[1..], key);
      assert forall e :: e in edges <==> e == edges[0] || e in edges[1..];
    }
  }

  lemma FindChanged(edges: seq<Edge>, change: EdgeChange, key: EdgeKey)
    ensures Find(Changed(edges, change), key) == Followed(Find(edges, key), [change], key)
  {
    FindBut(edges, KeyOf(change.edge), key);
    FindAppend(edges, change.edge, key);
    FindHolds(edges, KeyOf(change.edge));
    assert forall found: Option<Edge> :: Followed(found, [change][1..], key) == found;
  }

  lemma {:induction false} LookupChange(modules: seq<Module>, change: EdgeChange, key: EdgeKey)
    ensures Lookup(ApplyChange(modules, change), key) == Followed(Lookup(modules, key), [change], key)
  {
    hide Changed, Followed, IndexOf;
    var file := change.edge.from;
    var ms, i := WithModule(modules, file), IndexOf(modules, file).GetOr(|modules|);
    IndexAppend(modules, Module(file, []), key.from);
    IndexAppend(modules, Module(file, []), file);
    IndexUpdate(ms, i, Changed(ms[i].edges, change), key.from);
    FindChanged(ms[i].edges, change, key);
    if key.from != file {
      OtherKey(Lookup(modules, key), change, key);
    }
  }

  lemma OtherKey(found: Option<Edge>, change: EdgeChange, key: EdgeKey)
    requires KeyOf(change.edge) != key
    ensures Followed(found, [change], key) == found
  {
    assert Followed(found, [change][1..], key) == found;
  }

  lemma FollowedCons(found: Option<Edge>, changes: seq<EdgeChange>, key: EdgeKey)
    requires changes != []
    ensures Followed(found, changes, key) == Followed(Followed(found, [changes[0]], key), changes[1..], key)
  {
    assert forall f: Option<Edge> :: Followed(f, [changes[0]][1..], key) == f;
  }

  lemma {:induction false} LookupChanges(modules: seq<Module>, changes: seq<EdgeChange>, key: EdgeKey)
    ensures Lookup(ApplyChanges(modules, changes), key) == Followed(Lookup(modules, key), changes, key)
    decreases |changes|
  {
    hide Lookup, ApplyChange;
    if changes != [] {
      LookupChange(modules, changes[0], key);
      LookupChanges(ApplyChange(modules, changes[0]), changes[1..], key);
      FollowedCons(Lookup(modules, key), changes, key);
    }
  }

  // ----- Well-placed graphs -----

  ghost predicate KeysApart(edges: seq<Edge>) {
    forall a, b :: 0 <= a < b < |edges| ==> KeyOf(edges[a]) != KeyOf(edges[b])
  }

  ghost predicate EdgesPlaced(m: Module) {
    (forall e :: e in m.edges ==> e.from == m.sourceFile) && KeysApart(m.edges)
  }

  ghost predicate FilesDistinct(modules: seq<Module>) {
    forall i, j :: 0 <= i < j < |modules| ==> modules[i].sourceFile != modules[j].sourceFile
  }

  /** One module per file, every edge in the module of its source, no edge twice. */
  ghost predicate WellPlaced(modules: seq<Module>) {
    FilesDistinct(modules) && forall i :: 0 <= i < |modules| ==> EdgesPlaced(modules[i])
  }

  lemma KeysApartCons(e: Edge, rest: seq<Edge>)
    ensures KeysApart([e] + rest) <==> KeysApart(rest) && !Holds(rest, KeyOf(e))
  {
    var all := [e] + rest;
    assert forall i :: 0 <= i < |rest| ==> all[i + 1] == rest[i];
    if KeysApart(all) {
      forall x | x in rest ensures KeyOf(x) != KeyOf(e) {
        var i :| 0 <= i < |rest| && rest[i] == x;
        assert KeyOf(all[0]) != KeyOf(all[i + 1]);
      }
      forall a, b | 0 <= a < b < |rest| ensures KeyOf(rest[a]) != KeyOf(rest[b]) {
        assert KeyOf(all[a + 1]) != KeyOf(all[b + 1]);
      }
    }
    if KeysApart(rest) && !Holds(rest, KeyOf(e)) {
      forall a, b | 0 <= a < b < |all| ensures KeyOf(all[a]) != KeyOf(all[b]) {
        assert all[b] == rest[b - 1] && rest[b - 1] in rest;
        if a > 0 { assert all[a] == rest[a - 1]; }
      }
    }
  }

  lemma KeysApartAppend(edges: seq<Edge>, e: Edge)
    requires KeysApart(edges) && !Holds(edges, KeyOf(e))
    ensures KeysApart(edges + [e])
  {
    var all := edges + [e];
    forall a, b | 0 <= a < b < |all| ensures KeyOf(all[a]) != KeyOf(all[b]) {
      assert all[a] == edges[a] && edges[a] in edges;
    }
  }

  lemma {:induction false} ButKeepsKeysApart(edges: seq<Edge>, key: EdgeKey)
    requires KeysApart(edges)
    ensures KeysApart(EdgesBut(edges, key))
  {
    hide KeysApart;
    if edges == [] {
    } else {
      assert edges == [edges[0]] + edges[1..];
      KeysApartCons(edges[0], edges[1..]);
      ButKeepsKeysApart(edges[1..], key);
      EdgesButMembers(edges[1..], key);
      KeysApartCons(edges[0], EdgesBut(edges[1..], key));
      assert [] + EdgesBut(edges[1..], key) == EdgesBut(edges[1..], key);
    }
  }

  lemma ChangedPlaced(m: Module, change: EdgeChange)
    requires EdgesPlaced(m) && change.edge.from == m.sourceFile
    ensures EdgesPlaced(m.(edges := Changed(m.edges, change)))
  {
    hide KeysApart, EdgesBut;
    EdgesButMembers(m.edges, KeyOf(change.edge));
    ButKeepsKeysApart(m.edges, KeyOf(change.edge));
    if !Holds(m.edges, KeyOf(change.edge)) {
      KeysApartAppend(m.edges, change.edge);
    }
  }

  lemma ChangeKeepsPlaces(modules: seq<Module>, change: EdgeChange)
    requires WellPlaced(modules)
    ensures WellPlaced(ApplyChange(modules, change))
  {
    hide Changed, EdgesPlaced;
    var file := change.edge.from;
    var ms, i := WithModule(modules, file), IndexOf(modules, file).GetOr(|modules|);
    assert EdgesPlaced(ms[i]) by { EmptyPlaced(file); }
    ChangedPlaced(ms[i], change);
    EmptyPlaced(file);
  }

  lemma EmptyPlaced(file: string)
    ensures EdgesPlaced(Module(file, []))
  {
  }

  lemma {:induction false} ChangesKeepPlaces(modules: seq<Module>, changes: seq<EdgeChange>)
    requires WellPlaced(modules)
    ensures WellPlaced(ApplyChanges(modules, changes))
    decreases |changes|
  {
    hide WellPlaced, ApplyChange;
    if changes != [] {
      ChangeKeepsPlaces(modules, changes[0]);
      ChangesKeepPlaces(ApplyChange(modules, changes[0]), changes[1..]);
    }
  }

  lemma {:induction false} NonEmptyMembers(modules: seq<Module>)
    ensures forall m :: m in NonEmpty(modules) <==> m in modules && m.edges != []
  {
    if modules != [] {
      NonEmptyMembers(modules[1..]);
      assert forall m :: m in modules <==> m == modules[0] || m in modules[1..];
    }
  }

  lemma {:induction false} NonEmptyDistinct(modules: seq<Module>)
    requires FilesDistinct(modules)
    ensures FilesDistinct(NonEmpty(modules))
  {
    if modules != [] {
      NonEmptyDistinct(modules[1..]);
      NonEmptyMembers(modules[1..]);
      var tail := NonEmpty(modules[1..]);
      forall j | 0 <= j < |tail| ensures tail[j].sourceFile != modules[0].sourceFile {
        assert tail[j] in modules[1..];
        var k :| 0 <= k < |modules[1..]| && modules[1..][k] == tail[j];
        assert modules[k + 1] == tail[j];
      }
    }
  }

  /** Dropping the modules without edges loses no edge. */
  lemma NonEmptyKeepsEdges(modules: seq<Module>, key: EdgeKey)
    requires FilesDistinct(modules)
    ensures Lookup(NonEmpty(modules), key) == Lookup(modules, key)
  {
    NonEmptyMembers(modules);
    NonEmptyDistinct(modules);
    var kept := NonEmpty(modules);
    var i, j := IndexOf(modules, key.from), IndexOf(kept, key.from);
    if j.Some? {
      assert kept[j.value] in kept;
    }
    if i.Some? && modules[i.value].edges != [] {
      assert modules[i.value] in kept;
    }
  }

  lemma ChangeKeepsFiles(modules: seq<Module>, change: EdgeChange)
    requires FilesDistinct(modules)
    ensures FilesDistinct(ApplyChange(modules, change))
  {
    hide Changed;
  }

  lemma {:induction false} ChangesKeepFiles(modules: seq<Module>, changes: seq<EdgeChange>)
    requires FilesDistinct(modules)
    ensures FilesDistinct(ApplyChanges(modules, changes))
    decreases |changes|
  {
    hide FilesDistinct, ApplyChange;
    if changes != [] {
      ChangeKeepsFiles(modules, changes[0]);
      ChangesKeepFiles(ApplyChange(modules, changes[0]), changes[1..]);
    }
  }

  /** A merge gives every edge what folding the changes in order gives it, keeps one module per
      file and leaves no empty module; a well-placed graph stays one. */
  lemma MergeFoldsChanges(current: Graph, delta: Delta, key: EdgeKey)
    requires FilesDistinct(current.modules)
    ensures var merged := Merged(current, delta);
            && Lookup(merged.modules, key) == Followed(Lookup(current.modules, key), delta.changedEdges, key)
            && FilesDistinct(merged.modules) && (WellPlaced(current.modules) ==> WellPlaced(merged.modules))
            && (forall m :: m in merged.modules ==> m.edges != [])
            && merged.version == current.version + 1
  {
    hide Lookup, Followed, ApplyChanges, EdgesPlaced, FilesDistinct;
    var all := ApplyChanges(current.modules, delta.changedEdges);
    LookupChanges(current.modules, delta.changedEdges, key);
    ChangesKeepFiles(current.modules, delta.changedEdges);
    NonEmptyKeepsEdges(all, key);
    NonEmptyDistinct(all);
    NonEmptyMembers(all);
    if WellPlaced(current.modules) {
      ChangesKeepPlaces(current.modules, delta.changedEdges);
      var kept := NonEmpty(all);
      forall i | 0 <= i < |kept| ensures EdgesPlaced(kept[i]) {
        assert kept[i] in all;
      }
    }
  }

  const EMPTY_GRAPH := Graph(0, [], [])

  function MergedAll(deltas: seq<Delta>): Graph {
    if deltas == [] then EMPTY_GRAPH else Merged(MergedAll(deltas[..|deltas| - 1]), deltas[|deltas| - 1])
  }

  /** A graph made of deltas alone has one module per file and every edge once and in its place. */
  lemma {:induction false} DeltasPlaceEdges(deltas: seq<Delta>)
    ensures WellPlaced(MergedAll(deltas).modules) && MergedAll(deltas).version == |deltas|
  {
    hide WellPlaced, Merged;
    if deltas == [] {
      assert WellPlaced([]) by { NothingPlaced(); }
    } else {
      var before := MergedAll(deltas[..|deltas| - 1]);
      DeltasPlaceEdges(deltas[..|deltas| - 1]);
      PlacedFiles(before.modules);
      MergeFoldsChanges(before, deltas[|deltas| - 1], EdgeKey("", "", ""));
    }
  }

  lemma NothingPlaced()
    ensures WellPlaced([])
  {
  }

  lemma PlacedFiles(modules: seq<Module>)
    requires WellPlaced(modules)
    ensures FilesDistinct(modules)
  {
  }

  /** In a well-placed graph the edges are exactly what looking up their keys finds. */
  lemma LookupIsMembership(modules: seq<Module>, e: Edge)
    requires WellPlaced(modules)
    ensures Lookup(modules, KeyOf(e)) == Some(e) <==> exists m :: m in modules && e in m.edges
  {
    if m :| m in modules && e in m.edges {
      assert EdgesPlaced(m);
      var a :| 0 <= a < |m.edges| && m.edges[a] == e;
      FindsAt(m.edges, a);
    }
    if Lookup(modules, KeyOf(e)) == Some(e) {
      var m := modules[IndexOf(modules, e.from).value];
      FindHolds(m.edges, KeyOf(e));
      assert m in modules && e in m.edges;
    }
  }

  lemma {:induction false} FindsAt(edges: seq<Edge>, a: nat)
    requires a < |edges| && KeysApart(edges)
    ensures Find(edges, KeyOf(edges[a])) == Some(edges[a])
  {
    if a > 0 {
      assert edges[1..][a - 1] == edges[a];
      FindsAt(edges[1..], a - 1);
    }
  }

  // ----- The last operation wins, and merging again changes nothing -----

  function LastOp(changes: seq<EdgeChange>, key: EdgeKey): Option<EdgeOp> {
    if changes == [] then None
    else
      var later := LastOp(changes[1..], key);
      if later.Some? then later else if KeyOf(changes[0].edge) == key then Some(changes[0].op) else None
  }

  lemma {:induction false} LastOperationWins(found: Option<Edge>, changes: seq<EdgeChange>, key: EdgeKey)
    ensures Followed(found, changes, key).Some? <==>
            match LastOp(changes, key)
            case None => found.Some?
            case Some(op) => op.AddEdge?
    decreases |changes|
  {
    if changes != [] {
      var change := changes[0];
      var next := if KeyOf(change.edge) != key then found
                  else if change.op.RemoveEdge? then None
                  else if found.Some? then found else Some(change.edge);
      LastOperationWins(next, changes[1..], key);
    }
  }

  predicate Removes(changes: seq<EdgeChange>, key: EdgeKey) {
    exists c :: c in changes && c.op.RemoveEdge? && KeyOf(c.edge) == key
  }

  lemma {:induction false} RemovalForgets(a: Option<Edge>, b: Option<Edge>, changes: seq<EdgeChange>, key: EdgeKey)
    requires Removes(changes, key)
    ensures Followed(a, changes, key) == Followed(b, changes, key)
    decreases |changes|
  {
    var change := changes[0];
    if !(change.op.RemoveEdge? && KeyOf(change.edge) == key) {
      assert forall c :: c in changes <==> c == change || c in changes[1..];
      RemovalForgets(Followed(a, [change], key), Followed(b, [change], key), changes[1..], key);
      FollowedCons(a, changes, key);
      FollowedCons(b, changes, key);
    }
  }

  lemma {:induction false} PresentStays(e: Edge, changes: seq<EdgeChange>, key: EdgeKey)
    requires !Removes(changes, key)
    ensures Followed(Some(e), changes, key) == Some(e)
    decreases |changes|
  {
    if changes != [] {
      assert changes[0] in changes && forall c :: c in changes[1..] ==> c in changes;
      PresentStays(e, changes[1..], key);
    }
  }

  lemma FollowedTwice(found: Option<Edge>, changes: seq<EdgeChange>, key: EdgeKey)
    ensures Followed(Followed(found, changes, key), changes, key) == Followed(found, changes, key)
  {
    var once := Followed(found, changes, key);
    if Removes(changes, key) {
      RemovalForgets(once, found, changes, key);
    } else if found.Some? {
      PresentStays(found.value, changes, key);
    } else if once.Some? {
      PresentStays(once.value, changes, key);
    }
  }

  /** Merging the same delta again changes no edge. */
  lemma MergeIsIdempotent(current: Graph, delta: Delta, key: EdgeKey)
    requires FilesDistinct(current.modules)
    ensures var once := Merged(current, delta);
            Lookup(Merged(once, delta).modules, key) == Lookup(once.modules, key)
  {
    hide Lookup, Followed, WellPlaced, Merged;
    MergeFoldsChanges(current, delta, key);
    MergeFoldsChanges(Merged(current, delta), delta, key);
    FollowedTwice(Lookup(current.modules, key), delta.changedEdges, key);
  }

  // ----- The order of the edges -----

  function EdgesIn(modules: seq<Module>, file: string): seq<Edge> {
    var i := IndexOf(modules, file);
    if i.None? then [] else modules[i.value].edges
  }

  ghost function OpOf(change: EdgeChange): KeyOrder.Op<Edge> {
    if change.op.RemoveEdge? then KeyOrder.Drop(change.edge) else KeyOrder.Put(change.edge)
  }

  /** The changes of one file's module. */
  ghost function OpsOn(changes: seq<EdgeChange>, file: string): seq<KeyOrder.Op<Edge>> {
    if changes == [] then []
    else (if changes[0].edge.from == file then [OpOf(changes[0])] else []) + OpsOn(changes[1..], file)
  }

  lemma {:induction false} ButIsSelect(edges: seq<Edge>, key: EdgeKey)
    ensures EdgesBut(edges, key) == KeyOrder.Select(KeyOf, edges, {key}, false)
  {
    if edges != [] {
      ButIsSelect(edges[1..], key);
    }
  }

  lemma ChangedIsStep(edges: seq<Edge>, change: EdgeChange)
    ensures Changed(edges, change) == KeyOrder.Step(KeyOf, edges, OpOf(change))
  {
    ButIsSelect(edges, KeyOf(change.edge));
  }

  lemma EdgesAfterOne(modules: seq<Module>, change: EdgeChange, file: string)
    ensures EdgesIn(ApplyChange(modules, change), file) ==
            if change.edge.from == file then KeyOrder.Step(KeyOf, EdgesIn(modules, file), OpOf(change))
               else EdgesIn(modules, file)
  {
    hide Changed, IndexOf;
    var from := change.edge.from;
    var ms, i := WithModule(modules, from), IndexOf(modules, from).GetOr(|modules|);
    IndexAppend(modules, Module(from, []), file);
    IndexAppend(modules, Module(from, []), from);
    IndexUpdate(ms, i, Changed(ms[i].edges, change), file);
    ChangedIsStep(ms[i].edges, change);
  }

  lemma {:induction false} EdgesAfter(modules: seq<Module>, changes: seq<EdgeChange>, file: string)
    ensures EdgesIn(ApplyChanges(modules, changes), file) ==
            KeyOrder.Fold(KeyOf, EdgesIn(modules, file), OpsOn(changes, file))
    decreases |changes|
  {
    hide EdgesIn, ApplyChange, KeyOrder.Step;
    if changes != [] {
      var rest := OpsOn(changes[1..], file);
      EdgesAfterOne(modules, changes[0], file);
      EdgesAfter(ApplyChange(modules, changes[0]), changes[1..], file);
      assert [] + rest == rest && ([OpOf(changes[0])] + rest)[1..] == rest;
    }
  }

  lemma NonEmptyKeepsModules(modules: seq<Module>, file: string)
    requires FilesDistinct(modules)
    ensures EdgesIn(NonEmpty(modules), file) == EdgesIn(modules, file)
  {
    NonEmptyMembers(modules);
    NonEmptyDistinct(modules);
    var kept := NonEmpty(modules);
    var i, j := IndexOf(modules, file), IndexOf(kept, file);
    if j.Some? { assert kept[j.value] in kept; }
    if i.Some? && modules[i.value].edges != [] { assert modules[i.value] in kept; }
  }

  lemma MergedEdges(current: Graph, delta: Delta, file: string)
    requires FilesDistinct(current.modules)
    ensures EdgesIn(Merged(current, delta).modules, file) ==
            KeyOrder.Fold(KeyOf, EdgesIn(current.modules, file), OpsOn(delta.changedEdges, file))
  {
    hide EdgesIn, FilesDistinct, ApplyChanges;
    ChangesKeepFiles(current.modules, delta.changedEdges);
    EdgesAfter(current.modules, delta.changedEdges, file);
    NonEmptyKeepsModules(ApplyChanges(current.modules, delta.changedEdges), file);
  }

  /** The modules that are there keep their places. */
  lemma {:induction false} FilesStay(modules: seq<Module>, changes: seq<EdgeChange>)
    ensures |modules| <= |ApplyChanges(modules, changes)|
    ensures forall i :: 0 <= i < |modules| ==> ApplyChanges(modules, changes)[i].sourceFile == modules[i].sourceFile
    decreases |changes|
  {
    hide Changed;
    if changes != [] {
      FilesStay(ApplyChange(modules, changes[0]), changes[1..]);
    }
  }

  lemma {:induction false} NonEmptyPrefix(a: seq<Module>, b: seq<Module>)
    requires (forall m :: m in a ==> m.edges != []) && (forall m :: m in b ==> m.edges == [])
    ensures NonEmpty(a + b) == a
  {
    if a == [] {
      NonEmptyMembers(b);
      assert a + b == b;
      if NonEmpty(b) != [] { assert NonEmpty(b)[0] in NonEmpty(b); }
    } else {
      assert (a + b)[1..] == a[1..] + b && (a + b)[0] == a[0] && a[0] in a;
      NonEmptyPrefix(a[1..], b);
      assert [a[0]] + a[1..] == a;
    }
  }

  lemma IndexAt(modules: seq<Module>, i: nat)
    requires FilesDistinct(modules) && i < |modules|
    ensures IndexOf(modules, modules[i].sourceFile) == Some(i)
  {
  }

  lemma EdgesElsewhere(modules: seq<Module>, file: string)
    requires forall m :: m in modules ==> m.sourceFile != file
    ensures EdgesIn(modules, file) == []
  {
  }

  lemma FrontStays(once: seq<Module>, all: seq<Module>, i: nat)
    requires FilesDistinct(once) && FilesDistinct(all) && i < |once| <= |all|
    requires all[i].sourceFile == once[i].sourceFile
    requires EdgesIn(NonEmpty(all), all[i].sourceFile) == EdgesIn(once, all[i].sourceFile)
    ensures all[i] == once[i]
  {
    hide NonEmpty, FilesDistinct;
    NonEmptyKeepsModules(all, all[i].sourceFile);
    IndexAt(all, i);
    IndexAt(once, i);
  }

  lemma BackIsEmpty(once: seq<Module>, all: seq<Module>, i: nat)
    requires FilesDistinct(once) && FilesDistinct(all) && |once| <= i < |all|
    requires forall j :: 0 <= j < |once| ==> all[j].sourceFile == once[j].sourceFile
    requires EdgesIn(NonEmpty(all), all[i].sourceFile) == EdgesIn(once, all[i].sourceFile)
    ensures all[i].edges == []
  {
    hide NonEmpty, FilesDistinct;
    NonEmptyKeepsModules(all, all[i].sourceFile);
    IndexAt(all, i);
    NewFile(once, all, i);
    EdgesElsewhere(once, all[i].sourceFile);
  }

  /** The second merge of a delta leaves the modules alone if it leaves every file's edges alone. */
  lemma SameModules(once: seq<Module>, changes: seq<EdgeChange>)
    requires FilesDistinct(once) && forall m :: m in once ==> m.edges != []
    requires forall file :: EdgesIn(NonEmpty(ApplyChanges(once, changes)), file) == EdgesIn(once, file)
    ensures NonEmpty(ApplyChanges(once, changes)) == once
  {
    hide NonEmpty, ApplyChanges, FilesDistinct, EdgesIn;
    var all := ApplyChanges(once, changes);
    FilesStay(once, changes);
    ChangesKeepFiles(once, changes);
    var front, back := all[..|once|], all[|once|..];
    forall i | 0 <= i < |once| ensures front[i] == once[i] {
      FrontStays(once, all, i);
    }
    forall m | m in back ensures m.edges == [] {
      var i :| |once| <= i < |all| && all[i] == m;
      BackIsEmpty(once, all, i);
    }
    assert front == once;
    NonEmptyPrefix(front, back);
    assert front + back == all;
  }

  lemma NewFile(once: seq<Module>, all: seq<Module>, i: nat)
    requires FilesDistinct(all) && |once| <= i < |all|
    requires forall j :: 0 <= j < |once| ==> all[j].sourceFile == once[j].sourceFile
    ensures forall m :: m in once ==> m.sourceFile != all[i].sourceFile
  {
  }

  /** Merging a delta again leaves the modules as they are, in content and order, exactly if in no
      file an edge that was removed comes back before a new one is added. */
  lemma ModulesRepeatIff(current: Graph, delta: Delta)
    requires FilesDistinct(current.modules)
    ensures var once := Merged(current, delta);
            Merged(once, delta).modules == once.modules <==>
            forall file :: !KeyOrder.Reorders(KeyOf, EdgesIn(current.modules, file), OpsOn(delta.changedEdges, file))
  {
    hide EdgesIn, FilesDistinct, ApplyChanges, KeyOrder.Fold, KeyOrder.Reorders, Lookup, Followed, NonEmpty;
    var once := Merged(current, delta);
    MergeFoldsChanges(current, delta, EdgeKey("", "", ""));
    forall file
      ensures EdgesIn(Merged(once, delta).modules, file) == EdgesIn(once.modules, file) <==>
              !KeyOrder.Reorders(KeyOf, EdgesIn(current.modules, file), OpsOn(delta.changedEdges, file))
    {
      MergedEdges(current, delta, file);
      MergedEdges(once, delta, file);
      KeyOrder.FoldRepeatsIff(KeyOf, EdgesIn(current.modules, file), OpsOn(delta.changedEdges, file));
    }
    if forall file :: !KeyOrder.Reorders(KeyOf, EdgesIn(current.modules, file), OpsOn(delta.changedEdges, file)) {
      SameModules(once.modules, delta.changedEdges);
    }
  }

  // ----- Contracts -----

  /** The contract of an id: a later entry of a list replaces an earlier one. */
  function ContractOf(contracts: seq<Contract>, id: string): (c: Option<Contract>)
    ensures c.Some? ==> c.value.id == id
  {
    if contracts == [] then None
    else if contracts[|contracts| - 1].id == id then Some(contracts[|contracts| - 1])
    else ContractOf(contracts[..|contracts| - 1], id)
  }

  /** What the last change of an id makes of its contract. */
  function ChangedContract(found: Option<Contract>, changes: seq<Contract>, id: string): Option<Contract> {
    var last := ContractOf(changes, id);
    if last.None? then found else if last.value.fingerprint == "" then None else last
  }

  function At(index: Contracts, id: string): Option<Contract> {
    if id in index.data then Some(index.data[id]) else None
  }

  ghost predicate Indexed(index: Contracts) {
    index.Valid() && forall id :: id in index.data ==> index.data[id].id == id
  }

  lemma {:induction false} ContractOfCons(first: Contract, rest: seq<Contract>, id: string)
    ensures ContractOf([first] + rest, id) ==
            if ContractOf(rest, id).Some? then ContractOf(rest, id) else if first.id == id then Some(first) else None
  {
    var all := [first] + rest;
    if rest == [] {
      assert all[..0] == [];
    } else {
      assert all[..|all| - 1] == [first] + rest[..|rest| - 1] && all[|all| - 1] == rest[|rest| - 1];
      ContractOfCons(first, rest[..|rest| - 1], id);
    }
  }

  lemma NoContract(id: string)
    ensures ContractOf([], id) == None
  {
  }

  lemma SetKeeps(index: Contracts, c: Contract, id: string)
    requires Indexed(index)
    ensures Indexed(index.Set(c.id, c)) && At(index.Set(c.id, c), id) == if c.id == id then Some(c) else At(index, id)
  {
  }

  lemma DeleteKeeps(index: Contracts, gone: string, id: string)
    requires Indexed(index)
    ensures Indexed(index.Delete(gone)) && At(index.Delete(gone), id) == if gone == id then None else At(index, id)
  {
  }

  lemma {:induction false} IndexHolds(index: Contracts, contracts: seq<Contract>, id: string)
    requires Indexed(index)
    ensures Indexed(IndexContracts(index, contracts))
    ensures At(IndexContracts(index, contracts), id) ==
            if ContractOf(contracts, id).Some? then ContractOf(contracts, id) else At(index, id)
    decreases |contracts|
  {
    hide ContractOf;
    if contracts == [] {
      NoContract(id);
    } else {
      SetKeeps(index, contracts[0], id);
      IndexHolds(index.Set(contracts[0].id, contracts[0]), contracts[1..], id);
      ContractOfCons(contracts[0], contracts[1..], id);
      assert contracts == [contracts[0]] + contracts[1..];
    }
  }

  lemma {:induction false} ApplyHolds(index: Contracts, changes: seq<Contract>, id: string)
    requires Indexed(index)
    ensures Indexed(ApplyContracts(index, changes))
    ensures At(ApplyContracts(index, changes), id) == ChangedContract(At(index, id), changes, id)
    decreases |changes|
  {
    hide ContractOf, Indexed;
    if changes == [] {
      NoContract(id);
    } else {
      var c := changes[0];
      SetKeeps(index, c, id);
      DeleteKeeps(index, c.id, id);
      ApplyHolds(if c.fingerprint == "" then index.Delete(c.id) else index.Set(c.id, c), changes[1..], id);
      ContractOfCons(c, changes[1..], id);
      assert changes == [c] + changes[1..];
    }
  }

  /** Indexing the values of an index gives it back. */
  lemma {:induction false} ReindexFrom(index: Contracts, n: nat)
    requires Indexed(index) && n <= |index.keys|
    ensures IndexContracts(Prefix(index, n), JsMaps.Lookup(index.keys[n..], index.data)) == index
    decreases |index.keys| - n
  {
    hide Prefix;
    if n == |index.keys| {
      PrefixEnds(index);
    } else {
      ReindexFrom(index, n + 1);
      PrefixStep(index, n);
      var rest := JsMaps.Lookup(index.keys[n + 1..], index.data);
      assert index.keys[n..][1..] == index.keys[n + 1..];
      assert ([index.data[index.keys[n]]] + rest)[1..] == rest;
    }
  }

  lemma Reindexed(index: Contracts)
    requires Indexed(index)
    ensures IndexContracts(Empty(), index.Values()) == index
  {
    PrefixEnds(index);
    ReindexFrom(index, 0);
    assert index.keys[0..] == index.keys;
  }

  function IndexOfGraph(graph: Graph): Contracts {
    IndexContracts(Empty(), graph.contracts)
  }

  lemma MergedIndex(current: Graph, delta: Delta)
    ensures Indexed(IndexOfGraph(current)) && Indexed(IndexOfGraph(Merged(current, delta)))
    ensures IndexOfGraph(Merged(current, delta)) == ApplyContracts(IndexOfGraph(current), delta.changedContracts)
  {
    hide IndexContracts, ApplyContracts;
    IndexHolds(Empty(), current.contracts, "");
    ApplyHolds(IndexOfGraph(current), delta.changedContracts, "");
    Reindexed(ApplyContracts(IndexOfGraph(current), delta.changedContracts));
  }

  /** The last change of an id wins, an empty fingerprint removes, and a second merge of the delta
      changes no contract. */
  lemma LastContractWins(current: Graph, delta: Delta, id: string)
    ensures var once := Merged(current, delta);
            && ContractOf(once.contracts, id) ==
               ChangedContract(ContractOf(current.contracts, id), delta.changedContracts, id)
            && ContractOf(Merged(once, delta).contracts, id) == ContractOf(once.contracts, id)
  {
    hide IndexContracts, ApplyContracts, ContractOf, Merged;
    var once := Merged(current, delta);
    ContractsOfMerge(current, delta, id);
    ContractsOfMerge(once, delta, id);
  }

  lemma ContractsOfMerge(current: Graph, delta: Delta, id: string)
    ensures ContractOf(Merged(current, delta).contracts, id) ==
            ChangedContract(ContractOf(current.contracts, id), delta.changedContracts, id)
  {
    hide IndexContracts, ApplyContracts, ContractOf, Merged;
    MergedIndex(current, delta);
    IndexHolds(Empty(), current.contracts, id);
    IndexHolds(Empty(), Merged(current, delta).contracts, id);
    ApplyHolds(IndexOfGraph(current), delta.changedContracts, id);
  }

  // ----- The order of the contracts -----

  function Own(id: string): string {
    id
  }

  ghost function ContractOps(changes: seq<Contract>): seq<KeyOrder.Op<string>> {
    if changes == [] then []
    else
      [if changes[0].fingerprint == "" then KeyOrder.Drop(changes[0].id) else KeyOrder.Put(changes[0].id)]
      + ContractOps(changes[1..])
  }

  lemma {:induction false} WithoutIsSelect(keys: seq<string>, id: string)
    ensures Without(keys, id) == KeyOrder.Select(Own, keys, {id}, false)
  {
    if keys != [] {
      WithoutIsSelect(keys[1..], id);
      assert [] + Without(keys[1..], id) == Without(keys[1..], id);
    }
  }

  lemma SelectAbsent(keys: seq<string>, id: string)
    requires id !in keys
    ensures KeyOrder.Select(Own, keys, {id}, false) == keys
  {
    WithoutIsSelect(keys, id);
    WithoutNone(keys, id);
  }

  lemma {:induction false} KeysAfter(index: Contracts, changes: seq<Contract>)
    requires index.Valid()
    ensures ApplyContracts(index, changes).keys == KeyOrder.Fold(Own, index.keys, ContractOps(changes))
    decreases |changes|
  {
    if changes != [] {
      var c, ops := changes[0], ContractOps(changes);
      assert ops[1..] == ContractOps(changes[1..]);
      var next := if c.fingerprint == "" then index.Delete(c.id) else index.Set(c.id, c);
      if c.fingerprint == "" {
        WithoutIsSelect(index.keys, c.id);
        if c.id !in index.data { SelectAbsent(index.keys, c.id); }
      } else {
        assert KeyOrder.Has(Own, index.keys, c.id) <==> c.id in index.keys by {
          if c.id in index.keys { assert Own(c.id) == c.id; }
        }
      }
      KeysAfter(next, changes[1..]);
    }
  }

  lemma SameIndex(a: Contracts, b: Contracts)
    requires Indexed(a) && Indexed(b) && forall id :: At(a, id) == At(b, id)
    ensures a.data == b.data
  {
    assert forall id :: id in a.data <==> At(a, id).Some?;
    assert forall id :: id in b.data <==> At(b, id).Some?;
    assert forall id :: id in a.data ==> At(a, id) == Some(a.data[id]);
    assert forall id :: id in b.data ==> At(b, id) == Some(b.data[id]);
  }

  /** Merging a delta again leaves the list of contracts as it is exactly if no contract that was
      removed comes back before a new one is added. */
  lemma ContractsRepeatIff(current: Graph, delta: Delta)
    ensures var once := Merged(current, delta);
            Merged(once, delta).contracts == once.contracts <==>
            !KeyOrder.Reorders(Own, IndexOfGraph(current).keys, ContractOps(delta.changedContracts))
  {
    hide IndexContracts, ApplyContracts, KeyOrder.Fold, KeyOrder.Reorders, ContractOf;
    var once := Merged(current, delta);
    var changes, index := delta.changedContracts, IndexOfGraph(current);
    MergedIndex(current, delta);
    MergedIndex(once, delta);
    var first, second := IndexOfGraph(once), IndexOfGraph(Merged(once, delta));
    KeysAfter(index, changes);
    KeysAfter(first, changes);
    KeyOrder.FoldRepeatsIff(Own, index.keys, ContractOps(changes));
    forall id ensures At(first, id) == At(second, id) {
      ApplyHolds(index, changes, id);
      ApplyHolds(first, changes, id);
    }
    SameIndex(first, second);
  }

  /** A delta merged twice gives the graph of the first merge, but for its version, exactly if
      neither an edge nor a contract comes back before a new one is added. */
  lemma MergeRepeatsIff(current: Graph, delta: Delta)
    requires FilesDistinct(current.modules)
    ensures var once := Merged(current, delta);
            Merged(once, delta) == once.(version := once.version + 1) <==>
            && (forall file :: !KeyOrder.Reorders(KeyOf, EdgesIn(current.modules, file),
                                                  OpsOn(delta.changedEdges, file)))
            && !KeyOrder.Reorders(Own, IndexOfGraph(current).keys, ContractOps(delta.changedContracts))
  {
    hide KeyOrder.Reorders, EdgesIn, OpsOn, ContractOps, IndexOfGraph, ApplyChanges, ApplyContracts, IndexContracts,
         NonEmpty;
    ModulesRepeatIff(current, delta);
    ContractsRepeatIff(current, delta);
  }

  // ----- Where it fails -----

  function Replacing(a: Edge, b: Edge): Delta {
    Delta([EdgeChange(RemoveEdge, a), EdgeChange(AddEdge, a), EdgeChange(AddEdge, b)], [])
  }

  /** Remove an edge, add it, add another one: every second merge swaps the two. */
  lemma SecondMergeSwaps(a: Edge, b: Edge)
    requires KeyOf(a) != KeyOf(b) && a.from == b.from
    ensures var once := Merged(EMPTY_GRAPH, Replacing(a, b));
            && once.modules == [Module(a.from, [a, b])]
            && Merged(once, Replacing(a, b)).modules == [Module(a.from, [b, a])]
  {
    hide ApplyChanges, NonEmpty, Changed;
    ReplacedEdges(a, b);
    ReplacedIn([], a, b);
    ReplacedIn([Module(a.from, [a, b])], a, b);
    OneModule(Module(a.from, [a, b]));
    OneModule(Module(a.from, [b, a]));
  }

  function Replaced(edges: seq<Edge>, a: Edge, b: Edge): seq<Edge> {
    Changed(Changed(Changed(edges, EdgeChange(RemoveEdge, a)), EdgeChange(AddEdge, a)), EdgeChange(AddEdge, b))
  }

  lemma ReplacedEdges(a: Edge, b: Edge)
    requires KeyOf(a) != KeyOf(b)
    ensures Replaced([], a, b) == [a, b] && Replaced([a, b], a, b) == [b, a]
  {
    assert [a, b][1..] == [b] && [b][1..] == [] && EdgesBut([], KeyOf(a)) == [];
    assert EdgesBut([b], KeyOf(a)) == [b] && EdgesBut([a, b], KeyOf(a)) == [b];
    assert [] + [a] == [a] && [a] + [b] == [a, b] && [b] + [a] == [b, a];
    assert b in [b, a];
  }

  lemma {:induction false} ReplacedIn(modules: seq<Module>, a: Edge, b: Edge)
    requires a.from == b.from && (modules == [] || (|modules| == 1 && modules[0].sourceFile == a.from))
    ensures ApplyChanges(modules, Replacing(a, b).changedEdges) ==
            [Module(a.from, Replaced(if modules == [] then [] else modules[0].edges, a, b))]
  {
    hide Changed, ApplyChange;
    var changes := Replacing(a, b).changedEdges;
    var edges := if modules == [] then [] else modules[0].edges;
    var one := Changed(edges, changes[0]);
    var two := Changed(one, changes[1]);
    OneChange(modules, changes[0]);
    OneChange([Module(a.from, one)], changes[1]);
    OneChange([Module(a.from, two)], changes[2]);
    assert changes[1..][0] == changes[1] && changes[1..][1..] == [changes[2]] && [changes[2]][1..] == [];
    assert ApplyChanges([Module(a.from, two)], [changes[2]]) == ApplyChange([Module(a.from, two)], changes[2]);
    assert ApplyChanges([Module(a.from, one)], changes[1..]) == ApplyChanges([Module(a.from, two)], [changes[2]]);
    assert ApplyChanges(modules, changes) == ApplyChanges([Module(a.from, one)], changes[1..]);
  }

  /** One change to a graph of at most one module, that of its file. */
  lemma OneChange(modules: seq<Module>, change: EdgeChange)
    requires modules == [] || (|modules| == 1 && modules[0].sourceFile == change.edge.from)
    ensures ApplyChange(modules, change) ==
            [Module(change.edge.from, Changed(if modules == [] then [] else modules[0].edges, change))]
  {
    hide Changed;
    var m := Module(change.edge.from, []);
    if modules == [] {
      assert [] + [m] == [m];
    } else {
      assert modules == [modules[0]];
    }
  }

  lemma OneModule(m: Module)
    requires m.edges != []
    ensures NonEmpty([m]) == [m]
  {
    assert [m][1..] == [];
  }

  /** A graph that holds a file twice, as nothing keeps an installed one from doing: the first
      merge drops the emptied second module, and the next one reaches the first. */
  lemma DuplicateFileIsReached(e: Edge)
    ensures var delta := Delta([EdgeChange(RemoveEdge, e)], []);
            var installed := Graph(0, [Module(e.from, [e]), Module(e.from, [])], []);
            && Merged(installed, delta).modules == [Module(e.from, [e])]
            && Merged(Merged(installed, delta), delta).modules == []
  {
    var delta := Delta([EdgeChange(RemoveEdge, e)], []);
    var full, empty := Module(e.from, [e]), Module(e.from, []);
    assert IndexOf([full, empty], e.from) == Some(1);
    assert [full, empty][1 := empty] == [full, empty];
    assert delta.changedEdges[1..] == [] && EdgesBut([], KeyOf(e)) == [];
    assert ApplyChanges([full, empty], delta.changedEdges) == [full, empty];
    assert [full, empty][1..] == [empty] && [empty][1..] == [] && NonEmpty([empty]) == [];
    OneChange([full], delta.changedEdges[0]);
    assert [e][1..] == [] && EdgesBut([e], KeyOf(e)) == [];
    assert ApplyChanges([full], delta.changedEdges) == [empty];
  }
}
