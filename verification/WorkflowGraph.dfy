/** Validation of custom workflow graphs (internal/planner/planner.go, graph.go). */
module WorkflowGraph {
  import opened Prelude

  datatype Binding = Binding(name: string, sourceNodeId: string, sourceField: string)

  datatype WorkflowNode = WorkflowNode(id: string, typ: string, promptText: string, promptId: string,
                                       dependsOn: seq<string>, varBindings: seq<Binding>)

  datatype GraphError =
    | EmptyGraph
    | EmptyId
    | DuplicateId(id: string)
    | TypeNotAllowed(id: string, typ: string)
    | UnknownDependency(id: string, dep: string)
    | Cycle(from: string, to: string)

  predicate IsCustomType(typ: string) {
    HasPrefix(typ, "custom:") && |typ| > |"custom:"|
  }

  // ---------------------------------------------------------------------
  // What a good graph is
  // ---------------------------------------------------------------------

  type Deps = map<string, seq<string>>

  predicate UniqueIds(nodes: seq<WorkflowNode>) {
    && (forall i :: 0 <= i < |nodes| ==> nodes[i].id != "")
    && forall i, j :: 0 <= i < j < |nodes| ==> nodes[i].id != nodes[j].id
  }

  predicate TypesAllowed(nodes: seq<WorkflowNode>, allowed: set<string>) {
    forall i :: 0 <= i < |nodes| ==> nodes[i].typ in allowed || IsCustomType(nodes[i].typ)
  }

  function IdsOf(nodes: seq<WorkflowNode>): set<string> {
    set i | 0 <= i < |nodes| :: nodes[i].id
  }

  predicate DepsKnown(nodes: seq<WorkflowNode>) {
    forall i :: 0 <= i < |nodes| ==> forall d :: d in nodes[i].dependsOn ==> d in IdsOf(nodes)
  }

  function DepsOf(nodes: seq<WorkflowNode>): Deps {
    if nodes == [] then map[]
    else var last := nodes[|nodes| - 1]; DepsOf(nodes[..|nodes| - 1])[last.id := last.dependsOn]
  }

  predicate Edge(deps: Deps, u: string, v: string) { u in deps && v in deps[u] }

  /** A walk of at least one edge. */
  predicate IsWalk(deps: Deps, p: seq<string>) {
    |p| >= 2 && forall k :: 0 <= k < |p| - 1 ==> Edge(deps, p[k], p[k + 1])
  }

  /** Some walk goes from `u` over the edge to `v` back to `u`. */
  ghost predicate OnCycle(deps: Deps, u: string, v: string) {
    exists p :: IsWalk(deps, p) && p[0] == u && p[1] == v && p[|p| - 1] == u
  }

  /** No node reaches itself. */
  ghost predicate Acyclic(deps: Deps) {
    forall p :: IsWalk(deps, p) ==> p[0] != p[|p| - 1]
  }

  ghost predicate GoodGraph(nodes: seq<WorkflowNode>, allowed: set<string>) {
    nodes != [] && UniqueIds(nodes) && TypesAllowed(nodes, allowed) && DepsKnown(nodes) && Acyclic(DepsOf(nodes))
  }

  /** A custom type is "custom:" followed by a name. */
  ghost predicate Custom(typ: string) { exists slug :: slug != "" && typ == "custom:" + slug }

  lemma CustomTypeIs(typ: string)
    ensures IsCustomType(typ) <==> Custom(typ)
  {
    if IsCustomType(typ) { assert typ == "custom:" + typ[|"custom:"|..]; }
    if slug :| slug != "" && typ == "custom:" + slug { assert typ[..|"custom:"|] == "custom:"; }
  }

  /** The error names something that is wrong with the graph. */
  ghost predicate IsFault(nodes: seq<WorkflowNode>, allowed: set<string>, e: GraphError) {
    match e
    case EmptyGraph => nodes == []
    case EmptyId => exists i :: 0 <= i < |nodes| && nodes[i].id == ""
    case DuplicateId(id) => exists i, j :: 0 <= i < j < |nodes| && nodes[i].id == id && nodes[j].id == id
    case TypeNotAllowed(id, typ) =>
      exists i :: 0 <= i < |nodes| && nodes[i].id == id && nodes[i].typ == typ && typ !in allowed && !Custom(typ)
    case UnknownDependency(id, dep) =>
      && (exists i :: 0 <= i < |nodes| && nodes[i].id == id && dep in nodes[i].dependsOn)
      && forall i :: 0 <= i < |nodes| ==> nodes[i].id != dep
    case Cycle(from, to) => OnCycle(DepsOf(nodes), from, to)
  }

  // ---------------------------------------------------------------------
  // Topological orders
  // ---------------------------------------------------------------------

  /** Every entry comes after all the nodes it depends on. */
  predicate Topological(deps: Deps, order: seq<string>) {
    && (forall i :: 0 <= i < |order| ==> order[i] in deps)
    && (forall i, j :: 0 <= i < j < |order| ==> order[i] != order[j])
    && forall i :: 0 <= i < |order| ==> forall d :: d in deps[order[i]] ==> d in order[..i]
  }

  lemma {:induction false} WalkDescends(deps: Deps, order: seq<string>, p: seq<string>, i: nat)
    requires Topological(deps, order) && IsWalk(deps, p) && i < |order| && order[i] == p[0]
    ensures p[|p| - 1] in order[..i]
    decreases |p|
  {
    assert Edge(deps, p[0], p[1]);
    assert p[1] in order[..i];
    if |p| > 2 {
      var j :| 0 <= j < i && order[j] == p[1];
      var q := p[1..];
      forall k | 0 <= k < |q| - 1 ensures Edge(deps, q[k], q[k + 1]) { assert Edge(deps, p[k + 1], p[k + 2]); }
      WalkDescends(deps, order, q, j);
      assert q[|q| - 1] in order[..j] && order[..j] <= order[..i];
    }
  }

  /** A graph with a topological order of all its nodes has no cycle. */
  lemma OrderedIsAcyclic(deps: Deps, order: seq<string>)
    requires Topological(deps, order) && forall u :: u in deps ==> u in order
    ensures Acyclic(deps)
  {
    forall p | IsWalk(deps, p) ensures p[0] != p[|p| - 1] {
      assert Edge(deps, p[0], p[1]);
      var i :| 0 <= i < |order| && order[i] == p[0];
      WalkDescends(deps, order, p, i);
    }
  }

  // ---------------------------------------------------------------------
  // The three-colour search
  // ---------------------------------------------------------------------

  datatype Color = White | Gray | Black

  type Colors = map<string, Color>

  function ColorIn(color: Colors, id: string): Color {
    if id in color then color[id] else White
  }

  ghost function WhitesIn(deps: Deps, color: Colors): set<string> {
    set id | id in deps && ColorIn(color, id) == White
  }

  predicate IsPath(deps: Deps, path: seq<string>) {
    && (forall k :: 0 <= k < |path| ==> path[k] in deps)
    && (forall k :: 0 <= k < |path| - 1 ==> Edge(deps, path[k], path[k + 1]))
  }

  /** The gray nodes are the path of open visits, the black ones the finished order. */
  ghost predicate Searching(deps: Deps, color: Colors, order: seq<string>, stack: seq<string>) {
    && (forall id :: ColorIn(color, id) == Gray <==> id in stack)
    && (forall id :: ColorIn(color, id) == Black <==> id in order)
    && IsPath(deps, stack)
    && Topological(deps, order)
  }

  predicate Closed(deps: Deps) {
    forall u :: u in deps ==> forall d :: d in deps[u] ==> d in deps
  }

  lemma PushGray(deps: Deps, color: Colors, order: seq<string>, stack: seq<string>, id: string)
    requires Searching(deps, color, order, stack) && id in deps && ColorIn(color, id) == White
    requires stack != [] ==> Edge(deps, stack[|stack| - 1], id)
    ensures Searching(deps, color[id := Gray], order, stack + [id])
    ensures WhitesIn(deps, color[id := Gray]) == WhitesIn(deps, color) - {id} && id in WhitesIn(deps, color)
  {
    var c := color[id := Gray];
    assert forall x :: ColorIn(c, x) == if x == id then Gray else ColorIn(color, x);
    assert forall x :: x in stack + [id] <==> x in stack || x == id;
  }

  lemma PopBlack(deps: Deps, color: Colors, order: seq<string>, stack: seq<string>, id: string)
    requires Searching(deps, color, order, stack + [id]) && id !in stack && id in deps
    requires forall m :: 0 <= m < |deps[id]| ==> deps[id][m] in order
    ensures Searching(deps, color[id := Black], order + [id], stack)
    ensures WhitesIn(deps, color[id := Black]) == WhitesIn(deps, color)
  {
    var c, open := color[id := Black], stack + [id];
    assert open[|stack|] == id && forall k :: 0 <= k < |stack| ==> open[k] == stack[k];
    assert ColorIn(color, id) == Gray;
    assert forall x :: ColorIn(c, x) == if x == id then Black else ColorIn(color, x);
    assert forall x :: x in open <==> x in stack || x == id;
    forall k | 0 <= k < |stack| - 1 ensures Edge(deps, stack[k], stack[k + 1]) { assert Edge(deps, open[k], open[k + 1]); }
    FinishNode(deps, order, id);
  }

  class Search {
    const deps: Deps
    var color: Colors
    ghost var order: seq<string>  // the black nodes, in the order they were finished

    constructor (d: Deps)
      ensures deps == d && color == map[] && order == []
    {
      deps, color, order := d, map[], [];
    }

    /** `visit`: on success the node is black and the open visits are as before; an
        error names an edge on a cycle. */
    method Visit(id: string, ghost stack: seq<string>) returns (r: Result<(), GraphError>)
      requires Closed(deps) && Searching(deps, color, order, stack) && id in deps && ColorIn(color, id) == White
      requires stack != [] ==> Edge(deps, stack[|stack| - 1], id)
      modifies this
      ensures r.Ok? ==> Searching(deps, color, order, stack) && id in order && old(order) <= order
      ensures r.Ok? ==> WhitesIn(deps, color) < old(WhitesIn(deps, color))
      ensures r.Err? ==> r.error.Cycle? && OnCycle(deps, r.error.from, r.error.to)
      decreases WhitesIn(deps, color)
    {
      PushGray(deps, color, order, stack, id);
      assert id !in stack;
      color := color[id := Gray];
      ghost var open := stack + [id];
      var list := deps[id];
      for k := 0 to |list|
        invariant Searching(deps, color, order, open) && old(order) <= order
        invariant WhitesIn(deps, color) < old(WhitesIn(deps, color))
        invariant forall m :: 0 <= m < k ==> list[m] in order
      {
        var dep := list[k];
        assert Edge(deps, id, dep);
        if ColorIn(color, dep) == Gray {
          CycleFound(deps, open, dep);
          return Err(Cycle(id, dep));
        } else if ColorIn(color, dep) == White {
          r := Visit(dep, open);
          if r.Err? {
            return;
          }
        }
      }
      PopBlack(deps, color, order, stack, id);
      color := color[id := Black];
      order := order + [id];
      r := Ok(());
    }
  }

  lemma FinishNode(deps: Deps, order: seq<string>, id: string)
    requires Topological(deps, order) && id in deps && id !in order
    requires forall m :: 0 <= m < |deps[id]| ==> deps[id][m] in order
    ensures Topological(deps, order + [id])
  {
    var all := order + [id];
    forall i | 0 <= i < |all| ensures forall d :: d in deps[all[i]] ==> d in all[..i] {
      assert all[..i] == order[..i];
      if i == |order| { assert order[..i] == order; }
    }
  }

  /** An edge from the last open node back into the open path closes a cycle. */
  lemma CycleFound(deps: Deps, open: seq<string>, dep: string)
    requires open != [] && dep in open && Edge(deps, open[|open| - 1], dep) && IsPath(deps, open)
    ensures OnCycle(deps, open[|open| - 1], dep)
  {
    var k :| 0 <= k < |open| && open[k] == dep;
    var last := open[|open| - 1];
    var p := [last] + open[k..];
    forall m | 0 <= m < |p| - 1 ensures Edge(deps, p[m], p[m + 1]) {
      if m > 0 { assert p[m] == open[k + m - 1] && p[m + 1] == open[k + m]; }
    }
    assert IsWalk(deps, p) && p[0] == last && p[1] == dep && p[|p| - 1] == last;
  }

  // ---------------------------------------------------------------------
  // Validation
  // ---------------------------------------------------------------------

  method CheckIds(nodes: seq<WorkflowNode>, allowed: set<string>) returns (r: Result<set<string>, GraphError>)
    ensures r.Ok? <==> UniqueIds(nodes) && TypesAllowed(nodes, allowed)
    ensures r.Ok? ==> r.value == IdsOf(nodes)
    ensures r.Err? ==> (r.error.EmptyId? || r.error.DuplicateId? || r.error.TypeNotAllowed?) && IsFault(nodes, allowed, r.error)
  {
    var ids: set<string> := {};
    for i := 0 to |nodes|
      invariant ids == IdsOf(nodes[..i]) && UniqueIds(nodes[..i]) && TypesAllowed(nodes[..i], allowed)
    {
      var n := nodes[i];
      assert nodes[..i + 1] == nodes[..i] + [n];
      if n.id == "" {
        return Err(EmptyId);
      }
      if n.id in ids {
        var j :| 0 <= j < i && nodes[..i][j].id == n.id;
        assert nodes[j].id == nodes[i].id;
        return Err(DuplicateId(n.id));
      }
      ids := ids + {n.id};
      CustomTypeIs(n.typ);
      if n.typ !in allowed && !IsCustomType(n.typ) {
        return Err(TypeNotAllowed(n.id, n.typ));
      }
      IdsOfSnoc(nodes, i);
    }
    assert nodes[..|nodes|] == nodes;
    return Ok(ids);
  }

  lemma IdsOfSnoc(nodes: seq<WorkflowNode>, i: nat)
    requires i < |nodes|
    ensures IdsOf(nodes[..i + 1]) == IdsOf(nodes[..i]) + {nodes[i].id}
  {
    var a, b := nodes[..i], nodes[..i + 1];
    assert forall k :: 0 <= k < i ==> a[k] == b[k];
    assert b[i] == nodes[i];
    forall x | x in IdsOf(b) ensures x in IdsOf(a) + {nodes[i].id} {
      var k :| 0 <= k < |b| && b[k].id == x;
      if k < i { assert a[k].id == x; }
    }
    forall x | x in IdsOf(a) ensures x in IdsOf(b) {
      var k :| 0 <= k < |a| && a[k].id == x;
      assert b[k].id == x;
    }
  }

  method CheckDeps(nodes: seq<WorkflowNode>, ids: set<string>) returns (r: Result<(), GraphError>)
    requires ids == IdsOf(nodes)
    ensures r.Ok? <==> DepsKnown(nodes)
    ensures r.Err? ==> r.error.UnknownDependency? && IsFault(nodes, {}, r.error)
  {
    for i := 0 to |nodes|
      invariant forall m :: 0 <= m < i ==> forall d :: d in nodes[m].dependsOn ==> d in ids
    {
      var deps := nodes[i].dependsOn;
      for k := 0 to |deps|
        invariant forall m :: 0 <= m < k ==> deps[m] in ids
      {
        if deps[k] !in ids {
          return Err(UnknownDependency(nodes[i].id, deps[k]));
        }
      }
    }
    return Ok(());
  }

  method BuildDeps(nodes: seq<WorkflowNode>) returns (deps: Deps)
    ensures deps == DepsOf(nodes)
  {
    deps := map[];
    for i := 0 to |nodes|
      invariant deps == DepsOf(nodes[..i])
    {
      assert nodes[..i + 1][..i] == nodes[..i];
      deps := deps[nodes[i].id := nodes[i].dependsOn];
    }
    assert nodes[..|nodes|] == nodes;
  }

  lemma {:induction false} DepsKeys(nodes: seq<WorkflowNode>)
    ensures DepsOf(nodes).Keys == IdsOf(nodes)
  {
    if nodes != [] {
      var n := |nodes| - 1;
      DepsKeys(nodes[..n]);
      IdsOfSnoc(nodes, n);
      assert nodes[..n + 1] == nodes;
    }
  }

  lemma {:induction false} DepsOfNode(nodes: seq<WorkflowNode>, i: nat)
    requires UniqueIds(nodes) && i < |nodes|
    ensures nodes[i].id in DepsOf(nodes) && DepsOf(nodes)[nodes[i].id] == nodes[i].dependsOn
  {
    var n := |nodes| - 1;
    if i < n {
      assert forall k :: 0 <= k < n ==> nodes[..n][k] == nodes[k];
      DepsOfNode(nodes[..n], i);
    }
  }

  lemma DepsOfFacts(nodes: seq<WorkflowNode>)
    requires UniqueIds(nodes)
    ensures DepsOf(nodes).Keys == IdsOf(nodes)
    ensures forall i :: 0 <= i < |nodes| ==> nodes[i].id in DepsOf(nodes) && DepsOf(nodes)[nodes[i].id] == nodes[i].dependsOn
  {
    DepsKeys(nodes);
    forall i | 0 <= i < |nodes| ensures nodes[i].id in DepsOf(nodes) && DepsOf(nodes)[nodes[i].id] == nodes[i].dependsOn {
      DepsOfNode(nodes, i);
    }
  }

  lemma KnownDepsClosed(nodes: seq<WorkflowNode>)
    requires UniqueIds(nodes) && DepsKnown(nodes)
    ensures Closed(DepsOf(nodes))
  {
    DepsOfFacts(nodes);
    forall u | u in DepsOf(nodes) ensures forall d :: d in DepsOf(nodes)[u] ==> d in DepsOf(nodes) {
      var i :| 0 <= i < |nodes| && nodes[i].id == u;
      assert nodes[i].id in DepsOf(nodes);
    }
  }

  /** The cycle check: a visit from every node still white. */
  method SearchAll(nodes: seq<WorkflowNode>, deps: Deps) returns (r: Result<(), GraphError>, ghost order: seq<string>)
    requires Closed(deps) && forall i :: 0 <= i < |nodes| ==> nodes[i].id in deps
    ensures r.Ok? ==> Topological(deps, order) && forall i :: 0 <= i < |nodes| ==> nodes[i].id in order
    ensures r.Err? ==> r.error.Cycle? && OnCycle(deps, r.error.from, r.error.to)
  {
    order := [];
    var s := new Search(deps);
    for i := 0 to |nodes|
      invariant s.deps == deps && Searching(deps, s.color, s.order, [])
      invariant forall m :: 0 <= m < i ==> nodes[m].id in s.order
    {
      if ColorIn(s.color, nodes[i].id) == White {
        var v := s.Visit(nodes[i].id, []);
        if v.Err? {
          return v, [];
        }
      }
    }
    return Ok(()), s.order;
  }

  /** `ValidateCustomGraph`: accepts exactly the good graphs; an error names
      a fault that is there, a cycle error an edge on a cycle; an accepted graph comes with a topological order. */
  method ValidateCustomGraph(nodes: seq<WorkflowNode>, allowed: set<string>)
    returns (r: Result<(), GraphError>, ghost order: seq<string>)
    ensures r.Ok? <==> GoodGraph(nodes, allowed)
    ensures r.Err? ==> IsFault(nodes, allowed, r.error)
    ensures r.Ok? ==> Topological(DepsOf(nodes), order) && forall i :: 0 <= i < |nodes| ==> nodes[i].id in order
  {
    order := [];
    if |nodes| == 0 {
      return Err(EmptyGraph), [];
    }
    var ids := CheckIds(nodes, allowed);
    if ids.Err? {
      return Err(ids.error), [];
    }
    var known := CheckDeps(nodes, ids.value);
    if known.Err? {
      return Err(known.error), [];
    }
    var deps := BuildDeps(nodes);
    DepsOfFacts(nodes);
    KnownDepsClosed(nodes);
    r, order := SearchAll(nodes, deps);
    if r.Ok? {
      OrderedIsAcyclic(deps, order);
    }
  }

  lemma DepBefore(deps: Deps, order: seq<string>, i: nat, k: nat) returns (j: nat)
    requires Topological(deps, order) && i < |order| && k < |deps[order[i]]|
    ensures j < i && order[j] == deps[order[i]][k]
  {
    var d := deps[order[i]][k];
    assert d in order[..i];
    j :| 0 <= j < i && order[..i][j] == d;
  }

  lemma FirstHasNoDeps(deps: Deps, order: seq<string>)
    requires Topological(deps, order) && order != []
    ensures deps[order[0]] == []
  {
    if deps[order[0]] != [] { var _ := DepBefore(deps, order, 0, 0); }
  }

  /** An accepted graph has a node without dependencies, so a run has a ready todo. */
  lemma SomeNodeIsReady(nodes: seq<WorkflowNode>, allowed: set<string>, order: seq<string>)
    requires GoodGraph(nodes, allowed) && Topological(DepsOf(nodes), order)
    requires forall i :: 0 <= i < |nodes| ==> nodes[i].id in order
    ensures exists i :: 0 <= i < |nodes| && nodes[i].dependsOn == []
  {
    DepsOfFacts(nodes);
    assert nodes[0].id in order;
    var first := order[0];
    assert first in IdsOf(nodes);
    var i :| 0 <= i < |nodes| && nodes[i].id == first;
    FirstHasNoDeps(DepsOf(nodes), order);
  }

  /** In a good graph no node lists itself as a dependency. */
  lemma NoSelfDependency(nodes: seq<WorkflowNode>, allowed: set<string>, i: nat)
    requires GoodGraph(nodes, allowed) && i < |nodes|
    ensures nodes[i].id !in nodes[i].dependsOn
  {
    DepsOfFacts(nodes);
    var id := nodes[i].id;
    if id in nodes[i].dependsOn {
      assert Edge(DepsOf(nodes), id, id);
      assert IsWalk(DepsOf(nodes), [id, id]);
    }
  }
}
