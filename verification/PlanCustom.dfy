/** Planning a custom workflow: binding checks, and the two passes that turn local
    node ids into todo ids (internal/planner/planner.go, internal/todos/store.go). */
module PlanCustom {
  import opened Prelude
  import opened WorkflowGraph

  /** A registry entry: its kind, and its parameters if they parse. */
  datatype ResolvedType = ResolvedType(kind: string, params: Option<string>)

  /** One entry of the stored `variables` list; None stands for an absent key. */
  datatype StoredVar = StoredVar(name: string, sourceNodeId: Option<string>, sourceTodoId: Option<string>,
                                 sourceField: Option<string>)

  datatype NodeInput =
    | TypedInput(kind: string, params: string, variables: seq<StoredVar>)
    | BuiltinInput

  datatype TodoRow = TodoRow(typ: string, ready: bool, dependsOn: seq<string>, input: NodeInput)

  datatype NodeSpec = NodeSpec(localId: string, typ: string, dependsOn: seq<string>, input: NodeInput)

  datatype PlanError =
    | BadGraph(graphError: GraphError)
    | BadSourceField(node: string, name: string)
    | SourceNotDependency(node: string, name: string)
    | BadParams(node: string)
    | PromptMissing(node: string)
    | DependencyUnmapped
    | UnknownLocalNode(name: string)

  type Types = map<string, ResolvedType>

  /** `fieldNameRe`: a safe identifier. */
  predicate IsFieldName(s: string) {
    && s != ""
    && (s[0] == '_' || 'A' <= s[0] <= 'Z' || 'a' <= s[0] <= 'z')
    && forall k :: 0 <= k < |s| ==> s[k] == '_' || 'A' <= s[k] <= 'Z' || 'a' <= s[k] <= 'z' || IsDigit(s[k])
  }

  predicate FieldOk(b: Binding) { b.sourceField == "" || IsFieldName(b.sourceField) }

  predicate BindingOk(n: WorkflowNode, b: Binding) {
    FieldOk(b) && (b.sourceNodeId == "" || b.sourceNodeId in n.dependsOn)
  }

  /** Every binding of a typed node names a safe field of a node it depends on. */
  predicate BindingsOk(nodes: seq<WorkflowNode>, types: Types) {
    forall i :: 0 <= i < |nodes| && nodes[i].id in types ==> forall b :: b in nodes[i].varBindings ==> BindingOk(nodes[i], b)
  }

  function FieldKey(b: Binding): Option<string> {
    if b.sourceField == "" then None else Some(b.sourceField)
  }

  /** Pass 1 can build the node's input: parameters that parse for a typed node,
      else a prompt text, no prompt id, or a known one. */
  predicate InputOk(n: WorkflowNode, types: Types, prompts: set<string>) {
    if n.id in types then types[n.id].params.Some?
    else n.promptText != "" || n.promptId == "" || n.promptId in prompts
  }

  predicate InputsOk(nodes: seq<WorkflowNode>, types: Types, prompts: set<string>) {
    forall i :: 0 <= i < |nodes| ==> InputOk(nodes[i], types, prompts)
  }

  /** Field names are words of letters, digits and underscores that begin with no digit. */
  lemma FieldNameIs(s: string, c: char)
    ensures !IsFieldName("")
    ensures IsFieldName([c]) <==> c == '_' || 'A' <= c <= 'Z' || 'a' <= c <= 'z'
    ensures s != "" ==>
              (IsFieldName(s + [c]) <==> IsFieldName(s) && (c == '_' || 'A' <= c <= 'Z' || 'a' <= c <= 'z' || '0' <= c <= '9'))
  {
    if s != "" {
      var t := s + [c];
      assert t[0] == s[0] && t[|s|] == c && forall k :: 0 <= k < |s| ==> t[k] == s[k];
    }
  }

  /** A stored variable keeps the name and the field its author wrote; an empty
      field is an absent key. */
  predicate KeepsNames(v: StoredVar, b: Binding) {
    && v.name == b.name
    && (b.sourceField == "" ==> v.sourceField.None?)
    && (b.sourceField != "" ==> v.sourceField == Some(b.sourceField))
  }

  /** Pass 1: names and fields as written, the local id of the source as it is. */
  lemma LocalVarsKeep(bindings: seq<Binding>, k: nat)
    requires k < |bindings|
    ensures |LocalVars(bindings)| == |bindings|
    ensures var v := LocalVars(bindings)[k];
            KeepsNames(v, bindings[k]) && v.sourceNodeId == Some(bindings[k].sourceNodeId) && v.sourceTodoId.None?
  {
  }

  // ---------------------------------------------------------------------
  // The passes
  // ---------------------------------------------------------------------

  /** Pass 1 keeps the local id under `sourceNodeId`. */
  function LocalVar(b: Binding): StoredVar { StoredVar(b.name, Some(b.sourceNodeId), None, FieldKey(b)) }

  function LocalVars(bindings: seq<Binding>): seq<StoredVar> { seq(|bindings|, k requires 0 <= k < |bindings| => LocalVar(bindings[k])) }

  /** What pass 2 stores: the todo of the source node, and no local id. */
  predicate Rewritten(v: StoredVar, b: Binding, idMap: map<string, string>) {
    && KeepsNames(v, b) && v.sourceNodeId.None?
    && v.sourceTodoId == if b.sourceNodeId == "" then None
                         else if b.sourceNodeId in idMap then Some(idMap[b.sourceNodeId]) else None
  }

  predicate AllRewritten(vars: seq<StoredVar>, bindings: seq<Binding>, idMap: map<string, string>) {
    |vars| == |bindings| && forall k :: 0 <= k < |vars| ==> Rewritten(vars[k], bindings[k], idMap)
  }

  /** Fresh todo ids for all nodes, no two the same: what `newID` is relied on for. */
  predicate FreshIds(nodes: seq<WorkflowNode>, idMap: map<string, string>) {
    && idMap.Keys == IdsOf(nodes)
    && forall x, y :: x in idMap && y in idMap && idMap[x] == idMap[y] ==> x == y
  }

  /** Rows under other ids keep their value, and no other id appears. */
  predicate OthersKept(before: map<string, TodoRow>, after: map<string, TodoRow>, idMap: map<string, string>) {
    && (forall id :: id in before && id !in idMap.Values ==> id in after && after[id] == before[id])
    && (forall id :: id in after ==> id in before || id in idMap.Values)
  }

  function MapIds(ids: seq<string>, idMap: map<string, string>): seq<string>
    requires forall d :: d in ids ==> d in idMap
  {
    seq(|ids|, k requires 0 <= k < |ids| => assert ids[k] in ids; idMap[ids[k]])
  }

  /** The stored todo of a node, when planning is done. */
  predicate Planned(row: TodoRow, n: WorkflowNode, types: Types, idMap: map<string, string>) {
    && row.typ == n.typ
    && (forall d :: d in n.dependsOn ==> d in idMap)
    && row.dependsOn == MapIds(n.dependsOn, idMap)
    && (row.ready <==> n.dependsOn == [])
    && (n.id in types ==>
          row.input.TypedInput? && row.input.kind == types[n.id].kind && Some(row.input.params) == types[n.id].params
          && AllRewritten(row.input.variables, n.varBindings, idMap))
    && (n.id !in types ==> row.input.BuiltinInput?)
  }

  /** The error names a binding of a typed node that is wrong in that way. */
  predicate IsBindingFault(nodes: seq<WorkflowNode>, types: Types, e: PlanError) {
    match e
    case BadSourceField(node, name) =>
      exists i, k :: 0 <= i < |nodes| && 0 <= k < |nodes[i].varBindings| && nodes[i].id == node && node in types
        && nodes[i].varBindings[k].name == name && nodes[i].varBindings[k].sourceField != ""
        && !IsFieldName(nodes[i].varBindings[k].sourceField)
    case SourceNotDependency(node, name) =>
      exists i, k :: 0 <= i < |nodes| && 0 <= k < |nodes[i].varBindings| && nodes[i].id == node && node in types
        && nodes[i].varBindings[k].name == name && nodes[i].varBindings[k].sourceNodeId != ""
        && nodes[i].varBindings[k].sourceNodeId !in nodes[i].dependsOn
    case _ => false
  }

  class Planner {
    var todos: map<string, TodoRow>
    const allowed: set<string>  // the type whitelist
    const prompts: set<string>  // ids of known prompts, built-in or in the library

    constructor (types: set<string>, known: set<string>)
      ensures todos == map[] && allowed == types && prompts == known
    {
      todos, allowed, prompts := map[], types, known;
    }

    method CheckBindings(nodes: seq<WorkflowNode>, types: Types) returns (r: Result<(), PlanError>)
      ensures r.Ok? <==> BindingsOk(nodes, types)
      ensures r.Err? ==> IsBindingFault(nodes, types, r.error)
    {
      for i := 0 to |nodes|
        invariant forall m :: 0 <= m < i && nodes[m].id in types ==> forall b :: b in nodes[m].varBindings ==> BindingOk(nodes[m], b)
      {
        var n := nodes[i];
        if n.id in types {
          for k := 0 to |n.varBindings|
            invariant forall m :: 0 <= m < k ==> BindingOk(n, n.varBindings[m])
          {
            var v := n.varBindings[k];
            assert v in nodes[i].varBindings && nodes[i].id in types;
            if v.sourceField != "" && !IsFieldName(v.sourceField) {
              return Err(BadSourceField(n.id, v.name));
            }
            if v.sourceNodeId != "" && v.sourceNodeId !in n.dependsOn {
              return Err(SourceNotDependency(n.id, v.name));
            }
          }
        }
      }
      return Ok(());
    }

    /** Pass 1 for one node. */
    method NodeInputFor(n: WorkflowNode, types: Types) returns (r: Result<NodeInput, PlanError>)
      ensures r.Ok? <==> InputOk(n, types, prompts)
      ensures r.Ok? && n.id in types ==>
                types[n.id].params.Some?
                && r.value == TypedInput(types[n.id].kind, types[n.id].params.value, LocalVars(n.varBindings))
      ensures r.Ok? && n.id !in types ==> r.value == BuiltinInput
      ensures r.Err? ==> r.error == if n.id in types then BadParams(n.id) else PromptMissing(n.id)
    {
      if n.id in types {
        var rt := types[n.id];
        if rt.params.None? {
          return Err(BadParams(n.id));
        }
        var vars: seq<StoredVar> := [];
        for k := 0 to |n.varBindings|
          invariant |vars| == k && forall m :: 0 <= m < k ==> vars[m] == LocalVar(n.varBindings[m])
        {
          vars := vars + [LocalVar(n.varBindings[k])];
        }
        assert vars == LocalVars(n.varBindings);
        return Ok(TypedInput(rt.kind, rt.params.value, vars));
      }
      if n.promptText == "" && n.promptId != "" && n.promptId !in prompts {
        return Err(PromptMissing(n.id));
      }
      return Ok(BuiltinInput);
    }

    method BuildSpecs(nodes: seq<WorkflowNode>, types: Types) returns (r: Result<seq<NodeSpec>, PlanError>)
      ensures r.Ok? <==> InputsOk(nodes, types, prompts)
      ensures r.Ok? ==> |r.value| == |nodes| && forall i :: 0 <= i < |nodes| ==> SpecOf(r.value[i], nodes[i], types)
      ensures r.Err? ==> r.error.BadParams? || r.error.PromptMissing?
    {
      var specs: seq<NodeSpec> := [];
      for i := 0 to |nodes|
        invariant |specs| == i && forall m :: 0 <= m < i ==> SpecOf(specs[m], nodes[m], types)
        invariant forall m :: 0 <= m < i ==> InputOk(nodes[m], types, prompts)
      {
        var n := nodes[i];
        var in_ := NodeInputFor(n, types);
        if in_.Err? {
          return Err(in_.error);
        }
        specs := specs + [NodeSpec(n.id, n.typ, n.dependsOn, in_.value)];
      }
      return Ok(specs);
    }

    /** `CreateGraph`: one transaction that inserts a row per spec, or none. */
    method CreateGraph(specs: seq<NodeSpec>, idMap: map<string, string>) returns (r: Result<(), PlanError>)
      requires forall i :: 0 <= i < |specs| ==> specs[i].localId in idMap
      requires forall i, j :: 0 <= i < j < |specs| ==> idMap[specs[i].localId] != idMap[specs[j].localId]
      modifies this
      ensures r.Err? ==> todos == old(todos) && !AllMapped(specs, idMap)
      ensures r.Ok? ==> forall i :: 0 <= i < |specs| ==> RowOf(todos, specs[i], idMap)
      ensures OthersKept(old(todos), todos, idMap)
    {
      var rows := todos;
      for i := 0 to |specs|
        invariant OthersKept(todos, rows, idMap)
        invariant forall m :: 0 <= m < i ==> RowOf(rows, specs[m], idMap)
      {
        var sp := specs[i];
        var deps: seq<string> := [];
        for k := 0 to |sp.dependsOn|
          invariant |deps| == k && forall m :: 0 <= m < k ==> sp.dependsOn[m] in idMap && deps[m] == idMap[sp.dependsOn[m]]
        {
          if sp.dependsOn[k] !in idMap {
            assert specs[i].dependsOn[k] !in idMap;
            return Err(DependencyUnmapped);
          }
          deps := deps + [idMap[sp.dependsOn[k]]];
        }
        assert deps == MapIds(sp.dependsOn, idMap);
        assert idMap[sp.localId] in idMap.Values;
        rows := rows[idMap[sp.localId] := TodoRow(sp.typ, |deps| == 0, deps, sp.input)];
      }
      todos := rows;
      return Ok(());
    }

    /** Pass 2 for one node's bindings. */
    method Rewrite(bindings: seq<Binding>, idMap: map<string, string>) returns (r: Result<seq<StoredVar>, PlanError>)
      ensures r.Ok? <==> forall b :: b in bindings ==> b.sourceNodeId == "" || b.sourceNodeId in idMap
      ensures r.Ok? ==> AllRewritten(r.value, bindings, idMap)
      ensures r.Ok? ==> forall k :: 0 <= k < |bindings| ==>
                var v, b := r.value[k], bindings[k];
                && KeepsNames(v, b) && v.sourceNodeId.None?
                && (b.sourceNodeId == "" ==> v.sourceTodoId.None?)
                && (b.sourceNodeId != "" ==> b.sourceNodeId in idMap && v.sourceTodoId == Some(idMap[b.sourceNodeId]))
    {
      var vars: seq<StoredVar> := [];
      for k := 0 to |bindings|
        invariant |vars| == k && forall m :: 0 <= m < k ==> Rewritten(vars[m], bindings[m], idMap)
        invariant forall m :: 0 <= m < k ==> bindings[m].sourceNodeId == "" || bindings[m].sourceNodeId in idMap
      {
        var v := bindings[k];
        var out := StoredVar(v.name, None, None, FieldKey(v));
        if v.sourceNodeId != "" {
          if v.sourceNodeId !in idMap {
            return Err(UnknownLocalNode(v.name));
          }
          out := out.(sourceTodoId := Some(idMap[v.sourceNodeId]));
        }
        vars := vars + [out];
      }
      return Ok(vars);
    }

    /** Pass 2 for one node. */
    method RewriteNode(nodes: seq<WorkflowNode>, types: Types, idMap: map<string, string>, i: nat) returns (r: Result<(), PlanError>)
      requires i < |nodes| && UniqueIds(nodes) && DepsKnown(nodes) && BindingsOk(nodes, types) && FreshIds(nodes, idMap)
      requires HalfPlanned(todos, nodes[i], types, idMap)
      modifies this
      ensures r.Ok? && IsPlanned(todos, nodes[i], types, idMap)
      ensures todos.Keys == old(todos).Keys
      ensures forall id :: id in old(todos) && id != idMap[nodes[i].id] ==> todos[id] == old(todos)[id]
    {
      var n := nodes[i];
      if n.id in types && |n.varBindings| > 0 {
        SourcesMapped(nodes, types, idMap, i);
        var vars := Rewrite(n.varBindings, idMap);
        var row := todos[idMap[n.id]];
        todos := todos[idMap[n.id] := row.(input := TypedInput(types[n.id].kind, types[n.id].params.value, vars.value))];
      }
      return Ok(());
    }

    /** Pass 2: the typed rows get their rewritten variables. */
    method RewriteAll(nodes: seq<WorkflowNode>, types: Types, idMap: map<string, string>) returns (r: Result<(), PlanError>)
      requires UniqueIds(nodes) && DepsKnown(nodes) && BindingsOk(nodes, types) && FreshIds(nodes, idMap)
      requires forall i :: 0 <= i < |nodes| ==> HalfPlanned(todos, nodes[i], types, idMap)
      modifies this
      ensures r.Ok? && forall i :: 0 <= i < |nodes| ==> IsPlanned(todos, nodes[i], types, idMap)
      ensures OthersKept(old(todos), todos, idMap)
    {
      for i := 0 to |nodes|
        invariant OthersKept(old(todos), todos, idMap)
        invariant forall m :: i <= m < |nodes| ==> HalfPlanned(todos, nodes[m], types, idMap)
        invariant forall m :: 0 <= m < i ==> IsPlanned(todos, nodes[m], types, idMap)
      {
        ghost var before := todos;
        assert HalfPlanned(todos, nodes[i], types, idMap);
        var done := RewriteNode(nodes, types, idMap, i);
        OneRowChanged(old(todos), before, todos, idMap, nodes[i].id);
        forall m | 0 <= m < |nodes| && m != i
          ensures HalfPlanned(before, nodes[m], types, idMap) ==> HalfPlanned(todos, nodes[m], types, idMap)
          ensures IsPlanned(before, nodes[m], types, idMap) ==> IsPlanned(todos, nodes[m], types, idMap)
        {
          RowsCarry(nodes, types, idMap, before, todos, i, m);
        }
      }
      return Ok(());
    }

    /** `PlanCustom`.  `idMap` are the fresh todo ids.  Planning succeeds exactly when
        the three checks do.  An error leaves the todo table untouched; success
        stores every node's final row and reports the nodes without dependencies. */
    method PlanCustom(nodes: seq<WorkflowNode>, types: Types, idMap: map<string, string>)
      returns (r: Result<seq<string>, PlanError>)
      requires FreshIds(nodes, idMap)
      modifies this
      ensures r.Err? ==> todos == old(todos) && !r.error.UnknownLocalNode? && !r.error.DependencyUnmapped?
      ensures r.Ok? <==> GoodGraph(nodes, allowed) && BindingsOk(nodes, types) && InputsOk(nodes, types, prompts)
      ensures r.Ok? ==> r.value != []
      ensures r.Ok? ==> forall i :: 0 <= i < |nodes| ==> IsPlanned(todos, nodes[i], types, idMap)
      ensures r.Ok? ==> IsReadyList(r.value, nodes, idMap)
      ensures OthersKept(old(todos), todos, idMap)
    {
      var valid, order := ValidateCustomGraph(nodes, allowed);
      if valid.Err? {
        return Err(BadGraph(valid.error));
      }
      var checked := CheckBindings(nodes, types);
      if checked.Err? {
        return Err(checked.error);
      }
      var specs := BuildSpecs(nodes, types);
      if specs.Err? {
        return Err(specs.error);
      }
      SpecsFit(nodes, specs.value, types, idMap);
      var created := CreateGraph(specs.value, idMap);
      assert created.Ok?;
      forall i | 0 <= i < |nodes| ensures HalfPlanned(todos, nodes[i], types, idMap) {
        assert SpecOf(specs.value[i], nodes[i], types) && RowOf(todos, specs.value[i], idMap);
      }
      var rewritten := RewriteAll(nodes, types, idMap);
      var ready := ReadyTodos(nodes, idMap);
      SomeNodeIsReady(nodes, allowed, order);
      var i :| 0 <= i < |nodes| && nodes[i].dependsOn == [];
      ReadyNonEmpty(ready, nodes, idMap, i);
      return Ok(ready);
    }

    method ReadyTodos(nodes: seq<WorkflowNode>, idMap: map<string, string>) returns (ready: seq<string>)
      requires FreshIds(nodes, idMap)
      ensures IsReadyList(ready, nodes, idMap)
    {
      ready := [];
      for i := 0 to |nodes|
        invariant IsReadyList(ready, nodes[..i], idMap)
      {
        assert nodes[i].id in IdsOf(nodes);
        assert nodes[..i + 1] == nodes[..i] + [nodes[i]];
        if |nodes[i].dependsOn| == 0 {
          ready := ready + [idMap[nodes[i].id]];
        }
      }
      assert nodes[..|nodes|] == nodes;
    }
  }

  /** The todos of exactly the nodes without dependencies, in node order. */
  predicate IsReadyList(ready: seq<string>, nodes: seq<WorkflowNode>, idMap: map<string, string>) {
    if nodes == [] then ready == []
    else
      var n := nodes[|nodes| - 1];
      if n.dependsOn != [] then IsReadyList(ready, nodes[..|nodes| - 1], idMap)
      else n.id in idMap && ready != [] && ready[|ready| - 1] == idMap[n.id]
           && IsReadyList(ready[..|ready| - 1], nodes[..|nodes| - 1], idMap)
  }

  lemma {:induction false} ReadyNonEmpty(ready: seq<string>, nodes: seq<WorkflowNode>, idMap: map<string, string>, i: nat)
    requires IsReadyList(ready, nodes, idMap) && i < |nodes| && nodes[i].dependsOn == []
    ensures ready != []
    decreases |nodes|
  {
    var last := |nodes| - 1;
    if nodes[last].dependsOn != [] {
      assert nodes[..last][i] == nodes[i];
      ReadyNonEmpty(ready, nodes[..last], idMap, i);
    }
  }

  predicate IsPlanned(todos: map<string, TodoRow>, n: WorkflowNode, types: Types, idMap: map<string, string>) {
    n.id in idMap && idMap[n.id] in todos && Planned(todos[idMap[n.id]], n, types, idMap)
  }

  predicate SpecOf(sp: NodeSpec, n: WorkflowNode, types: Types) {
    && sp.localId == n.id && sp.typ == n.typ && sp.dependsOn == n.dependsOn
    && (n.id in types ==>
          types[n.id].params.Some?
          && sp.input == TypedInput(types[n.id].kind, types[n.id].params.value, LocalVars(n.varBindings)))
    && (n.id !in types ==> sp.input == BuiltinInput)
  }

  predicate AllMapped(specs: seq<NodeSpec>, idMap: map<string, string>) {
    forall i :: 0 <= i < |specs| ==> forall d :: d in specs[i].dependsOn ==> d in idMap
  }

  predicate RowOf(todos: map<string, TodoRow>, sp: NodeSpec, idMap: map<string, string>) {
    && sp.localId in idMap && idMap[sp.localId] in todos
    && (forall d :: d in sp.dependsOn ==> d in idMap)
    && todos[idMap[sp.localId]] == TodoRow(sp.typ, |sp.dependsOn| == 0, MapIds(sp.dependsOn, idMap), sp.input)
  }

  /** The row as pass 1 left it. */
  predicate HalfPlanned(todos: map<string, TodoRow>, n: WorkflowNode, types: Types, idMap: map<string, string>) {
    && n.id in idMap && idMap[n.id] in todos
    && (forall d :: d in n.dependsOn ==> d in idMap)
    && var row := todos[idMap[n.id]];
       && row.typ == n.typ && row.ready == (n.dependsOn == []) && row.dependsOn == MapIds(n.dependsOn, idMap)
       && (n.id in types ==>
             types[n.id].params.Some?
             && row.input == TypedInput(types[n.id].kind, types[n.id].params.value, LocalVars(n.varBindings)))
       && (n.id !in types ==> row.input == BuiltinInput)
  }

  lemma OneRowChanged(first: map<string, TodoRow>, before: map<string, TodoRow>, after: map<string, TodoRow>,
                      idMap: map<string, string>, node: string)
    requires OthersKept(first, before, idMap) && node in idMap && after.Keys == before.Keys
    requires forall id :: id in before && id != idMap[node] ==> after[id] == before[id]
    ensures OthersKept(first, after, idMap)
  {
    assert idMap[node] in idMap.Values;
  }

  /** A change of one node's row leaves the rows of the others. */
  lemma RowsCarry(nodes: seq<WorkflowNode>, types: Types, idMap: map<string, string>,
                  before: map<string, TodoRow>, after: map<string, TodoRow>, i: nat, m: nat)
    requires UniqueIds(nodes) && FreshIds(nodes, idMap) && i < |nodes| && m < |nodes| && m != i && nodes[i].id in idMap
    requires after.Keys == before.Keys && forall id :: id in before && id != idMap[nodes[i].id] ==> after[id] == before[id]
    ensures HalfPlanned(before, nodes[m], types, idMap) ==> HalfPlanned(after, nodes[m], types, idMap)
    ensures IsPlanned(before, nodes[m], types, idMap) ==> IsPlanned(after, nodes[m], types, idMap)
  {
    assert nodes[m].id in IdsOf(nodes) && nodes[m].id != nodes[i].id;
    assert idMap[nodes[m].id] != idMap[nodes[i].id];
  }

  lemma SpecsFit(nodes: seq<WorkflowNode>, specs: seq<NodeSpec>, types: Types, idMap: map<string, string>)
    requires UniqueIds(nodes) && DepsKnown(nodes) && FreshIds(nodes, idMap)
    requires |specs| == |nodes| && forall i :: 0 <= i < |nodes| ==> SpecOf(specs[i], nodes[i], types)
    ensures AllMapped(specs, idMap)
    ensures forall i :: 0 <= i < |specs| ==> specs[i].localId in idMap
    ensures forall i, j :: 0 <= i < j < |specs| ==> idMap[specs[i].localId] != idMap[specs[j].localId]
  {
    forall i | 0 <= i < |specs| ensures specs[i].localId in idMap && forall d :: d in specs[i].dependsOn ==> d in idMap {
      assert SpecOf(specs[i], nodes[i], types);
      assert nodes[i].id in IdsOf(nodes);
    }
    forall i, j | 0 <= i < j < |specs| ensures idMap[specs[i].localId] != idMap[specs[j].localId] {
      assert SpecOf(specs[i], nodes[i], types) && SpecOf(specs[j], nodes[j], types);
    }
  }

  /** After the checks, the source of every binding has a todo: pass 2 cannot fail. */
  lemma SourcesMapped(nodes: seq<WorkflowNode>, types: Types, idMap: map<string, string>, i: nat)
    requires DepsKnown(nodes) && BindingsOk(nodes, types) && FreshIds(nodes, idMap) && i < |nodes| && nodes[i].id in types
    ensures forall b :: b in nodes[i].varBindings ==> b.sourceNodeId == "" || b.sourceNodeId in idMap
  {
    forall b | b in nodes[i].varBindings ensures b.sourceNodeId == "" || b.sourceNodeId in idMap {
      assert BindingOk(nodes[i], b);
    }
  }

  /** A stored todo waits for the todos of its node's dependencies, in their order. */
  lemma DependenciesKept(row: TodoRow, n: WorkflowNode, types: Types, idMap: map<string, string>, k: nat)
    requires Planned(row, n, types, idMap) && k < |n.dependsOn|
    ensures |row.dependsOn| == |n.dependsOn| && n.dependsOn[k] in idMap && row.dependsOn[k] == idMap[n.dependsOn[k]]
    ensures !row.ready
  {
    assert n.dependsOn[k] in n.dependsOn;
  }

  /** What the rewrite preserves, once a plan is stored: a typed node reads each
      variable from the todo of the node the author bound it to, and that todo is
      one the reader's own todo waits for, and not the reader itself. */
  lemma BindingsKeepMeaning(nodes: seq<WorkflowNode>, allowed: set<string>, types: Types, idMap: map<string, string>,
                            row: TodoRow, i: nat, k: nat)
    requires GoodGraph(nodes, allowed) && BindingsOk(nodes, types) && FreshIds(nodes, idMap)
    requires i < |nodes| && nodes[i].id in types && k < |nodes[i].varBindings| && Planned(row, nodes[i], types, idMap)
    ensures row.input.TypedInput? && |row.input.variables| == |nodes[i].varBindings|
    ensures var b, v := nodes[i].varBindings[k], row.input.variables[k];
            && KeepsNames(v, b) && v.sourceNodeId == None
            && (b.sourceNodeId == "" ==> v.sourceTodoId == None)
            && (b.sourceNodeId != "" ==>
                  && b.sourceNodeId in nodes[i].dependsOn && b.sourceNodeId in idMap && nodes[i].id in idMap
                  && v.sourceTodoId == Some(idMap[b.sourceNodeId])
                  && idMap[b.sourceNodeId] in row.dependsOn
                  && idMap[b.sourceNodeId] != idMap[nodes[i].id])
  {
    var n := nodes[i];
    var b := n.varBindings[k];
    assert Rewritten(row.input.variables[k], b, idMap) && BindingOk(n, b);
    assert n.id in IdsOf(nodes);
    if b.sourceNodeId != "" {
      NoSelfDependency(nodes, allowed, i);
      var m :| 0 <= m < |n.dependsOn| && n.dependsOn[m] == b.sourceNodeId;
      assert row.dependsOn[m] == idMap[b.sourceNodeId];
    }
  }
}
