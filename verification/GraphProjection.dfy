/** The execution graph shown for a plan: `buildGraph` of internal/projectstate. */
module GraphProjection {
  import opened Prelude
  import opened ProjectState
  import opened StableSort

  // ---------------------------------------------------------------------
  // The order by (createdAt, id)
  // ---------------------------------------------------------------------

  predicate Before(a: Todo, b: Todo) {
    if a.row.createdAt != b.row.createdAt then a.row.createdAt < b.row.createdAt else Less(a.id, b.id)
  }

  lemma BeforeOrders()
    ensures Orders(Before)
    ensures forall a, b :: !Before(a, b) && !Before(b, a) ==> a.id == b.id
  {
    forall a, b ensures !(Before(a, b) && Before(b, a)) && (!Before(a, b) && !Before(b, a) ==> a.id == b.id) {
      LessTotal(a.id, b.id);
    }
    forall a, b, c | !Before(b, a) && !Before(c, b) ensures !Before(c, a) {
      LessTotal(a.id, b.id);
      LessTotal(b.id, c.id);
      LessTotal(a.id, c.id);
      if a.row.createdAt == b.row.createdAt == c.row.createdAt && Less(c.id, a.id) {
        if Less(a.id, b.id) { LessTransitive(c.id, a.id, b.id); }
        if Less(b.id, c.id) { LessTransitive(b.id, c.id, a.id); }
      }
    }
  }

  ghost predicate SameElements(s: seq<Todo>, t: seq<Todo>) {
    forall x :: x in s <==> x in t
  }

  lemma SameHead(s: seq<Todo>, t: seq<Todo>)
    requires Ascending(s, Before) && Ascending(t, Before) && DistinctTodos(t) && SameElements(s, t) && s != [] && t != []
    ensures s[0] == t[0]
  {
    BeforeOrders();
    assert s[0] in s && t[0] in t;
    var k :| 0 <= k < |t| && t[k] == s[0];
    var j :| 0 <= j < |s| && s[j] == t[0];
    assert k > 0 ==> !Before(t[k], t[0]);
    assert j > 0 ==> !Before(s[j], s[0]);
    LessTotal(s[0].id, s[0].id);
  }

  lemma TailElements(s: seq<Todo>, t: seq<Todo>, x: Todo)
    requires DistinctTodos(t) && SameElements(s, t) && s != [] && t != [] && s[0] == t[0] && x in s[1..] && DistinctTodos(s)
    ensures x in t[1..]
  {
    var i :| 0 <= i < |s| - 1 && s[1..][i] == x;
    assert s[i + 1] == x && x.id != s[0].id && x in s;
    var k :| 0 <= k < |t| && t[k] == x;
    assert t[1..][k - 1] == x;
  }

  lemma TailInOrder(s: seq<Todo>)
    requires Ascending(s, Before) && DistinctTodos(s) && s != []
    ensures Ascending(s[1..], Before) && DistinctTodos(s[1..])
  {
    assert forall i :: 0 <= i < |s| - 1 ==> s[1..][i] == s[i + 1];
  }

  /** There is one way to put todos with distinct ids in order. */
  lemma {:induction false} AscendingUnique(s: seq<Todo>, t: seq<Todo>)
    requires Ascending(s, Before) && Ascending(t, Before) && DistinctTodos(s) && DistinctTodos(t) && SameElements(s, t)
    ensures s == t
  {
    assert t != [] ==> t[0] in t;
    if s != [] {
      assert s[0] in t;
      SameHead(s, t);
      forall x ensures x in s[1..] <==> x in t[1..] {
        if x in s[1..] { TailElements(s, t, x); }
        if x in t[1..] { TailElements(t, s, x); }
      }
      TailInOrder(s);
      TailInOrder(t);
      AscendingUnique(s[1..], t[1..]);
      assert s == [s[0]] + s[1..] && t == [t[0]] + t[1..];
    }
  }

  lemma {:induction false} InsertDistinct(s: seq<Todo>, x: Todo)
    requires DistinctTodos(s) && forall y :: y in s ==> y.id != x.id
    ensures DistinctTodos(Insert(s, x, Before))
  {
    if s != [] && Before(x, s[|s| - 1]) {
      var front := s[..|s| - 1];
      assert forall y :: y in front ==> y in s;
      InsertDistinct(front, x);
      InsertElements(front, x, Before);
      var t := Insert(front, x, Before);
      forall i | 0 <= i < |t| ensures t[i].id != s[|s| - 1].id {
        assert t[i] in t;
        if t[i] != x { var k :| 0 <= k < |front| && front[k] == t[i]; } else { assert s[|s| - 1] in s; }
      }
    } else {
      assert forall i :: 0 <= i < |s| ==> s[i] in s;
    }
  }

  lemma {:induction false} SortedDistinct(s: seq<Todo>)
    requires DistinctTodos(s)
    ensures DistinctTodos(Sorted(s, Before))
  {
    if s != [] {
      var n := |s| - 1;
      SortedDistinct(s[..n]);
      SortedElements(s[..n], Before);
      forall y | y in Sorted(s[..n], Before) ensures y.id != s[n].id {
        assert y in s[..n];
      }
      InsertDistinct(Sorted(s[..n], Before), s[n]);
    }
  }

  lemma SortedFacts(s: seq<Todo>)
    ensures |Sorted(s, Before)| == |s| && SameElements(Sorted(s, Before), s) && Ascending(Sorted(s, Before), Before)
    ensures DistinctTodos(s) ==> DistinctTodos(Sorted(s, Before))
  {
    BeforeOrders();
    SortedElements(s, Before);
    SortedAscends(s, Before);
    if DistinctTodos(s) { SortedDistinct(s); }
  }

  // ---------------------------------------------------------------------
  // Nodes and edges
  // ---------------------------------------------------------------------

  datatype Output = Output(content: string, format: string)
  datatype Node = Node(id: string, text: string, kind: string, status: string, asset: string, output: Option<Output>)
  datatype Edge = Edge(from: string, to: string)
  datatype Joined = Joined(asset: map<string, string>, output: map<string, Output>)

  const LABEL_BASE := map["script" := "剧本生成", "storyboard" := "分镜拆解", "asset" := "素材生成", "planner" := "规划", "review" := "人工审核"]

  function Label(kind: string, n: nat): string {
    (if kind in LABEL_BASE then LABEL_BASE[kind] else kind) + " #" + Decimal(n)
  }

  /** The node of a todo: its id, type and status, a text that names the type and
      counts within it, the asset and the output made for it. */
  ghost predicate NodeShows(x: Node, t: Todo, n: nat, joined: Joined) {
    && x.id == t.id && x.kind == t.row.kind && StageOf(x.status, t.row.status)
    && (exists base :: TypeName(base, t.row.kind) && x.text == base + " #" + Decimal(n))
    && (t.id in joined.asset ==> x.asset == joined.asset[t.id]) && (t.id !in joined.asset ==> x.asset == "")
    && (t.id in joined.output ==> x.output == Some(joined.output[t.id])) && (t.id !in joined.output ==> x.output == None)
  }

  predicate TypeName(base: string, kind: string) {
    if kind == "script" then base == "剧本生成"
    else if kind == "storyboard" then base == "分镜拆解"
    else if kind == "asset" then base == "素材生成"
    else if kind == "planner" then base == "规划"
    else if kind == "review" then base == "人工审核"
    else base == kind
  }

  lemma NodeOfShows(t: Todo, n: nat, joined: Joined)
    ensures NodeShows(NodeOf(t, n, joined), t, n, joined)
  {
    var base := if t.row.kind in LABEL_BASE then LABEL_BASE[t.row.kind] else t.row.kind;
    assert TypeName(base, t.row.kind);
  }

  /** Two nodes of a type never carry the same text. */
  lemma LabelsDiffer(s: seq<Todo>, joined: Joined, nodes: seq<Node>, j: nat, k: nat)
    requires NodesOf(nodes, s, joined) && j < k < |s| && s[j].row.kind == s[k].row.kind
    ensures nodes[j].text != nodes[k].text
  {
    NumbersIncrease(s, j, k);
    var kind := s[j].row.kind;
    var base := if kind in LABEL_BASE then LABEL_BASE[kind] else kind;
    var a, b := Decimal(Number(s, j)), Decimal(Number(s, k));
    assert a != b;
    assert (base + " #" + a)[|base| + 2..] == a && (base + " #" + b)[|base| + 2..] == b;
  }

  function CountKind(s: seq<Todo>, kind: string): nat {
    if s == [] then 0 else CountKind(s[..|s| - 1], kind) + if s[|s| - 1].row.kind == kind then 1 else 0
  }

  function NodeOf(t: Todo, n: nat, joined: Joined): Node {
    Node(t.id, Label(t.row.kind, n), t.row.kind, StageStatus(t.row.status),
         if t.id in joined.asset then joined.asset[t.id] else "",
         if t.id in joined.output then Some(joined.output[t.id]) else None)
  }

  /** The number in the label of the k-th todo. */
  function Number(s: seq<Todo>, k: nat): nat
    requires k < |s|
  {
    CountKind(s[..k + 1], s[k].row.kind)
  }

  /** The node of the k-th todo in order: numbered among the todos of its type up to it. */
  ghost predicate NodesOf(nodes: seq<Node>, ordered: seq<Todo>, joined: Joined) {
    && |nodes| == |ordered|
    && forall k :: 0 <= k < |ordered| ==> nodes[k] == NodeOf(ordered[k], Number(ordered, k), joined)
  }

  function IdSet(s: seq<Todo>): set<string> { set t | t in s :: t.id }

  function EdgesOf(t: Todo, deps: seq<string>, ids: set<string>): seq<Edge> {
    if deps == [] then []
    else EdgesOf(t, deps[..|deps| - 1], ids) + if deps[|deps| - 1] in ids then [Edge(t.id, deps[|deps| - 1])] else []
  }

  function Edges(s: seq<Todo>, ids: set<string>): seq<Edge> {
    if s == [] then [] else Edges(s[..|s| - 1], ids) + EdgesOf(s[|s| - 1], s[|s| - 1].row.dependsOn, ids)
  }

  /** A number depends on the earlier todos only. */
  lemma NumbersStay(s: seq<Todo>, n: nat)
    requires n <= |s|
    ensures forall k :: 0 <= k < n ==> Number(s[..n], k) == Number(s, k)
  {
    forall k | 0 <= k < n ensures Number(s[..n], k) == Number(s, k) {
      assert s[..n][..k + 1] == s[..k + 1];
    }
  }

  lemma CountKindAppend(s: seq<Todo>, t: Todo)
    ensures forall kind :: CountKind(s + [t], kind) == CountKind(s, kind) + if t.row.kind == kind then 1 else 0
  {
    assert (s + [t])[..|s|] == s;
  }

  lemma NodesAppend(nodes: seq<Node>, s: seq<Todo>, joined: Joined, t: Todo, n: nat)
    requires NodesOf(nodes, s, joined) && n == CountKind(s + [t], t.row.kind)
    ensures NodesOf(nodes + [NodeOf(t, n, joined)], s + [t], joined)
  {
    var all := s + [t];
    assert all[..|s|] == s;
    NumbersStay(all, |s|);
    forall k | 0 <= k < |all| ensures (nodes + [NodeOf(t, n, joined)])[k] == NodeOf(all[k], Number(all, k), joined) {
      if k < |s| {
        assert all[k] == s[k] && Number(all, k) == Number(s, k);
      } else {
        assert all[..k + 1] == all;
      }
    }
  }

  method BuildNodes(sorted: seq<Todo>, joined: Joined) returns (nodes: seq<Node>)
    ensures NodesOf(nodes, sorted, joined)
  {
    nodes := [];
    var typeSeq: map<string, nat> := map[];
    for i := 0 to |sorted|
      invariant NodesOf(nodes, sorted[..i], joined)
      invariant forall kind :: (if kind in typeSeq then typeSeq[kind] else 0) == CountKind(sorted[..i], kind)
    {
      var t := sorted[i];
      assert sorted[..i + 1] == sorted[..i] + [t];
      CountKindAppend(sorted[..i], t);
      typeSeq := typeSeq[t.row.kind := (if t.row.kind in typeSeq then typeSeq[t.row.kind] else 0) + 1];
      NodesAppend(nodes, sorted[..i], joined, t, typeSeq[t.row.kind]);
      nodes := nodes + [NodeOf(t, typeSeq[t.row.kind], joined)];
    }
    assert sorted[..|sorted|] == sorted;
  }

  method BuildEdges(sorted: seq<Todo>, ids: set<string>) returns (edges: seq<Edge>)
    ensures edges == Edges(sorted, ids)
  {
    edges := [];
    for i := 0 to |sorted|
      invariant edges == Edges(sorted[..i], ids)
    {
      assert sorted[..i + 1][..i] == sorted[..i];
      var deps := sorted[i].row.dependsOn;
      ghost var before := edges;
      for j := 0 to |deps|
        invariant edges == before + EdgesOf(sorted[i], deps[..j], ids)
      {
        assert deps[..j + 1][..j] == deps[..j];
        if deps[j] in ids {
          edges := edges + [Edge(sorted[i].id, deps[j])];
        }
      }
      assert deps[..|deps|] == deps;
    }
    assert sorted[..|sorted|] == sorted;
  }

  method CollectIds(sorted: seq<Todo>) returns (ids: set<string>)
    ensures ids == IdSet(sorted)
  {
    ids := {};
    for i := 0 to |sorted|
      invariant ids == IdSet(sorted[..i])
    {
      assert sorted[..i + 1] == sorted[..i] + [sorted[i]];
      ids := ids + {sorted[i].id};
    }
    assert sorted[..|sorted|] == sorted;
  }

  lemma SameIds(todos: seq<Todo>)
    ensures IdSet(Sorted(todos, Before)) == IdSet(todos)
  {
    SortedElements(todos, Before);
  }

  method BuildGraph(todos: seq<Todo>, joined: Joined) returns (nodes: seq<Node>, edges: seq<Edge>)
    ensures NodesOf(nodes, Sorted(todos, Before), joined)
    ensures edges == Edges(Sorted(todos, Before), IdSet(todos))
    ensures var s := Sorted(todos, Before); |nodes| == |s| && forall k :: 0 <= k < |s| ==> NodeShows(nodes[k], s[k], Number(s, k), joined)
  {
    var sorted := Sorted(todos, Before);
    var ids := CollectIds(sorted);
    SameIds(todos);
    nodes := BuildNodes(sorted, joined);
    forall k | 0 <= k < |sorted| ensures NodeShows(nodes[k], sorted[k], Number(sorted, k), joined) {
      NodeOfShows(sorted[k], Number(sorted, k), joined);
    }
    edges := BuildEdges(sorted, ids);
  }

  // ---------------------------------------------------------------------
  // Stability
  // ---------------------------------------------------------------------

  /** The graph depends on the set of todos only, not on the order the query
      returned them in. */
  lemma OrderIrrelevant(a: seq<Todo>, b: seq<Todo>, joined: Joined, nodesA: seq<Node>, nodesB: seq<Node>)
    requires DistinctTodos(a) && DistinctTodos(b) && SameElements(a, b)
    requires NodesOf(nodesA, Sorted(a, Before), joined) && NodesOf(nodesB, Sorted(b, Before), joined)
    ensures nodesA == nodesB
    ensures Edges(Sorted(a, Before), IdSet(a)) == Edges(Sorted(b, Before), IdSet(b))
  {
    SortedFacts(a);
    SortedFacts(b);
    AscendingUnique(Sorted(a, Before), Sorted(b, Before));
    assert IdSet(a) == IdSet(b);
  }

  ghost predicate HasDependency(s: seq<Todo>, from: string, to: string) {
    exists k :: 0 <= k < |s| && s[k].id == from && to in s[k].row.dependsOn
  }

  lemma {:induction false} EdgesOfIs(t: Todo, deps: seq<string>, ids: set<string>, e: Edge)
    ensures e in EdgesOf(t, deps, ids) <==> e.from == t.id && e.to in deps && e.to in ids
  {
    if deps != [] {
      EdgesOfIs(t, deps[..|deps| - 1], ids, e);
      assert deps == deps[..|deps| - 1] + [deps[|deps| - 1]];
    }
  }

  lemma {:induction false} EdgesIs(s: seq<Todo>, ids: set<string>, e: Edge)
    ensures e in Edges(s, ids) <==> HasDependency(s, e.from, e.to) && e.to in ids
  {
    if s != [] {
      var n := |s| - 1;
      EdgesIs(s[..n], ids, e);
      EdgesOfIs(s[n], s[n].row.dependsOn, ids, e);
      assert forall k :: 0 <= k < n ==> s[..n][k] == s[k];
    }
  }

  /** The edges are exactly the dependencies between todos of the list: none
      dangles and none is missing. */
  lemma EdgesAreDependencies(todos: seq<Todo>, from: string, to: string)
    ensures Edge(from, to) in Edges(Sorted(todos, Before), IdSet(todos)) <==>
            HasDependency(todos, from, to) && exists k :: 0 <= k < |todos| && todos[k].id == to
  {
    var sorted := Sorted(todos, Before);
    EdgesIs(sorted, IdSet(todos), Edge(from, to));
    SortedFacts(todos);
    if HasDependency(sorted, from, to) {
      var k :| 0 <= k < |sorted| && sorted[k].id == from && to in sorted[k].row.dependsOn;
      assert sorted[k] in todos;
    }
    if HasDependency(todos, from, to) {
      var k :| 0 <= k < |todos| && todos[k].id == from && to in todos[k].row.dependsOn;
      assert todos[k] in sorted;
    }
    assert to in IdSet(todos) <==> exists k :: 0 <= k < |todos| && todos[k].id == to;
  }

  /** Every number from 1 to the count of a type occurs in it. */
  lemma {:induction false} NumbersHaveNoHoles(s: seq<Todo>, kind: string, n: nat)
    requires 1 <= n <= CountKind(s, kind)
    ensures exists k :: 0 <= k < |s| && s[k].row.kind == kind && Number(s, k) == n
  {
    var last := |s| - 1;
    if n <= CountKind(s[..last], kind) {
      NumbersHaveNoHoles(s[..last], kind, n);
      var k :| 0 <= k < last && s[..last][k].row.kind == kind && Number(s[..last], k) == n;
      NumbersStay(s, last);
    } else {
      assert s[..last + 1] == s;
      assert Number(s, last) == n;
    }
  }

  /** A number counts its own todo and all earlier ones of the type. */
  lemma NumberCounts(s: seq<Todo>, k: nat)
    requires k < |s|
    ensures Number(s, k) == CountKind(s[..k], s[k].row.kind) + 1
  {
    assert s[..k + 1][..k] == s[..k];
  }

  /** Within a type the numbers increase along the order, so none repeats. */
  lemma NumbersIncrease(s: seq<Todo>, j: nat, k: nat)
    requires j < k < |s| && s[j].row.kind == s[k].row.kind
    ensures 1 <= Number(s, j) < Number(s, k)
  {
    NumberCounts(s, j);
    NumberCounts(s, k);
    CountKindGrows(s, s[k].row.kind, j + 1, k);
  }

  lemma {:induction false} CountKindGrows(s: seq<Todo>, kind: string, j: nat, k: nat)
    requires j <= k <= |s|
    ensures CountKind(s[..j], kind) <= CountKind(s[..k], kind)
    decreases k
  {
    if j < k {
      assert s[..k][..k - 1] == s[..k - 1];
      CountKindGrows(s, kind, j, k - 1);
    }
  }

  /** Every todo of `p` was created before every one of `q`. */
  ghost predicate Precede(p: seq<Todo>, q: seq<Todo>) {
    forall i, j :: 0 <= i < |p| && 0 <= j < |q| ==> p[i].row.createdAt < q[j].row.createdAt
  }

  lemma PrecedeSorted(p: seq<Todo>, q: seq<Todo>)
    requires Precede(p, q)
    ensures Precede(Sorted(p, Before), Sorted(q, Before))
  {
    SortedFacts(p);
    SortedFacts(q);
    var s, t := Sorted(p, Before), Sorted(q, Before);
    forall i, j | 0 <= i < |s| && 0 <= j < |t| ensures s[i].row.createdAt < t[j].row.createdAt {
      assert s[i] in s && t[j] in t;
      var a :| 0 <= a < |p| && p[a] == s[i];
      var b :| 0 <= b < |q| && q[b] == t[j];
    }
  }

  lemma ConcatAscends(p: seq<Todo>, q: seq<Todo>)
    requires Precede(p, q) && Ascending(p, Before) && Ascending(q, Before)
    ensures Ascending(p + q, Before)
  {
  }

  lemma ConcatDistinct(p: seq<Todo>, q: seq<Todo>, all: seq<Todo>)
    requires Precede(p, q) && DistinctTodos(p) && DistinctTodos(q) && DistinctTodos(all)
    requires forall x :: x in p || x in q ==> x in all
    ensures DistinctTodos(p + q)
  {
    forall i, j | 0 <= i < |p| && 0 <= j < |q| ensures p[i].id != q[j].id {
      assert p[i] in p && q[j] in q;
      var a :| 0 <= a < |all| && all[a] == p[i];
      var b :| 0 <= b < |all| && all[b] == q[j];
      assert a != b;
    }
  }

  /** Todos created later sort behind all earlier ones. */
  lemma LaterSortBehind(old_: seq<Todo>, all: seq<Todo>, later: seq<Todo>)
    requires DistinctTodos(all) && DistinctTodos(old_) && DistinctTodos(later) && Precede(old_, later)
    requires forall x :: x in all <==> x in old_ || x in later
    ensures Sorted(all, Before) == Sorted(old_, Before) + Sorted(later, Before)
  {
    SortedFacts(all);
    SortedFacts(old_);
    SortedFacts(later);
    PrecedeSorted(old_, later);
    var p, q := Sorted(old_, Before), Sorted(later, Before);
    ConcatAscends(p, q);
    ConcatDistinct(p, q, all);
    assert SameElements(Sorted(all, Before), p + q);
    AscendingUnique(Sorted(all, Before), p + q);
  }

  /** What a worker's updates leave of a todo: its id, type and creation time. */
  function Shape(t: Todo): Todo { Todo(t.id, TodoRow("", "", t.row.kind, "", "", [], t.row.createdAt)) }

  function Shapes(s: seq<Todo>): (r: seq<Todo>)
    ensures |r| == |s| && forall k :: 0 <= k < |s| ==> r[k] == Shape(s[k])
  {
    seq(|s|, k requires 0 <= k < |s| => Shape(s[k]))
  }

  lemma {:induction false} InsertShapes(s: seq<Todo>, x: Todo)
    ensures Shapes(Insert(s, x, Before)) == Insert(Shapes(s), Shape(x), Before)
  {
    if s != [] {
      var n := |s| - 1;
      assert Shapes(s)[..n] == Shapes(s[..n]);
      assert Before(x, s[n]) == Before(Shape(x), Shapes(s)[n]);
      if Before(x, s[n]) { InsertShapes(s[..n], x); }
    }
  }

  /** The order looks at nothing else. */
  lemma {:induction false} SortedShapes(s: seq<Todo>)
    ensures Shapes(Sorted(s, Before)) == Sorted(Shapes(s), Before)
  {
    if s != [] {
      var n := |s| - 1;
      SortedShapes(s[..n]);
      InsertShapes(Sorted(s[..n], Before), s[n]);
      assert Shapes(s)[..n] == Shapes(s[..n]);
    }
  }

  lemma {:induction false} CountKindShapes(s: seq<Todo>, kind: string)
    ensures CountKind(Shapes(s), kind) == CountKind(s, kind)
  {
    if s != [] {
      assert Shapes(s)[..|s| - 1] == Shapes(s[..|s| - 1]);
      CountKindShapes(s[..|s| - 1], kind);
    }
  }

  lemma NumberShapes(s: seq<Todo>, k: nat)
    requires k < |s|
    ensures Number(Shapes(s), k) == Number(s, k)
  {
    assert Shapes(s)[..k + 1] == Shapes(s[..k + 1]);
    CountKindShapes(s[..k + 1], s[k].row.kind);
  }

  /** Two readings of the same todos come in the same order. */
  lemma SameShapesSameOrder(was: seq<Todo>, now: seq<Todo>)
    requires DistinctTodos(was) && DistinctTodos(now) && SameElements(Shapes(was), Shapes(now))
    ensures Shapes(Sorted(was, Before)) == Shapes(Sorted(now, Before))
  {
    SortedShapes(was);
    SortedShapes(now);
    SortedFacts(Shapes(was));
    SortedFacts(Shapes(now));
    AscendingUnique(Sorted(Shapes(was), Before), Sorted(Shapes(now), Before));
  }

  /** Between two readings workers may change status, error and outputs of the
      earlier todos in any way, and later todos may appear anywhere in the query's
      result: every earlier node keeps its place, id, type and label. */
  lemma EarlierNodesStay(was: seq<Todo>, now: seq<Todo>, later: seq<Todo>, all: seq<Todo>,
                         joinedWas: Joined, joinedNow: Joined, before: seq<Node>, after: seq<Node>)
    requires DistinctTodos(was) && DistinctTodos(now) && DistinctTodos(later) && DistinctTodos(all) && Precede(now, later)
    requires SameElements(Shapes(was), Shapes(now)) && forall x :: x in all <==> x in now || x in later
    requires NodesOf(before, Sorted(was, Before), joinedWas) && NodesOf(after, Sorted(all, Before), joinedNow)
    ensures |before| <= |after|
    ensures forall k :: 0 <= k < |before| ==>
              after[k].id == before[k].id && after[k].kind == before[k].kind && after[k].text == before[k].text
  {
    LaterSortBehind(now, all, later);
    SameShapesSameOrder(was, now);
    var p, q, s := Sorted(was, Before), Sorted(now, Before), Sorted(all, Before);
    assert |Shapes(p)| == |Shapes(q)| && s[..|q|] == q;
    NumbersStay(s, |q|);
    forall k | 0 <= k < |before|
      ensures after[k].id == before[k].id && after[k].kind == before[k].kind && after[k].text == before[k].text
    {
      assert Shapes(p)[k] == Shapes(q)[k] && s[k] == q[k];
      NumberShapes(p, k);
      NumberShapes(q, k);
    }
  }
}
