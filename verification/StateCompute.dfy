/** The render state that `projectstate.Compute` derives from the loaded lists,
    and why its status agrees with `RefreshStatus`. */
module StateCompute {
  import opened Prelude
  import opened Assets
  import opened ProjectState
  import Lineage

  function CountTodos(todos: seq<Todo>, keep: TodoRow -> bool): nat {
    if todos == [] then 0 else CountTodos(todos[..|todos| - 1], keep) + if keep(todos[|todos| - 1].row) then 1 else 0
  }

  function CountAssets(assets: seq<AssetView>, keep: AssetView -> bool): nat {
    if assets == [] then 0 else CountAssets(assets[..|assets| - 1], keep) + if keep(assets[|assets| - 1]) then 1 else 0
  }

  function IsPending(): AssetView -> bool { (a: AssetView) => a.status.Pending? }

  function IsTodoless(): AssetView -> bool { (a: AssetView) => a.todo == "" && Unsettled(a.status) }

  function ListCounts(todos: seq<Todo>, assets: seq<AssetView>): Counts {
    Counts(|todos|,
           CountTodos(todos, WithStatus("ready")), CountTodos(todos, WithStatus("running")),
           CountTodos(todos, WithStatus("blocked")), CountTodos(todos, WithStatus("done")),
           CountTodos(todos, WithStatus("failed")), CountTodos(todos, WithStatus("canceled")),
           CountAssets(assets, IsPending()), CountAssets(assets, IsTodoless()))
  }

  method TallyTodos(todos: seq<Todo>) returns (c: Counts)
    ensures c == ListCounts(todos, [])
  {
    c := Counts(0, 0, 0, 0, 0, 0, 0, 0, 0);
    for i := 0 to |todos|
      invariant c == ListCounts(todos[..i], [])
    {
      assert todos[..i + 1][..i] == todos[..i];
      c := c.(total := c.total + 1);
      match todos[i].row.status {
        case "ready" => c := c.(ready := c.ready + 1);
        case "running" => c := c.(running := c.running + 1);
        case "blocked" => c := c.(blocked := c.blocked + 1);
        case "done" => c := c.(done := c.done + 1);
        case "failed" => c := c.(failed := c.failed + 1);
        case "canceled" => c := c.(canceled := c.canceled + 1);
        case _ =>
      }
    }
    assert todos[..|todos|] == todos;
  }

  method TallyAssets(todos: seq<Todo>, assets: seq<AssetView>) returns (c: Counts)
    ensures c == ListCounts(todos, assets)
  {
    c := TallyTodos(todos);
    for i := 0 to |assets|
      invariant c == ListCounts(todos, assets[..i])
    {
      assert assets[..i + 1][..i] == assets[..i];
      if assets[i].status.Pending? {
        c := c.(pendingAssets := c.pendingAssets + 1);
      }
      if assets[i].todo == "" && (assets[i].status.Generating? || assets[i].status.Submitted? || assets[i].status.Pending?) {
        c := c.(inFlightRegen := c.inFlightRegen + 1);
      }
    }
    assert assets[..|assets|] == assets;
  }

  // ---------------------------------------------------------------------
  // Pips, stages, the failure strip
  // ---------------------------------------------------------------------

  function PipStatus(todoStatus: string): string {
    match todoStatus
    case "running" => "running"
    case "done" => "done"
    case "failed" => "failed"
    case "canceled" => "failed"
    case _ => "idle"
  }

  datatype Pip = Pip(todo: string, status: string, asset: string)

  datatype Stage = Stage(status: string, todo: string)

  datatype View = View(status: string, runStatus: string, pips: seq<Pip>, done: nat, failed: nat, pending: nat,
                       planner: string, script: Stage, storyboard: Stage, asset: string, review: string, failure: Option<Todo>)

  function RunStatus(status: string): string {
    match status
    case "completed" => "done"
    case "review" => "done"
    case "failed" => "done"
    case "canceled" => "done"
    case "planning" => "running"
    case "running" => "running"
    case _ => "idle"
  }

  function ReviewStatus(status: string): string {
    match status
    case "review" => "pending"
    case "completed" => "done"
    case "failed" => "failed"
    case "canceled" => "failed"
    case _ => "blocked"
  }

  function PipOf(t: Todo, assetByTodo: map<string, AssetView>): Pip {
    Pip(t.id, PipStatus(t.row.status), if t.id in assetByTodo then assetByTodo[t.id].id else "")
  }

  function Pips(todos: seq<Todo>, assetByTodo: map<string, AssetView>): seq<Pip> {
    if todos == [] then []
    else
      var last := todos[|todos| - 1];
      Pips(todos[..|todos| - 1], assetByTodo) + if last.row.kind == "asset" then [PipOf(last, assetByTodo)] else []
  }

  /** The pip of a todo: its status, with cancellation shown as failure and waiting
      as idle, and the asset made for it. */
  predicate PipShows(p: Pip, t: Todo, assetByTodo: map<string, AssetView>) {
    && p.todo == t.id
    && (t.id in assetByTodo ==> p.asset == assetByTodo[t.id].id) && (t.id !in assetByTodo ==> p.asset == "")
    && (t.row.status in {"running", "done", "failed"} ==> p.status == t.row.status)
    && (t.row.status == "canceled" ==> p.status == "failed")
    && (t.row.status !in {"running", "done", "failed", "canceled"} ==> p.status == "idle")
  }

  /** One pip per asset todo, in the order of the list. */
  predicate PipsShow(pips: seq<Pip>, todos: seq<Todo>, assetByTodo: map<string, AssetView>) {
    if todos == [] then pips == []
    else
      var last, front := todos[|todos| - 1], todos[..|todos| - 1];
      if last.row.kind != "asset" then PipsShow(pips, front, assetByTodo)
      else pips != [] && PipShows(pips[|pips| - 1], last, assetByTodo) && PipsShow(pips[..|pips| - 1], front, assetByTodo)
  }

  lemma PipOfShows(t: Todo, assetByTodo: map<string, AssetView>)
    ensures PipShows(PipOf(t, assetByTodo), t, assetByTodo)
  {
  }

  lemma {:induction false} PipsShown(todos: seq<Todo>, assetByTodo: map<string, AssetView>)
    ensures PipsShow(Pips(todos, assetByTodo), todos, assetByTodo)
  {
    if todos != [] {
      var front, last := todos[..|todos| - 1], todos[|todos| - 1];
      PipsShown(front, assetByTodo);
      var shown := Pips(front, assetByTodo);
      PipOfShows(last, assetByTodo);
      if last.row.kind == "asset" {
        var all := shown + [PipOf(last, assetByTodo)];
        assert Pips(todos, assetByTodo) == all;
        assert all[..|all| - 1] == shown && all[|all| - 1] == PipOf(last, assetByTodo);
      } else {
        assert Pips(todos, assetByTodo) == shown;
      }
    }
  }

  /** The stage shows the last todo of its type; without one it is blocked. */
  predicate StageShows(s: Stage, todos: seq<Todo>, kind: string) {
    if forall k :: 0 <= k < |todos| ==> todos[k].row.kind != kind then s == Stage("blocked", "")
    else exists k :: 0 <= k < |todos| && LastOfKind(todos, kind, k) && s.todo == todos[k].id && StageOf(s.status, todos[k].row.status)
  }

  /** The run lamp: done means over, however it ended. */
  predicate LampShows(lamp: string, status: string) {
    && (status in {"completed", "review", "failed", "canceled"} ==> lamp == "done")
    && (status in {"planning", "running"} ==> lamp == "running")
    && (status !in {"completed", "review", "failed", "canceled", "planning", "running"} ==> lamp == "idle")
  }

  predicate ReviewShows(stage: string, status: string) {
    && (status == "review" ==> stage == "pending")
    && (status == "completed" ==> stage == "done")
    && (status in {"failed", "canceled"} ==> stage == "failed")
    && (status !in {"review", "completed", "failed", "canceled"} ==> stage == "blocked")
  }

  predicate Lost(status: string) { status == "failed" || status == "canceled" }

  function CountLost(): TodoRow -> bool { (t: TodoRow) => t.kind == "asset" && Lost(t.status) }

  /** The asset todos that are not lost and have an asset. */
  function CountDone(todos: seq<Todo>, assetByTodo: map<string, AssetView>): nat {
    if todos == [] then 0
    else
      var last := todos[|todos| - 1];
      CountDone(todos[..|todos| - 1], assetByTodo)
      + if last.row.kind == "asset" && !Lost(last.row.status) && last.id in assetByTodo then 1 else 0
  }

  /** Lost are exactly the asset todos that failed or were canceled. */
  lemma LostIs(t: TodoRow)
    ensures CountLost()(t) <==> t.kind == "asset" && t.status in {"failed", "canceled"}
  {
  }

  /** The stage of a batch: which mix of pips gives which status. */
  predicate IsStageOf(pips: seq<Pip>, r: string) {
    && (r == "blocked" <==> pips == [])
    && (r == "done" <==> pips != [] && forall k :: 0 <= k < |pips| ==> pips[k].status == "done")
    && (r == "failed" <==> pips != [] && forall k :: 0 <= k < |pips| ==> pips[k].status == "failed")
    && (r == "running" <==> exists k :: 0 <= k < |pips| && pips[k].status == "running")
    && r in {"blocked", "done", "failed", "running", "pending"}
  }

  method AssetStageStatus(pips: seq<Pip>) returns (r: string)
    ensures IsStageOf(pips, r)
  {
    if |pips| == 0 { return "blocked"; }
    var allDone, allFailed, anyRunning := true, true, false;
    for i := 0 to |pips|
      invariant allDone <==> forall k :: 0 <= k < i ==> pips[k].status == "done"
      invariant allFailed <==> forall k :: 0 <= k < i ==> pips[k].status == "failed"
      invariant anyRunning <==> exists k :: 0 <= k < i && pips[k].status == "running"
    {
      if pips[i].status != "done" { allDone := false; }
      if pips[i].status != "failed" { allFailed := false; }
      if pips[i].status == "running" { anyRunning := true; }
    }
    assert pips[0].status == pips[0].status;
    if allDone { return "done"; }
    if allFailed { return "failed"; }
    if anyRunning { return "running"; }
    return "pending";
  }

  predicate NoFailureAfter(todos: seq<Todo>, k: nat) {
    forall j :: k < j < |todos| ==> todos[j].row.status != "failed"
  }

  /** The failure shown is that of the last failed todo of the list. */
  predicate IsLastFailed(todos: seq<Todo>, r: Option<Todo>) {
    match r
    case None => forall k :: 0 <= k < |todos| ==> todos[k].row.status != "failed"
    case Some(t) => t.row.status == "failed" && exists k :: 0 <= k < |todos| && todos[k] == t && NoFailureAfter(todos, k)
  }

  method LastFailed(todos: seq<Todo>) returns (r: Option<Todo>)
    ensures IsLastFailed(todos, r)
  {
    var i := |todos| - 1;
    while i >= 0
      invariant -1 <= i < |todos|
      invariant forall k :: i < k < |todos| ==> todos[k].row.status != "failed"
    {
      if todos[i].row.status == "failed" {
        assert NoFailureAfter(todos, i);
        return Some(todos[i]);
      }
      i := i - 1;
    }
    return None;
  }

  method BuildPips(todos: seq<Todo>, assetByTodo: map<string, AssetView>) returns (pips: seq<Pip>, done: nat, failed: nat)
    ensures pips == Pips(todos, assetByTodo) && PipsShow(pips, todos, assetByTodo)
    ensures failed == CountTodos(todos, CountLost())
    ensures done == CountDone(todos, assetByTodo) && done + failed <= |pips|
    ensures done == 0 <==> forall k :: 0 <= k < |todos| ==>
              todos[k].row.kind == "asset" && !Lost(todos[k].row.status) ==> todos[k].id !in assetByTodo
  {
    pips, done, failed := [], 0, 0;
    for i := 0 to |todos|
      invariant pips == Pips(todos[..i], assetByTodo)
      invariant failed == CountTodos(todos[..i], CountLost())
      invariant done == CountDone(todos[..i], assetByTodo) && done + failed <= |pips|
      invariant done == 0 <==> forall k :: 0 <= k < i ==>
                  todos[k].row.kind == "asset" && !Lost(todos[k].row.status) ==> todos[k].id !in assetByTodo
    {
      assert todos[..i + 1][..i] == todos[..i];
      var t := todos[i];
      if t.row.kind == "asset" {
        if t.row.status == "failed" || t.row.status == "canceled" {
          failed := failed + 1;
        } else if t.id in assetByTodo {
          done := done + 1;
        }
        pips := pips + [PipOf(t, assetByTodo)];
      }
    }
    assert todos[..|todos|] == todos;
    PipsShown(todos, assetByTodo);
  }

  function TodoOf(): AssetView -> string { (a: AssetView) => a.todo }

  const BLOCKED := Stage("blocked", "")

  /** `k` is the last todo of a kind. */
  predicate LastOfKind(todos: seq<Todo>, kind: string, k: nat) {
    k < |todos| && todos[k].row.kind == kind && forall j :: k < j < |todos| ==> todos[j].row.kind != kind
  }

  function LastIndex(todos: seq<Todo>, kind: string): (r: Option<nat>)
    ensures r.Some? ==> LastOfKind(todos, kind, r.value)
    ensures r.None? ==> forall k :: 0 <= k < |todos| ==> todos[k].row.kind != kind
  {
    if todos == [] then None
    else if todos[|todos| - 1].row.kind == kind then Some(|todos| - 1)
    else
      var front := todos[..|todos| - 1];
      assert forall k :: 0 <= k < |front| ==> front[k] == todos[k];
      LastIndex(front, kind)
  }

  /** The stage of a kind shows its last todo, or blocked when there is none. */
  function StageFor(todos: seq<Todo>, kind: string): Stage {
    match LastIndex(todos, kind)
    case None => BLOCKED
    case Some(k) => Stage(StageStatus(todos[k].row.status), todos[k].id)
  }

  lemma StageForShows(todos: seq<Todo>, kind: string)
    ensures StageShows(StageFor(todos, kind), todos, kind)
  {
    var k := LastIndex(todos, kind);
    assert k.Some? ==> LastOfKind(todos, kind, k.value) && StageOf(StageFor(todos, kind).status, todos[k.value].row.status);
  }

  lemma StageForSnoc(todos: seq<Todo>, kind: string, t: Todo)
    ensures StageFor(todos + [t], kind) == if t.row.kind == kind then Stage(StageStatus(t.row.status), t.id) else StageFor(todos, kind)
  {
    var all := todos + [t];
    assert all[..|todos|] == todos && all[|todos|] == t;
  }

  method StagesOf(todos: seq<Todo>) returns (script: Stage, storyboard: Stage)
    ensures script == StageFor(todos, "script") && storyboard == StageFor(todos, "storyboard")
    ensures StageShows(script, todos, "script") && StageShows(storyboard, todos, "storyboard")
  {
    script, storyboard := BLOCKED, BLOCKED;
    for i := 0 to |todos|
      invariant script == StageFor(todos[..i], "script") && storyboard == StageFor(todos[..i], "storyboard")
    {
      var t := todos[i];
      StageForSnoc(todos[..i], "script", t);
      StageForSnoc(todos[..i], "storyboard", t);
      assert todos[..i + 1] == todos[..i] + [t];
      if t.row.kind == "script" {
        script := Stage(StageStatus(t.row.status), t.id);
      } else if t.row.kind == "storyboard" {
        storyboard := Stage(StageStatus(t.row.status), t.id);
      }
    }
    assert todos[..|todos|] == todos;
    StageForShows(todos, "script");
    StageForShows(todos, "storyboard");
  }

  method AssetsByTodo(assets: seq<AssetView>) returns (m: map<string, AssetView>)
    ensures m == ByKey(assets, TodoOf())
  {
    m := map[];
    for i := 0 to |assets|
      invariant m == ByKey(assets[..i], TodoOf())
    {
      assert assets[..i + 1][..i] == assets[..i];
      m := m[assets[i].todo := assets[i]];
    }
    assert assets[..|assets|] == assets;
  }

  /** `Compute`: a project without a plan passes its stored status through. */
  method Compute(hasPlan: bool, projectStatus: string, todos: seq<Todo>, assets: seq<AssetView>) returns (v: View)
    ensures !hasPlan ==> v == View(projectStatus, RunStatus(projectStatus), [], 0, 0, 0, "blocked", BLOCKED, BLOCKED, "blocked", "blocked", None)
    ensures hasPlan ==> v.status == DeriveStatus(ListCounts(todos, assets))
    ensures hasPlan ==> v.pips == Pips(todos, ByKey(assets, TodoOf())) && v.failed == CountTodos(todos, CountLost())
    ensures hasPlan ==> v.pending == CountAssets(assets, IsPending())
    ensures hasPlan ==> v.done == CountDone(todos, ByKey(assets, TodoOf()))
    ensures v.done + v.failed <= |v.pips|
    ensures (forall k :: 0 <= k < |todos| && todos[k].row.kind == "asset" ==> Lost(todos[k].row.status)) ==> v.done == 0
    ensures hasPlan ==> v.planner == (if todos == [] then "running" else "done") && IsStageOf(v.pips, v.asset)
    ensures hasPlan ==> v.script == StageFor(todos, "script") && v.storyboard == StageFor(todos, "storyboard")
    ensures hasPlan ==> PipsShow(v.pips, todos, ByKey(assets, TodoOf()))
    ensures hasPlan ==> StageShows(v.script, todos, "script") && StageShows(v.storyboard, todos, "storyboard")
    ensures LampShows(v.runStatus, v.status) && (hasPlan ==> ReviewShows(v.review, v.status))
    ensures hasPlan ==> v.runStatus == RunStatus(v.status) && v.review == ReviewStatus(v.status) && IsLastFailed(todos, v.failure)
  {
    if !hasPlan {
      return View(projectStatus, RunStatus(projectStatus), [], 0, 0, 0, "blocked", BLOCKED, BLOCKED, "blocked", "blocked", None);
    }
    var c := TallyAssets(todos, assets);
    var status := DeriveStatus(c);
    var assetByTodo := AssetsByTodo(assets);
    var pips, done, failed := BuildPips(todos, assetByTodo);
    var script, storyboard := StagesOf(todos);
    var stage := AssetStageStatus(pips);
    var failure := LastFailed(todos);
    v := View(status, RunStatus(status), pips, done, failed, c.pendingAssets, if c.total > 0 then "done" else "running",
              script, storyboard, stage, ReviewStatus(status), failure);
  }

  // ---------------------------------------------------------------------
  // Agreement with RefreshStatus
  // ---------------------------------------------------------------------

  /** What `LoadState` reads of the plan's todos: each row once, in any order. */
  ghost predicate LoadedTodos(list: seq<Todo>, todos: Todos, plan: string) {
    && DistinctTodos(list)
    && (forall k :: 0 <= k < |list| ==> list[k].id in todos && todos[list[k].id].plan == plan && list[k].row == todos[list[k].id])
    && (forall id :: id in todos && todos[id].plan == plan ==> exists k :: 0 <= k < |list| && list[k].id == id)
  }

  function ViewOf(rows: Rows, a: string): AssetView
    requires a in rows
  {
    AssetView(a, rows[a].todo, rows[a].status)
  }

  /** What it reads of assets: those of the plan and their descendants. */
  ghost predicate LoadedAssets(list: seq<AssetView>, rows: Rows, todos: Todos, plan: string) {
    && (forall k :: 0 <= k < |list| ==>
          list[k].id in PlanAssets(rows, todos, plan) + RegenAssets(rows, todos, plan) && list[k] == ViewOf(rows, list[k].id))
    && (forall a :: a in PlanAssets(rows, todos, plan) + RegenAssets(rows, todos, plan) ==> ViewOf(rows, a) in list)
  }

  function IdsWhere(list: seq<Todo>, keep: TodoRow -> bool): set<string> {
    if list == [] then {} else IdsWhere(list[..|list| - 1], keep) + if keep(list[|list| - 1].row) then {list[|list| - 1].id} else {}
  }

  lemma {:induction false} IdsWhereIs(list: seq<Todo>, keep: TodoRow -> bool, id: string)
    ensures id in IdsWhere(list, keep) <==> exists k :: 0 <= k < |list| && list[k].id == id && keep(list[k].row)
  {
    if list != [] {
      var n := |list| - 1;
      IdsWhereIs(list[..n], keep, id);
      assert forall k :: 0 <= k < n ==> list[..n][k] == list[k];
    }
  }

  lemma {:induction false} CountIsSize(list: seq<Todo>, keep: TodoRow -> bool)
    requires DistinctTodos(list)
    ensures CountTodos(list, keep) == |IdsWhere(list, keep)|
  {
    if list != [] {
      var n := |list| - 1;
      assert forall k :: 0 <= k < n ==> list[..n][k] == list[k];
      CountIsSize(list[..n], keep);
      IdsWhereIs(list[..n], keep, list[n].id);
    }
  }

  /** Counting the loaded list is counting the table. */
  lemma CountMatches(list: seq<Todo>, todos: Todos, plan: string, keep: TodoRow -> bool)
    requires LoadedTodos(list, todos, plan)
    ensures CountTodos(list, keep) == |OfPlan(todos, plan, keep)|
  {
    CountIsSize(list, keep);
    forall id ensures id in IdsWhere(list, keep) <==> id in OfPlan(todos, plan, keep) {
      IdsWhereIs(list, keep, id);
    }
    assert IdsWhere(list, keep) == OfPlan(todos, plan, keep);
  }

  lemma {:induction false} CountAll(list: seq<Todo>)
    ensures CountTodos(list, AnyTodo()) == |list|
  {
    if list != [] { CountAll(list[..|list| - 1]); }
  }

  lemma {:induction false} CountPositive(list: seq<AssetView>, keep: AssetView -> bool)
    ensures CountAssets(list, keep) > 0 <==> exists a :: a in list && keep(a)
  {
    if list != [] {
      CountPositive(list[..|list| - 1], keep);
      assert list == list[..|list| - 1] + [list[|list| - 1]];
    }
  }

  /** The counts reach the branch that looks at assets. */
  predicate TodosSettled(c: Counts) {
    c.total > 0 && c.running == 0 && c.ready == 0 && c.blocked == 0 && c.failed == 0 && c.canceled == 0
  }

  predicate NoPending(ids: set<string>, rows: Rows) { forall a :: a in ids && a in rows ==> !rows[a].status.Pending? }

  /** A descendant that still generates is there, but every such one has a todo. */
  ghost predicate OnlyTodoRegens(rows: Rows, regen: set<string>) {
    && (exists a :: a in regen && a in rows && Unsettled(rows[a].status))
    && (forall a :: a in regen && a in rows && Unsettled(rows[a].status) ==> rows[a].todo != "")
  }

  lemma TodoCountsAgree(list: seq<Todo>, views: seq<AssetView>, rows: Rows, todos: Todos, plan: string)
    requires LoadedTodos(list, todos, plan)
    ensures var c, t := ListCounts(list, views), TableCounts(rows, todos, plan);
            c.(pendingAssets := t.pendingAssets, inFlightRegen := t.inFlightRegen) == t
  {
    CountMatches(list, todos, plan, AnyTodo());
    CountAll(list);
    CountMatches(list, todos, plan, WithStatus("ready"));
    CountMatches(list, todos, plan, WithStatus("running"));
    CountMatches(list, todos, plan, WithStatus("blocked"));
    CountMatches(list, todos, plan, WithStatus("done"));
    CountMatches(list, todos, plan, WithStatus("failed"));
    CountMatches(list, todos, plan, WithStatus("canceled"));
  }

  lemma ViewFacts(views: seq<AssetView>, rows: Rows, todos: Todos, plan: string, v: AssetView)
    requires "" !in todos && LoadedAssets(views, rows, todos, plan) && v in views
    ensures v.id in rows && v == ViewOf(rows, v.id)
    ensures v.id in PlanAssets(rows, todos, plan) || v.id in RegenAssets(rows, todos, plan)
    ensures v.todo == "" ==> v.id in RegenAssets(rows, todos, plan)
  {
    var k :| 0 <= k < |views| && views[k] == v;
  }

  lemma PendingTally(views: seq<AssetView>, rows: Rows, todos: Todos, plan: string)
    requires "" !in todos && LoadedAssets(views, rows, todos, plan)
    ensures CountAssets(views, IsPending()) > 0 <==>
            !NoPending(PlanAssets(rows, todos, plan), rows) || !NoPending(RegenAssets(rows, todos, plan), rows)
  {
    var all := PlanAssets(rows, todos, plan) + RegenAssets(rows, todos, plan);
    CountPositive(views, IsPending());
    if v :| v in views && IsPending()(v) {
      ViewFacts(views, rows, todos, plan, v);
      assert rows[v.id].status.Pending?;
    }
    if a :| a in all && a in rows && rows[a].status.Pending? {
      assert ViewOf(rows, a) in views && IsPending()(ViewOf(rows, a));
    }
  }

  lemma TodolessTally(views: seq<AssetView>, rows: Rows, todos: Todos, plan: string)
    requires "" !in todos && LoadedAssets(views, rows, todos, plan)
    ensures CountAssets(views, IsTodoless()) > 0 <==>
            exists a :: a in RegenAssets(rows, todos, plan) && Unsettled(rows[a].status) && rows[a].todo == ""
  {
    var regen := RegenAssets(rows, todos, plan);
    CountPositive(views, IsTodoless());
    if v :| v in views && IsTodoless()(v) {
      ViewFacts(views, rows, todos, plan, v);
      assert v.id in regen && Unsettled(rows[v.id].status) && rows[v.id].todo == "";
    }
    if a :| a in regen && Unsettled(rows[a].status) && rows[a].todo == "" {
      assert a in PlanAssets(rows, todos, plan) + regen;
      assert ViewOf(rows, a) in views && IsTodoless()(ViewOf(rows, a));
    }
  }

  /** What the two asset tallies of the loaded list say about the tables. */
  lemma AssetCountsMean(views: seq<AssetView>, rows: Rows, todos: Todos, plan: string)
    requires "" !in todos && LoadedAssets(views, rows, todos, plan)
    ensures var ofPlan, regen := PlanAssets(rows, todos, plan), RegenAssets(rows, todos, plan);
            && (CountAssets(views, IsPending()) > 0 <==> !NoPending(ofPlan, rows) || !NoPending(regen, rows))
            && (CountAssets(views, IsTodoless()) > 0 <==> exists a :: a in regen && Unsettled(rows[a].status) && rows[a].todo == "")
  {
    PendingTally(views, rows, todos, plan);
    TodolessTally(views, rows, todos, plan);
  }

  lemma SizePositive<T>(s: set<T>)
    ensures |s| > 0 <==> exists x :: x in s
  {
    if |s| > 0 { assert s != {}; }
  }

  lemma PendingCountMeans(rows: Rows, ids: set<string>)
    ensures |PendingIn(rows, ids)| > 0 <==> !NoPending(ids, rows)
  {
    SizePositive(PendingIn(rows, ids));
    assert forall a :: a in ids && a in rows && rows[a].status.Pending? ==> a in PendingIn(rows, ids);
  }

  lemma UnsettledCountMeans(rows: Rows, ids: set<string>)
    requires ids <= rows.Keys
    ensures |UnsettledIn(rows, ids)| > 0 <==> exists a :: a in ids && Unsettled(rows[a].status)
  {
    SizePositive(UnsettledIn(rows, ids));
    assert forall a :: a in ids && Unsettled(rows[a].status) ==> a in UnsettledIn(rows, ids);
  }

  lemma TableCountsMean(rows: Rows, todos: Todos, plan: string)
    ensures var ofPlan, regen, c := PlanAssets(rows, todos, plan), RegenAssets(rows, todos, plan), TableCounts(rows, todos, plan);
            && (c.pendingAssets > 0 <==> !NoPending(ofPlan, rows))
            && (c.inFlightRegen > 0 <==> exists a :: a in regen && Unsettled(rows[a].status))
  {
    PendingCountMeans(rows, PlanAssets(rows, todos, plan));
    UnsettledCountMeans(rows, RegenAssets(rows, todos, plan));
  }

  /** The two derivations agree exactly when it is not the case that all todos
      are done, nothing waits for review, and the only unfinished descendants are
      ones that carry a todo id. */
  lemma StatusesAgreeExactly(list: seq<Todo>, views: seq<AssetView>, rows: Rows, todos: Todos, plan: string)
    requires "" !in todos && LoadedTodos(list, todos, plan) && LoadedAssets(views, rows, todos, plan)
    ensures DeriveStatus(ListCounts(list, views)) == DeriveStatus(TableCounts(rows, todos, plan)) <==>
            !(TodosSettled(TableCounts(rows, todos, plan))
              && NoPending(PlanAssets(rows, todos, plan), rows) && NoPending(RegenAssets(rows, todos, plan), rows)
              && OnlyTodoRegens(rows, RegenAssets(rows, todos, plan)))
  {
    TodoCountsAgree(list, views, rows, todos, plan);
    AssetCountsMean(views, rows, todos, plan);
    TableCountsMean(rows, todos, plan);
    var regen := RegenAssets(rows, todos, plan);
    if !NoPending(regen, rows) {
      var a :| a in regen && a in rows && rows[a].status.Pending?;
      assert Unsettled(rows[a].status);
    }
    var c, t := ListCounts(list, views), TableCounts(rows, todos, plan);
    assert c.inFlightRegen > 0 ==> t.inFlightRegen > 0;
  }

  lemma DescendantHasParent(rows: Rows, roots: set<string>, a: string)
    requires roots <= rows.Keys && Descends(rows, roots, a)
    ensures a in rows && rows[a].parent in rows
  {
    var n: nat :| ReachedIn(rows, roots, a, n);
    assert rows[a].parent in roots || ReachedIn(rows, roots, rows[a].parent, n - 1);
  }

  /** Over every run of the assets table the two agree: a descendant has no todo. */
  lemma StatusesAgree(list: seq<Todo>, views: seq<AssetView>, steps: seq<Lineage.Step>, todos: Todos, plan: string)
    requires var rows := Lineage.Run(Lineage.EMPTY, steps).rows;
             "" !in todos && LoadedTodos(list, todos, plan) && LoadedAssets(views, rows, todos, plan)
    ensures var rows := Lineage.Run(Lineage.EMPTY, steps).rows;
            DeriveStatus(ListCounts(list, views)) == DeriveStatus(TableCounts(rows, todos, plan))
  {
    var s := Lineage.Run(Lineage.EMPTY, steps);
    Lineage.SoundRun(Lineage.EMPTY, steps);
    var rows := s.rows;
    StatusesAgreeExactly(list, views, rows, todos, plan);
    forall a | a in RegenAssets(rows, todos, plan) ensures rows[a].todo == "" {
      DescendantHasParent(rows, PlanAssets(rows, todos, plan), a);
      assert Lineage.Linked(rows, a);
    }
  }

  /** A plan with one done todo, whose accepted asset "a" has a generating child
      "b" that names a todo of its own. */
  function SplitTodos(): Todos { map["t" := TodoRow("", "p", "asset", "done", "", [], 0)] }

  function SplitRows(): Rows {
    var root := Asset("", "", "t", "image", "", "", Accepted, 1, "", "", "", "", "", "", "", 0, None);
    map["a" := root, "b" := root.(todo := "u", status := Generating, version := 2, parent := "a")]
  }

  lemma SplitSets()
    ensures PlanAssets(SplitRows(), SplitTodos(), "p") == {"a"}
    ensures RegenAssets(SplitRows(), SplitTodos(), "p") == {"b"}
  {
    var rows, todos := SplitRows(), SplitTodos();
    assert PlanAssets(rows, todos, "p") == {"a"};
    assert ReachedIn(rows, {"a"}, "b", 1);
    if Descends(rows, {"a"}, "a") {
      DescendantHasParent(rows, {"a"}, "a");
      assert false;
    }
    assert RegenAssets(rows, todos, "p") == {"b"};
  }

  lemma SplitTodoCounts()
    ensures var c := TableCounts(SplitRows(), SplitTodos(), "p");
            TodosSettled(c) && c.total == c.done == 1
  {
    var todos := SplitTodos();
    assert OfPlan(todos, "p", AnyTodo()) == {"t"} == OfPlan(todos, "p", WithStatus("done"));
    assert OfPlan(todos, "p", WithStatus("ready")) == {} == OfPlan(todos, "p", WithStatus("running"));
    assert OfPlan(todos, "p", WithStatus("blocked")) == {} == OfPlan(todos, "p", WithStatus("failed"));
    assert OfPlan(todos, "p", WithStatus("canceled")) == {};
  }

  lemma SplitAssetCounts()
    ensures TableCounts(SplitRows(), SplitTodos(), "p").inFlightRegen > 0
  {
    SplitSets();
    TableCountsMean(SplitRows(), SplitTodos(), "p");
  }

  /** Without that invariant they differ: this state is "completed" to one and
      "review" to the other, whatever lists were loaded from it. */
  lemma TodoOnDescendantSplitsStatus(list: seq<Todo>, views: seq<AssetView>)
    requires LoadedTodos(list, SplitTodos(), "p") && LoadedAssets(views, SplitRows(), SplitTodos(), "p")
    ensures DeriveStatus(ListCounts(list, views)) == "completed"
    ensures DeriveStatus(TableCounts(SplitRows(), SplitTodos(), "p")) == "review"
  {
    SplitSets();
    SplitTodoCounts();
    SplitAssetCounts();
    TodoCountsAgree(list, views, SplitRows(), SplitTodos(), "p");
    AssetCountsMean(views, SplitRows(), SplitTodos(), "p");
  }
}
