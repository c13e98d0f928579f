/** The status of a project, derived twice: by `RefreshStatus` with SQL counts
    over the latest plan, and by `Compute` with loops over what `LoadState` read. */
module ProjectState {
  import opened Prelude
  import opened Assets

  datatype TodoRow = TodoRow(project: string, plan: string, kind: string, status: string, error: string, dependsOn: seq<string>, createdAt: int)

  /** What `LoadState` reads of a todo and of an asset. */
  datatype Todo = Todo(id: string, row: TodoRow)
  datatype AssetView = AssetView(id: string, todo: string, status: Status)

  type Todos = map<string, TodoRow>

  ghost predicate DistinctTodos(list: seq<Todo>) {
    forall j, k :: 0 <= j < k < |list| ==> list[j].id != list[k].id
  }

  /** How a todo's status is shown on a stage or a node. */
  function StageStatus(todoStatus: string): string {
    match todoStatus
    case "ready" => "pending"
    case "running" => "running"
    case "done" => "done"
    case "failed" => "failed"
    case "canceled" => "failed"
    case _ => "blocked"
  }

  /** Waiting is shown as pending, cancellation as failure, the unknown as blocked. */
  predicate StageOf(shown: string, status: string) {
    && (status in {"running", "done", "failed"} ==> shown == status)
    && (status == "ready" ==> shown == "pending")
    && (status == "canceled" ==> shown == "failed")
    && (status !in {"running", "done", "failed", "ready", "canceled"} ==> shown == "blocked")
  }

  datatype Counts = Counts(total: nat, ready: nat, running: nat, blocked: nat, done: nat, failed: nat, canceled: nat,
                           pendingAssets: nat, inFlightRegen: nat)

  function DeriveStatus(c: Counts): string {
    if c.total == 0 then "planning"
    else if c.running > 0 || c.ready > 0 || c.blocked > 0 then "running"
    else if c.failed > 0 then "failed"
    else if c.canceled > 0 then "canceled"
    else if c.pendingAssets > 0 || c.inFlightRegen > 0 then "review"
    else if c.done == c.total then "completed"
    else "running"
  }

  // ---------------------------------------------------------------------
  // Counting in the tables (RefreshStatus)
  // ---------------------------------------------------------------------

  predicate Unsettled(s: Status) { s.Generating? || s.Submitted? || s.Pending? }

  function OfPlan(todos: Todos, plan: string, keep: TodoRow -> bool): set<string> {
    set id | id in todos && todos[id].plan == plan && keep(todos[id])
  }

  function AnyTodo(): TodoRow -> bool { (t: TodoRow) => true }

  function WithStatus(status: string): TodoRow -> bool { (t: TodoRow) => t.status == status }

  /** `assets JOIN todos ON todo_id WHERE plan_id`. */
  predicate IsPlanAsset(rows: Rows, todos: Todos, plan: string, a: string) {
    a in rows && rows[a].todo in todos && todos[rows[a].todo].plan == plan
  }

  function PlanAssets(rows: Rows, todos: Todos, plan: string): set<string> {
    set a | a in rows && IsPlanAsset(rows, todos, plan, a)
  }

  /** `a` is reached from a root by at most `n` steps from parent to child, and at least one. */
  predicate ReachedIn(rows: Rows, roots: set<string>, a: string, n: nat)
    decreases n
  {
    n > 0 && a in rows && (rows[a].parent in roots || ReachedIn(rows, roots, rows[a].parent, n - 1))
  }

  ghost predicate Descends(rows: Rows, roots: set<string>, a: string) {
    exists n: nat :: ReachedIn(rows, roots, a, n)
  }

  /** A row descends from the roots when its parent is a root or descends from them. */
  lemma ChildDescends(rows: Rows, roots: set<string>, a: string)
    requires a in rows && (rows[a].parent in roots || Descends(rows, roots, rows[a].parent))
    ensures Descends(rows, roots, a)
  {
    if rows[a].parent in roots {
      assert ReachedIn(rows, roots, a, 1);
    } else {
      var n: nat :| ReachedIn(rows, roots, rows[a].parent, n);
      assert ReachedIn(rows, roots, a, n + 1);
    }
  }

  lemma {:induction false} ClosedHoldsDescendants(rows: Rows, roots: set<string>, found: set<string>, a: string, n: nat)
    requires forall x :: x in rows && (rows[x].parent in roots || rows[x].parent in found) ==> x in found
    requires ReachedIn(rows, roots, a, n)
    ensures a in found
    decreases n
  {
    if rows[a].parent !in roots { ClosedHoldsDescendants(rows, roots, found, rows[a].parent, n - 1); }
  }

  /** The recursive CTE `regen`: rounds of children until a round finds none. */
  method RegenOf(rows: Rows, roots: set<string>) returns (regen: set<string>)
    ensures forall a :: a in regen <==> Descends(rows, roots, a)
  {
    regen := {};
    var round := set a | a in rows && rows[a].parent in roots;
    forall a | a in round ensures Descends(rows, roots, a) {
      ChildDescends(rows, roots, a);
    }
    while round != {}
      invariant regen <= rows.Keys && round <= rows.Keys && round !! regen
      invariant forall a :: a in regen || a in round ==> Descends(rows, roots, a)
      invariant forall a :: a in rows && (rows[a].parent in roots || rows[a].parent in regen) ==> a in regen || a in round
      decreases rows.Keys - regen
    {
      forall a | a in rows && rows[a].parent in round ensures Descends(rows, roots, a) {
        ChildDescends(rows, roots, a);
      }
      regen := regen + round;
      round := set a | a in rows && rows[a].parent in round && a !in regen;
    }
    forall a | Descends(rows, roots, a) ensures a in regen {
      var n: nat :| ReachedIn(rows, roots, a, n);
      ClosedHoldsDescendants(rows, roots, regen, a, n);
    }
  }

  ghost function RegenAssets(rows: Rows, todos: Todos, plan: string): set<string> {
    set a | a in rows && Descends(rows, PlanAssets(rows, todos, plan), a)
  }

  function PendingIn(rows: Rows, ids: set<string>): set<string> {
    set a | a in ids && a in rows && rows[a].status.Pending?
  }

  function UnsettledIn(rows: Rows, ids: set<string>): set<string> {
    set a | a in ids && a in rows && Unsettled(rows[a].status)
  }

  ghost function TableCounts(rows: Rows, todos: Todos, plan: string): Counts {
    Counts(|OfPlan(todos, plan, AnyTodo())|,
           |OfPlan(todos, plan, WithStatus("ready"))|, |OfPlan(todos, plan, WithStatus("running"))|,
           |OfPlan(todos, plan, WithStatus("blocked"))|, |OfPlan(todos, plan, WithStatus("done"))|,
           |OfPlan(todos, plan, WithStatus("failed"))|, |OfPlan(todos, plan, WithStatus("canceled"))|,
           |PendingIn(rows, PlanAssets(rows, todos, plan))|, |UnsettledIn(rows, RegenAssets(rows, todos, plan))|)
  }

  // ---------------------------------------------------------------------
  // What the derived status says about the rows
  // ---------------------------------------------------------------------

  ghost predicate SomeTodo(todos: Todos, plan: string, statuses: set<string>) {
    exists id :: id in todos && todos[id].plan == plan && todos[id].status in statuses
  }

  /** An asset of the plan waits for a decision, or a later version of one is unfinished. */
  ghost predicate AssetsOpen(rows: Rows, todos: Todos, plan: string) {
    || (exists a :: a in rows && rows[a].todo in todos && todos[rows[a].todo].plan == plan && rows[a].status == Pending)
    || (exists a :: a in rows && Descends(rows, PlanAssets(rows, todos, plan), a)
                    && rows[a].status in {Generating, Submitted, Pending})
  }

  const ACTIVE := {"ready", "running", "blocked"}

  /** The status of a plan, read off its rows: nothing there is planning; anything
      active is running; then failures go before cancellations, and those before
      open assets; with every todo done it is completed. */
  ghost predicate StatusIs(rows: Rows, todos: Todos, plan: string, status: string) {
    if forall id :: id in todos ==> todos[id].plan != plan then status == "planning"
    else if SomeTodo(todos, plan, ACTIVE) then status == "running"
    else if SomeTodo(todos, plan, {"failed"}) then status == "failed"
    else if SomeTodo(todos, plan, {"canceled"}) then status == "canceled"
    else if AssetsOpen(rows, todos, plan) then status == "review"
    else if forall id :: id in todos && todos[id].plan == plan ==> todos[id].status == "done" then status == "completed"
    else status == "running"
  }

  lemma CountShows(todos: Todos, plan: string, status: string)
    ensures |OfPlan(todos, plan, WithStatus(status))| > 0 <==> SomeTodo(todos, plan, {status})
  {
    var ids := OfPlan(todos, plan, WithStatus(status));
    if |ids| > 0 { var id :| id in ids; }
    if id :| id in todos && todos[id].plan == plan && todos[id].status in {status} { assert id in ids; }
  }

  lemma AllDone(todos: Todos, plan: string)
    ensures |OfPlan(todos, plan, WithStatus("done"))| == |OfPlan(todos, plan, AnyTodo())| <==>
            forall id :: id in todos && todos[id].plan == plan ==> todos[id].status == "done"
  {
    var some, all := OfPlan(todos, plan, WithStatus("done")), OfPlan(todos, plan, AnyTodo());
    assert some <= all;
    if some != all {
      SubsetSmaller(some, all);
      var id :| id in all && id !in some;
    } else {
      assert forall id :: id in todos && todos[id].plan == plan ==> id in all;
    }
  }

  lemma SubsetSmaller<T>(a: set<T>, b: set<T>)
    requires a < b
    ensures |a| < |b|
  {
    assert |b - a| > 0 && b == a + (b - a);
  }

  lemma OpenShows(rows: Rows, todos: Todos, plan: string)
    ensures |PendingIn(rows, PlanAssets(rows, todos, plan))| > 0 || |UnsettledIn(rows, RegenAssets(rows, todos, plan))| > 0
            <==> AssetsOpen(rows, todos, plan)
  {
    var ps, us := PendingIn(rows, PlanAssets(rows, todos, plan)), UnsettledIn(rows, RegenAssets(rows, todos, plan));
    if a :| a in rows && rows[a].todo in todos && todos[rows[a].todo].plan == plan && rows[a].status == Pending { assert a in ps; }
    if a :| a in rows && Descends(rows, PlanAssets(rows, todos, plan), a) && rows[a].status in {Generating, Submitted, Pending} {
      assert a in us;
    }
    if |ps| > 0 { var a :| a in ps; }
    if |us| > 0 { var a :| a in us; }
  }

  lemma NoTodos(todos: Todos, plan: string)
    ensures |OfPlan(todos, plan, AnyTodo())| == 0 <==> forall id :: id in todos ==> todos[id].plan != plan
  {
    var all := OfPlan(todos, plan, AnyTodo());
    if |all| > 0 { var id :| id in all; }
    if id :| id in todos && todos[id].plan == plan { assert id in all; }
  }

  /** The counts lead to that status. */
  lemma DerivedStatusIs(rows: Rows, todos: Todos, plan: string, status: string)
    ensures StatusIs(rows, todos, plan, status) <==> status == DeriveStatus(TableCounts(rows, todos, plan))
  {
    NoTodos(todos, plan);
    CountShows(todos, plan, "ready");
    CountShows(todos, plan, "running");
    CountShows(todos, plan, "blocked");
    ActiveShows(todos, plan);
    CountShows(todos, plan, "failed");
    CountShows(todos, plan, "canceled");
    OpenShows(rows, todos, plan);
    AllDone(todos, plan);
  }

  lemma ActiveShows(todos: Todos, plan: string)
    ensures SomeTodo(todos, plan, ACTIVE) <==>
            SomeTodo(todos, plan, {"ready"}) || SomeTodo(todos, plan, {"running"}) || SomeTodo(todos, plan, {"blocked"})
  {
  }

  // ---------------------------------------------------------------------
  // The projects table
  // ---------------------------------------------------------------------

  datatype Project = Project(status: string, deleted: bool)
  datatype Plan = Plan(project: string, createdAt: int)

  predicate HasPlan(plans: map<string, Plan>, project: string) {
    exists q :: q in plans && plans[q].project == project
  }

  /** `ORDER BY created_at DESC LIMIT 1`, which may return any of the newest. */
  predicate IsLatestPlan(plans: map<string, Plan>, project: string, p: string) {
    p in plans && plans[p].project == project
    && forall q :: q in plans && plans[q].project == project ==> plans[q].createdAt <= plans[p].createdAt
  }

  lemma {:induction false} LatestPlanExists(plans: map<string, Plan>, project: string, ids: set<string>)
    requires ids != {} && forall p :: p in ids ==> p in plans && plans[p].project == project
    ensures exists p :: p in ids && forall q :: q in ids ==> plans[q].createdAt <= plans[p].createdAt
    decreases |ids|
  {
    var p :| p in ids;
    if ids - {p} == {} {
      assert forall q :: q in ids ==> q == p || q in ids - {p};
    } else {
      LatestPlanExists(plans, project, ids - {p});
      var best :| best in ids - {p} && forall q :: q in ids - {p} ==> plans[q].createdAt <= plans[best].createdAt;
      var top := if plans[p].createdAt > plans[best].createdAt then p else best;
      assert forall q :: q in ids ==> q == p || q in ids - {p};
      assert top in ids && forall q :: q in ids ==> plans[q].createdAt <= plans[top].createdAt;
    }
  }

  /** Exactly the open todos of the project are canceled. */
  predicate TodosSwept(before: Todos, after: Todos, project: string) {
    && after.Keys == before.Keys
    && forall id :: id in before ==>
         var t := before[id];
         after[id] == if t.project == project && t.status in {"pending", "ready", "blocked", "running"} then t.(status := "canceled") else t
  }

  /** Exactly the assets of the project that are being made are canceled. */
  predicate AssetsSwept(before: Rows, after: Rows, project: string) {
    && after.Keys == before.Keys
    && forall id :: id in before ==>
         var a := before[id];
         after[id] == if a.project == project && a.status in {Generating, Submitted} then a.(status := Canceled) else a
  }

  lemma SweepIs(todos: Todos, rows: Rows, project: string)
    ensures TodosSwept(todos, CanceledTodos(todos, project), project)
    ensures AssetsSwept(rows, UpdateStatus(rows, OfProjectInFlight(project), Canceled), project)
  {
  }

  class ProjectStore {
    var projects: map<string, Project>
    var plans: map<string, Plan>
    var todos: Todos
    var assets: Rows

    constructor ()
      ensures projects == map[] && plans == map[] && todos == map[] && assets == map[]
    {
      projects, plans, todos, assets := map[], map[], map[], map[];
    }

    method LatestPlan(project: string) returns (p: Option<string>)
      ensures p.None? <==> !HasPlan(plans, project)
      ensures p.Some? ==> IsLatestPlan(plans, project, p.value)
    {
      var ids := set q | q in plans && plans[q].project == project;
      if ids == {} {
        assert forall q :: q in plans ==> q !in ids;
        return None;
      }
      LatestPlanExists(plans, project, ids);
      var best :| best in ids && forall q :: q in ids ==> plans[q].createdAt <= plans[best].createdAt;
      assert forall q :: q in plans && plans[q].project == project ==> q in ids;
      return Some(best);
    }

    method Tally(plan: string) returns (c: Counts)
      ensures c == TableCounts(assets, todos, plan)
    {
      var roots := PlanAssets(assets, todos, plan);
      var regen := RegenOf(assets, roots);
      assert regen == RegenAssets(assets, todos, plan) by {
        forall a | Descends(assets, roots, a) ensures a in assets {
          var n: nat :| ReachedIn(assets, roots, a, n);
        }
      }
      c := Counts(|OfPlan(todos, plan, AnyTodo())|,
                  |OfPlan(todos, plan, WithStatus("ready"))|, |OfPlan(todos, plan, WithStatus("running"))|,
                  |OfPlan(todos, plan, WithStatus("blocked"))|, |OfPlan(todos, plan, WithStatus("done"))|,
                  |OfPlan(todos, plan, WithStatus("failed"))|, |OfPlan(todos, plan, WithStatus("canceled"))|,
                  |PendingIn(assets, roots)|, |UnsettledIn(assets, regen)|);
    }

    /** Rewrites the stored status from the latest plan; a canceled project stays
        canceled and one without a plan keeps its status. */
    method RefreshStatus(project: string) returns (r: Option<string>)
      modifies this`projects
      ensures r.None? <==> project !in old(projects)
      ensures project !in old(projects) ==> projects == old(projects)
      ensures project in old(projects) ==>
                && projects == old(projects)[project := old(projects)[project].(status := r.value)]
                && (old(projects)[project].status == "canceled" ==> r.value == "canceled")
                && (!HasPlan(plans, project) ==> r.value == old(projects)[project].status)
                && (old(projects)[project].status != "canceled" && HasPlan(plans, project) ==>
                      exists p :: IsLatestPlan(plans, project, p) && r.value == DeriveStatus(TableCounts(assets, todos, p))
                                  && StatusIs(assets, todos, p, r.value))
    {
      var latest := LatestPlan(project);
      if latest.None? {
        assert project in projects ==> projects == projects[project := projects[project].(status := projects[project].status)];
        return if project in projects then Some(projects[project].status) else None;
      }
      var c := Tally(latest.value);
      var status := DeriveStatus(c);
      DerivedStatusIs(assets, todos, latest.value, status);
      if project in projects && projects[project].status != "canceled" {
        projects := projects[project := projects[project].(status := status)];
        return Some(status);
      }
      return if project in projects then Some(projects[project].status) else None;
    }

    /** Only a planning or running project can be canceled. */
    method Cancel(project: string) returns (ok: bool)
      modifies this
      ensures ok == (project in old(projects) && old(projects)[project].status in {"planning", "running"})
      ensures !ok ==> projects == old(projects) && todos == old(todos) && assets == old(assets)
      ensures ok ==>
                && projects == old(projects)[project := old(projects)[project].(status := "canceled")]
                && todos == CanceledTodos(old(todos), project)
                && assets == UpdateStatus(old(assets), OfProjectInFlight(project), Canceled)
                && TodosSwept(old(todos), todos, project) && AssetsSwept(old(assets), assets, project)
      ensures plans == old(plans)
    {
      if project !in projects || projects[project].status !in {"planning", "running"} {
        return false;
      }
      projects := projects[project := projects[project].(status := "canceled")];
      SweepIs(todos, assets, project);
      todos := CanceledTodos(todos, project);
      assets := UpdateStatus(assets, OfProjectInFlight(project), Canceled);
      return true;
    }

    /** One transaction; the export jobs it fails are `Exports.DeleteProjectIn`. */
    method SoftDelete(project: string) returns (ok: bool)
      modifies this
      ensures ok == (project in old(projects) && !old(projects)[project].deleted)
      ensures !ok ==> projects == old(projects) && todos == old(todos) && assets == old(assets)
      ensures ok ==>
                && projects == old(projects)[project := Project("canceled", true)]
                && todos == CanceledTodos(old(todos), project)
                && assets == UpdateStatus(old(assets), OfProjectInFlight(project), Canceled)
                && TodosSwept(old(todos), todos, project) && AssetsSwept(old(assets), assets, project)
      ensures plans == old(plans)
    {
      if project !in projects || projects[project].deleted {
        return false;
      }
      projects := projects[project := projects[project].(deleted := true)];
      SweepIs(todos, assets, project);
      todos := CanceledTodos(todos, project);
      assets := UpdateStatus(assets, OfProjectInFlight(project), Canceled);
      projects := projects[project := projects[project].(status := "canceled")];
      return true;
    }
  }

  predicate Cancelable(status: string) { status in {"pending", "ready", "blocked", "running"} }

  /** The todo sweep of Cancel and SoftDelete over the project's todos. */
  function CanceledTodos(todos: Todos, project: string): Todos {
    map id | id in todos :: if todos[id].project == project && Cancelable(todos[id].status) then todos[id].(status := "canceled") else todos[id]
  }

  /** Every todo of the plan belongs to the project and has a status the code knows. */
  predicate PlanOf(todos: Todos, project: string, plan: string) {
    forall id :: id in todos && todos[id].plan == plan ==>
      todos[id].project == project && (Cancelable(todos[id].status) || todos[id].status in {"done", "failed", "canceled"})
  }

  lemma NothingActive(todos: Todos, project: string, plan: string, status: string)
    requires PlanOf(todos, project, plan) && Cancelable(status)
    ensures OfPlan(CanceledTodos(todos, project), plan, WithStatus(status)) == {}
  {
  }

  lemma RestIsDone(todos: Todos, project: string, plan: string)
    requires PlanOf(todos, project, plan)
    ensures var after := CanceledTodos(todos, project);
            OfPlan(after, plan, WithStatus("failed")) == {} && OfPlan(after, plan, WithStatus("canceled")) == {} ==>
              OfPlan(after, plan, WithStatus("done")) == OfPlan(after, plan, AnyTodo())
  {
    var after := CanceledTodos(todos, project);
    if OfPlan(after, plan, WithStatus("failed")) == {} && OfPlan(after, plan, WithStatus("canceled")) == {} {
      forall id | id in after && after[id].plan == plan ensures after[id].status == "done" {
        assert id !in OfPlan(after, plan, WithStatus("failed")) && id !in OfPlan(after, plan, WithStatus("canceled"));
      }
    }
  }

  /** After the sweep no plan of the project derives `running` again, as long as
      its todos have the statuses the code knows. */
  lemma CancelSettles(rows: Rows, todos: Todos, project: string, plan: string)
    requires PlanOf(todos, project, plan)
    ensures DeriveStatus(TableCounts(rows, CanceledTodos(todos, project), plan)) != "running"
  {
    NothingActive(todos, project, plan, "ready");
    NothingActive(todos, project, plan, "running");
    NothingActive(todos, project, plan, "blocked");
    RestIsDone(todos, project, plan);
  }
}
