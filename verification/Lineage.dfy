/** Whole runs over the assets table: every interleaving of creation, worker
    writes, human decisions, regeneration, sweeps, repairs and retries. */
module Lineage {
  import opened Prelude
  import opened Assets

  /** `tickets[p]` counts the Regenerate calls that have rejected `p` and not yet
      inserted its child (the call is two database steps, and may die between). */
  datatype State = State(rows: Rows, tickets: multiset<string>)

  datatype Step =
    | Create(id: string, input: CreateInput, now: int)
    | SetBlob(id: string, key: string, configId: string, done: bool)  // done: pending_acceptance, else failed
    | SetSubmitted(id: string, job: string, now: int)
    | SetAsyncFailed(id: string)
    | ReapStale(cutoff: int)
    | SweepProject(project: string)         // project.Cancel and project.SoftDelete
    | RepairStuck(cutoff: int)
    | RepairFailedTodos(failed: set<string>)
    | Discard(id: string, from: Status)     // the worker drops a canceled todo's asset
    | Accept(id: string)
    | Reject(id: string)
    | RegenStart(id: string)
    | RegenInsert(id: string, child: string, prompt: string, now: int)
    | RetryReset(id: string, seen: Status)  // createAsset's compare-and-set back to generating

  function BlobStatus(done: bool): Status { if done then Pending else Failed }

  function ChildInput(parent: Asset, edited: string): CreateInput {
    CreateInput(parent.project, parent.shot, "", parent.kind, if edited == "" then parent.prompt else edited,
                parent.style, Some(Generating))
  }

  /** The retry reset acts on the row of a todo that was not read as generating. */
  predicate ResetHits(rows: Rows, id: string, seen: Status) {
    Hits(rows, id, IsStatus(seen)) && rows[id].todo != "" && seen != Generating
  }

  function Apply(s: State, step: Step): State {
    match step
    case Create(id, input, now) =>
      if id in s.rows || id == "" then s else s.(rows := Inserted(s.rows, id, NewAsset(input, 1, "", now)))
    case SetBlob(id, key, configId, done) =>
      s.(rows := UpdateOne(s.rows, id, IsInFlight(), FillBlob(key, "", "", "", configId, BlobStatus(done))))
    case SetSubmitted(id, job, now) => s.(rows := UpdateOne(s.rows, id, IsStatus(Generating), Submit(job, now)))
    case SetAsyncFailed(id) => s.(rows := UpdateOne(s.rows, id, IsInFlight(), MoveTo(Failed)))
    case ReapStale(cutoff) => s.(rows := UpdateStatus(s.rows, StaleSubmitted(cutoff), Failed))
    case SweepProject(project) => s.(rows := UpdateStatus(s.rows, OfProjectInFlight(project), Canceled))
    case RepairStuck(cutoff) => s.(rows := UpdateStatus(s.rows, Stuck(cutoff), Failed))
    case RepairFailedTodos(failed) => s.(rows := UpdateStatus(s.rows, LiveOfFailedTodo(failed), Failed))
    case Discard(id, from) =>
      if InFlight(from) || from.Pending? then s.(rows := UpdateOne(s.rows, id, IsStatus(from), MoveTo(Canceled))) else s
    case Accept(id) => s.(rows := UpdateOne(s.rows, id, IsStatus(Pending), MoveTo(Accepted)))
    case Reject(id) => s.(rows := UpdateOne(s.rows, id, IsStatus(Pending), MoveTo(Rejected)))
    case RegenStart(id) =>
      if Hits(s.rows, id, IsStatus(Pending))
      then State(UpdateOne(s.rows, id, IsStatus(Pending), MoveTo(Rejected)), s.tickets + multiset{id}) else s
    case RegenInsert(id, child, prompt, now) =>
      if id in s.tickets && id in s.rows && child !in s.rows && child != ""
      then State(s.rows[child := NewAsset(ChildInput(s.rows[id], prompt), s.rows[id].version + 1, id, now)],
                 s.tickets - multiset{id})
      else s
    case RetryReset(id, seen) =>
      if ResetHits(s.rows, id, seen) then s.(rows := UpdateOne(s.rows, id, IsStatus(seen), MoveTo(Generating))) else s
  }

  function Run(s: State, steps: seq<Step>): State
    decreases |steps|
  {
    if steps == [] then s else Run(Apply(s, steps[0]), steps[1..])
  }

  const EMPTY := State(map[], multiset{})

  // ---------------------------------------------------------------------
  // Statuses climb, except at a retry reset
  // ---------------------------------------------------------------------

  function Rank(s: Status): nat {
    match s case Generating => 0 case Submitted => 1 case Pending => 2 case _ => 3
  }

  /** Whether the step is a retry reset that takes effect on row `id`. */
  predicate ResetsRow(s: State, step: Step, id: string) {
    step.RetryReset? && step.id == id && ResetHits(s.rows, id, step.seen)
  }

  /** The columns that say where a row belongs. */
  function Place(a: Asset): (string, int, string, string) { (a.parent, a.version, a.todo, a.project) }

  predicate Inserts(step: Step) { step.Create? || step.RegenInsert? }

  predicate Sweeps(step: Step) { step.ReapStale? || step.SweepProject? || step.RepairStuck? || step.RepairFailedTodos? }

  lemma InsertKeepsRow(s: State, step: Step, id: string)
    requires Inserts(step) && id in s.rows
    ensures id in Apply(s, step).rows && Apply(s, step).rows[id] == s.rows[id]
  {
  }

  lemma SweepEffect(s: State, step: Step, id: string)
    requires Sweeps(step) && id in s.rows
    ensures id in Apply(s, step).rows && Place(Apply(s, step).rows[id]) == Place(s.rows[id])
    ensures var before, after := s.rows[id].status, Apply(s, step).rows[id].status; after == before || Rank(before) < Rank(after)
  {
    match step { case ReapStale(_) => case SweepProject(_) => case RepairStuck(_) => case RepairFailedTodos(_) => }
  }

  lemma WorkerWriteEffect(s: State, step: Step, id: string)
    requires (step.SetBlob? || step.SetSubmitted? || step.SetAsyncFailed?) && id in s.rows
    ensures id in Apply(s, step).rows && Place(Apply(s, step).rows[id]) == Place(s.rows[id])
    ensures var before, after := s.rows[id].status, Apply(s, step).rows[id].status; after == before || Rank(before) < Rank(after)
  {
    match step { case SetBlob(_, _, _, _) => case SetSubmitted(_, _, _) => case SetAsyncFailed(_) => }
  }

  lemma DecisionEffect(s: State, step: Step, id: string)
    requires (step.Discard? || step.Accept? || step.Reject? || step.RegenStart?) && id in s.rows
    ensures id in Apply(s, step).rows && Place(Apply(s, step).rows[id]) == Place(s.rows[id])
    ensures var before, after := s.rows[id].status, Apply(s, step).rows[id].status; after == before || Rank(before) < Rank(after)
  {
    match step { case Discard(_, _) => case Accept(_) => case Reject(_) => case RegenStart(_) => }
  }

  lemma ResetEffect(s: State, step: Step, id: string)
    requires step.RetryReset? && id in s.rows
    ensures id in Apply(s, step).rows && Place(Apply(s, step).rows[id]) == Place(s.rows[id])
    ensures var before, after := s.rows[id].status, Apply(s, step).rows[id].status;
            if ResetsRow(s, step, id) then Rank(after) == 0 < Rank(before) else after == before
  {
  }

  /** A step leaves every existing row in its place. */
  lemma RowKept(s: State, step: Step, id: string)
    requires id in s.rows
    ensures id in Apply(s, step).rows && Place(Apply(s, step).rows[id]) == Place(s.rows[id])
  {
    if Inserts(step) {
      InsertKeepsRow(s, step, id);
    } else if Sweeps(step) {
      SweepEffect(s, step, id);
    } else if step.RetryReset? {
      ResetEffect(s, step, id);
    } else if step.SetBlob? || step.SetSubmitted? || step.SetAsyncFailed? {
      WorkerWriteEffect(s, step, id);
    } else {
      DecisionEffect(s, step, id);
    }
  }

  /** A status change strictly raises the rank, for every row, unless the step is
      a retry reset of that row; a reset that hits always lowers it. */
  lemma StatusClimbs(s: State, step: Step, id: string)
    requires id in s.rows
    ensures id in Apply(s, step).rows
    ensures var before, after := s.rows[id].status, Apply(s, step).rows[id].status;
            && (ResetsRow(s, step, id) ==> Rank(after) == 0 < Rank(before))
            && (!ResetsRow(s, step, id) ==> after == before || Rank(before) < Rank(after))
  {
    if Inserts(step) {
      InsertKeepsRow(s, step, id);
    } else if Sweeps(step) {
      SweepEffect(s, step, id);
    } else if step.RetryReset? {
      ResetEffect(s, step, id);
    } else if step.SetBlob? || step.SetSubmitted? || step.SetAsyncFailed? {
      WorkerWriteEffect(s, step, id);
    } else {
      DecisionEffect(s, step, id);
    }
  }

  predicate Running(s: Status) { s == Generating || s == Submitted }

  /** The step moves row `id`, which is `a`, to status `to`. */
  predicate Moves(step: Step, id: string, a: Asset, to: Status) {
    match step
    case SetBlob(i, _, _, done) => i == id && Running(a.status) && ((done && to == Pending) || (!done && to == Failed))
    case SetSubmitted(i, _, _) => i == id && a.status == Generating && to == Submitted
    case SetAsyncFailed(i) => i == id && Running(a.status) && to == Failed
    case ReapStale(cutoff) => a.status == Submitted && a.submittedAt.Some? && a.submittedAt.value < cutoff && to == Failed
    case SweepProject(project) => a.project == project && Running(a.status) && to == Canceled
    case RepairStuck(cutoff) =>
      && to == Failed
      && ((a.status == Generating && a.createdAt < cutoff)
          || (a.status == Submitted && a.submittedAt.Some? && a.submittedAt.value < cutoff))
    case RepairFailedTodos(failed) => a.todo in failed && (Running(a.status) || a.status == Pending) && to == Failed
    case Discard(i, from) => i == id && a.status == from && (Running(from) || from == Pending) && to == Canceled
    case Accept(i) => i == id && a.status == Pending && to == Accepted
    case Reject(i) => i == id && a.status == Pending && to == Rejected
    case RegenStart(i) => i == id && a.status == Pending && to == Rejected
    case RetryReset(i, seen) => i == id && a.status == seen && seen != Generating && a.todo != "" && to == Generating
    case _ => false
  }

  /** The status of row `id` after the step is what `Moves` says. */
  ghost predicate MovesAsSaid(s: State, step: Step, id: string)
    requires id in s.rows
  {
    && id in Apply(s, step).rows
    && var after := Apply(s, step).rows[id].status;
       && (forall to :: Moves(step, id, s.rows[id], to) ==> after == to)
       && (after != s.rows[id].status ==> Moves(step, id, s.rows[id], after))
  }

  lemma SweepMoves(s: State, step: Step, id: string)
    requires Sweeps(step) && id in s.rows
    ensures MovesAsSaid(s, step, id)
  {
    match step { case ReapStale(_) => case SweepProject(_) => case RepairStuck(_) => case RepairFailedTodos(_) => }
  }

  lemma WorkerMoves(s: State, step: Step, id: string)
    requires (step.SetBlob? || step.SetSubmitted? || step.SetAsyncFailed?) && id in s.rows
    ensures MovesAsSaid(s, step, id)
  {
    match step { case SetBlob(_, _, _, _) => case SetSubmitted(_, _, _) => case SetAsyncFailed(_) => }
  }

  lemma DecisionMoves(s: State, step: Step, id: string)
    requires (step.Discard? || step.Accept? || step.Reject? || step.RegenStart?) && id in s.rows
    ensures MovesAsSaid(s, step, id)
  {
    match step { case Discard(_, _) => case Accept(_) => case Reject(_) => case RegenStart(_) => }
  }

  lemma ResetMoves(s: State, step: Step, id: string)
    requires step.RetryReset? && id in s.rows
    ensures MovesAsSaid(s, step, id)
  {
  }

  /** Each step moves exactly the rows it is about, and every other row keeps its status. */
  lemma StatusMoves(s: State, step: Step, id: string)
    requires id in s.rows
    ensures id in Apply(s, step).rows
    ensures forall to :: Moves(step, id, s.rows[id], to) ==> Apply(s, step).rows[id].status == to
    ensures Apply(s, step).rows[id].status != s.rows[id].status ==> Moves(step, id, s.rows[id], Apply(s, step).rows[id].status)
  {
    if Inserts(step) {
      InsertKeepsRow(s, step, id);
    } else if Sweeps(step) {
      SweepMoves(s, step, id);
    } else if step.RetryReset? {
      ResetMoves(s, step, id);
    } else if step.SetBlob? || step.SetSubmitted? || step.SetAsyncFailed? {
      WorkerMoves(s, step, id);
    } else {
      DecisionMoves(s, step, id);
    }
  }

  /** The version that Regenerate inserts: the edited prompt, or the parent's when
      it is empty, everything else as the parent has it, and nothing generated. */
  lemma NextVersionIs(s: State, id: string, child: string, edited: string, now: int)
    requires id in s.tickets && id in s.rows && child !in s.rows && child != ""
    ensures var t := Apply(s, RegenInsert(id, child, edited, now));
            && child in t.rows && t.rows == s.rows[child := t.rows[child]]
            && IsNextVersion(t.rows[child], s.rows[id], id, edited)
  {
  }

  predicate IsNextVersion(b: Asset, a: Asset, id: string, edited: string) {
    && b.prompt == (if edited != "" then edited else a.prompt)
    && b.project == a.project && b.shot == a.shot && b.style == a.style && b.todo == ""
    && (a.kind != "" ==> b.kind == a.kind)
    && b.status == Generating && b.version == a.version + 1 && b.parent == id && NothingGenerated(b)
  }

  function Changed(s: State, step: Step, id: string): nat {
    if id in s.rows && id in Apply(s, step).rows && Apply(s, step).rows[id].status != s.rows[id].status then 1 else 0
  }

  function IsReset(s: State, step: Step, id: string): nat {
    if ResetsRow(s, step, id) then 1 else 0
  }

  function IsWin(s: State, step: Step, id: string): nat {
    if step.SetBlob? && step.id == id && Hits(s.rows, id, IsInFlight()) then 1 else 0
  }

  /** How often along a run the row changed status, was reset, had its blob set. */
  function Changes(s: State, steps: seq<Step>, id: string): nat
    decreases |steps|
  {
    if steps == [] then 0 else Changed(s, steps[0], id) + Changes(Apply(s, steps[0]), steps[1..], id)
  }

  function Resets(s: State, steps: seq<Step>, id: string): nat
    decreases |steps|
  {
    if steps == [] then 0 else IsReset(s, steps[0], id) + Resets(Apply(s, steps[0]), steps[1..], id)
  }

  function Wins(s: State, steps: seq<Step>, id: string): nat
    decreases |steps|
  {
    if steps == [] then 0 else IsWin(s, steps[0], id) + Wins(Apply(s, steps[0]), steps[1..], id)
  }

  function RankOf(s: State, id: string): nat { if id in s.rows then Rank(s.rows[id].status) else 0 }

  lemma {:induction false} ChangeBudget(s: State, steps: seq<Step>, id: string)
    ensures RankOf(s, id) + Changes(s, steps, id) <= RankOf(Run(s, steps), id) + 4 * Resets(s, steps, id)
    decreases |steps|
  {
    if steps != [] {
      var t := Apply(s, steps[0]);
      ChangeBudget(t, steps[1..], id);
      if id in s.rows { StatusClimbs(s, steps[0], id); }
    }
  }

  lemma {:induction false} WinBudget(s: State, steps: seq<Step>, id: string)
    ensures Wins(s, steps, id) + (if RankOf(s, id) >= 2 then 1 else 0)
         <= Resets(s, steps, id) + (if RankOf(Run(s, steps), id) >= 2 then 1 else 0)
    decreases |steps|
  {
    if steps != [] {
      var t := Apply(s, steps[0]);
      WinBudget(t, steps[1..], id);
      if id in s.rows { StatusClimbs(s, steps[0], id); }
    }
  }

  /** Over every run, an asset changes status at most three times plus four per
      retry reset, and at most one SetBlob plus one per reset reports won. */
  lemma ChangesAndWinsBounded(s: State, steps: seq<Step>, id: string)
    requires id !in s.rows
    ensures Changes(s, steps, id) <= 3 + 4 * Resets(s, steps, id)
    ensures Wins(s, steps, id) <= 1 + Resets(s, steps, id)
  {
    ChangeBudget(s, steps, id);
    WinBudget(s, steps, id);
  }

  /** A terminal status is final in every run without a reset of that row. */
  lemma {:induction false} TerminalIsFinal(s: State, steps: seq<Step>, id: string)
    requires id in s.rows && Rank(s.rows[id].status) == 3 && Resets(s, steps, id) == 0
    ensures id in Run(s, steps).rows && Run(s, steps).rows[id].status == s.rows[id].status
    decreases |steps|
  {
    if steps != [] {
      StatusClimbs(s, steps[0], id);
      TerminalIsFinal(Apply(s, steps[0]), steps[1..], id);
    }
  }

  // ---------------------------------------------------------------------
  // Lineage structure that every run keeps
  // ---------------------------------------------------------------------

  /** Row `c` is either a first version or the next version of an existing row;
      only first versions belong to a todo. */
  predicate Linked(rows: Rows, c: string)
    requires c in rows
  {
    var a := rows[c];
    if a.parent == "" then a.version == 1
    else a.version >= 2 && a.parent in rows && a.version == rows[a.parent].version + 1 && a.todo == "" && a.project == rows[a.parent].project
  }

  ghost predicate Sound(s: State) {
    && "" !in s.rows
    && (forall c :: c in s.rows ==> Linked(s.rows, c))
    && (forall p :: p in s.tickets ==> p in s.rows)
  }

  /** What a row looks like the moment it appears. */
  lemma RowAdded(s: State, step: Step, c: string)
    requires c !in s.rows && c in Apply(s, step).rows
    ensures c != ""
    ensures var a := Apply(s, step).rows[c];
            || (step.Create? && a.parent == "" && a.version == 1)
            || (step.RegenInsert? && step.child == c && a.parent == step.id && step.id in s.tickets && step.id in s.rows
                && a.version == s.rows[step.id].version + 1 && a.todo == "" && a.project == s.rows[step.id].project)
  {
    match step {
      case Create(_, _, _) =>
      case _ =>
    }
  }

  lemma TicketsChange(s: State, step: Step, p: string)
    ensures Apply(s, step).tickets[p] ==
            if step == RegenStart(p) && Hits(s.rows, p, IsStatus(Pending)) then s.tickets[p] + 1
            else if step.RegenInsert? && step.id == p && Apply(s, step) != s then s.tickets[p] - 1
            else s.tickets[p]
  {
    if step.RegenInsert? && Apply(s, step) != s { assert step.id in s.tickets; }
  }

  lemma SoundKept(s: State, step: Step)
    requires Sound(s)
    ensures Sound(Apply(s, step))
  {
    var t := Apply(s, step);
    forall c | c in t.rows ensures c != "" && Linked(t.rows, c) {
      if c in s.rows {
        assert Linked(s.rows, c);
        RowKept(s, step, c);
        if s.rows[c].parent != "" { RowKept(s, step, s.rows[c].parent); }
      } else {
        RowAdded(s, step, c);
        if t.rows[c].parent != "" { RowKept(s, step, t.rows[c].parent); }
      }
    }
    forall p | p in t.tickets ensures p in t.rows {
      TicketsChange(s, step, p);
      if p in s.rows { RowKept(s, step, p); }
    }
  }

  lemma {:induction false} SoundRun(s: State, steps: seq<Step>)
    requires Sound(s)
    ensures Sound(Run(s, steps))
    decreases |steps|
  {
    if steps != [] {
      SoundKept(s, steps[0]);
      SoundRun(Apply(s, steps[0]), steps[1..]);
    }
  }

  // ---------------------------------------------------------------------
  // Chains: at most one child each, every non-tail version rejected
  // ---------------------------------------------------------------------

  ghost predicate HasChild(rows: Rows, p: string) {
    exists c :: c in rows && rows[c].parent == p
  }

  /** Some Regenerate has claimed this row: it has a child, or is about to. */
  ghost predicate Regenerated(s: State, p: string) {
    p in s.tickets || HasChild(s.rows, p)
  }

  /** No two rows have the same parent. */
  ghost predicate NoFork(rows: Rows) {
    forall c, d :: c in rows && d in rows && rows[c].parent == rows[d].parent && rows[c].parent != "" ==> c == d
  }

  /** A regenerated row is rejected, and claimed by one Regenerate only. */
  ghost predicate Claimed(s: State, p: string)
    requires p in s.rows
  {
    && (Regenerated(s, p) ==> s.rows[p].status == Rejected)
    && (p in s.tickets ==> s.tickets[p] == 1 && !HasChild(s.rows, p))
  }

  ghost predicate Chained(s: State) {
    Sound(s) && NoFork(s.rows) && forall p :: p in s.rows ==> Claimed(s, p)
  }

  /** The condition a retry could check before its reset: nothing regenerated the row. */
  ghost predicate Allowed(s: State, step: Step) {
    step.RetryReset? && ResetHits(s.rows, step.id, step.seen) ==> !Regenerated(s, step.id)
  }

  lemma NoForkKept(s: State, step: Step)
    requires Chained(s)
    ensures NoFork(Apply(s, step).rows)
  {
    var t := Apply(s, step);
    if step.RegenInsert? && step.id in s.rows { assert Claimed(s, step.id); }
    forall c, d | c in t.rows && d in t.rows && t.rows[c].parent == t.rows[d].parent != "" ensures c == d {
      if c in s.rows { RowKept(s, step, c); } else { RowAdded(s, step, c); }
      if d in s.rows { RowKept(s, step, d); } else { RowAdded(s, step, d); }
    }
  }

  /** A row comes to be regenerated only by losing the pending status or by a ticket. */
  lemma RegeneratedBefore(s: State, step: Step, p: string)
    requires Sound(s) && p in s.rows && Regenerated(Apply(s, step), p)
    ensures Regenerated(s, p) || (step == RegenStart(p) && s.rows[p].status == Pending)
  {
    var t := Apply(s, step);
    TicketsChange(s, step, p);
    if HasChild(t.rows, p) {
      var c :| c in t.rows && t.rows[c].parent == p;
      if c in s.rows { RowKept(s, step, c); } else { RowAdded(s, step, c); }
    }
  }

  lemma StaysRejected(s: State, step: Step, p: string)
    requires Allowed(s, step) && p in s.rows && Regenerated(s, p) && s.rows[p].status == Rejected
    ensures p in Apply(s, step).rows && Apply(s, step).rows[p].status == Rejected
  {
    StatusClimbs(s, step, p);
  }

  lemma RejectedKept(s: State, step: Step, p: string)
    requires Chained(s) && Allowed(s, step) && p in s.rows && p in Apply(s, step).rows
    ensures Regenerated(Apply(s, step), p) ==> Apply(s, step).rows[p].status == Rejected
  {
    assert Claimed(s, p);
    if Regenerated(Apply(s, step), p) {
      RegeneratedBefore(s, step, p);
      if Regenerated(s, p) {
        StaysRejected(s, step, p);
      } else {
        RejectStep(s, p);
      }
    }
  }

  lemma TicketKept(s: State, step: Step, p: string)
    requires Chained(s) && p in s.rows
    ensures p in Apply(s, step).tickets ==> Apply(s, step).tickets[p] == 1 && !HasChild(Apply(s, step).rows, p)
  {
    var t := Apply(s, step);
    assert Claimed(s, p);
    TicketsChange(s, step, p);
    if p in t.tickets && HasChild(t.rows, p) {
      var c :| c in t.rows && t.rows[c].parent == p;
      if c in s.rows { RowKept(s, step, c); } else { RowAdded(s, step, c); }
    }
  }

  lemma ClaimedKept(s: State, step: Step, p: string)
    requires Chained(s) && Allowed(s, step) && p in s.rows && p in Apply(s, step).rows
    ensures Claimed(Apply(s, step), p)
  {
    RejectedKept(s, step, p);
    TicketKept(s, step, p);
  }

  lemma NewRowClaimed(s: State, step: Step, p: string)
    requires Chained(s) && p !in s.rows && p in Apply(s, step).rows
    ensures Claimed(Apply(s, step), p)
  {
    var t := Apply(s, step);
    RowAdded(s, step, p);
    TicketsChange(s, step, p);
    if HasChild(t.rows, p) {
      var c :| c in t.rows && t.rows[c].parent == p;
      assert c in s.rows ==> Linked(s.rows, c);
      if c in s.rows { RowKept(s, step, c); } else { RowAdded(s, step, c); }
    }
  }

  lemma ChainedKept(s: State, step: Step)
    requires Chained(s) && Allowed(s, step)
    ensures Chained(Apply(s, step))
  {
    SoundKept(s, step);
    NoForkKept(s, step);
    forall p | p in Apply(s, step).rows ensures Claimed(Apply(s, step), p) {
      if p in s.rows { ClaimedKept(s, step, p); } else { NewRowClaimed(s, step, p); }
    }
  }

  ghost predicate AllowedRun(s: State, steps: seq<Step>)
    decreases |steps|
  {
    steps != [] ==> Allowed(s, steps[0]) && AllowedRun(Apply(s, steps[0]), steps[1..])
  }

  /** Lineages are chains in every run whose retries reset no regenerated row. */
  lemma {:induction false} ChainedRun(s: State, steps: seq<Step>)
    requires Chained(s) && AllowedRun(s, steps)
    ensures Chained(Run(s, steps))
    decreases |steps|
  {
    if steps != [] {
      ChainedKept(s, steps[0]);
      ChainedRun(Apply(s, steps[0]), steps[1..]);
    }
  }

  // ---------------------------------------------------------------------
  // Exactly when a retry reset can fork a lineage
  // ---------------------------------------------------------------------

  lemma {:induction false} LongestId(ids: set<string>) returns (n: nat)
    ensures forall id :: id in ids ==> |id| <= n
    decreases |ids|
  {
    n := 0;
    if ids != {} {
      var id :| id in ids;
      var m := LongestId(ids - {id});
      n := if |id| > m then |id| else m;
    }
  }

  lemma FreshId(rows: Rows) returns (id: string)
    ensures id !in rows && id != ""
  {
    var n := LongestId(rows.Keys);
    id := seq(n + 1, _ => 'x');
  }

  /** A run without any further retry reset. */
  predicate NoResets(steps: seq<Step>) {
    forall k :: 0 <= k < |steps| ==> !steps[k].RetryReset?
  }

  lemma {:induction false} NoResetsAllowed(s: State, steps: seq<Step>)
    requires NoResets(steps)
    ensures AllowedRun(s, steps)
    decreases |steps|
  {
    if steps != [] { NoResetsAllowed(Apply(s, steps[0]), steps[1..]); }
  }

  /** Generate, regenerate and insert a child once more. */
  function OnceMore(id: string, child: string): seq<Step> {
    [SetBlob(id, "", "", true), RegenStart(id), RegenInsert(id, child, "", 0)]
  }

  /** Every row of `s` is in `t`, under the same parent. */
  ghost predicate KeepsParents(s: State, t: State) {
    forall c :: c in s.rows ==> c in t.rows && t.rows[c].parent == s.rows[c].parent
  }

  lemma GenerateStep(s: State, id: string)
    requires id in s.rows && s.rows[id].status == Generating
    ensures var t := Apply(s, SetBlob(id, "", "", true));
            id in t.rows && t.rows[id].status == Pending && t.tickets == s.tickets && KeepsParents(s, t) && t.rows.Keys == s.rows.Keys
  {
  }

  lemma RejectStep(s: State, id: string)
    requires id in s.rows && s.rows[id].status == Pending
    ensures var t := Apply(s, RegenStart(id));
            && id in t.rows && t.rows[id].status == Rejected && t.tickets == s.tickets + multiset{id}
            && KeepsParents(s, t) && t.rows.Keys == s.rows.Keys
  {
  }

  lemma InsertStep(s: State, id: string, child: string)
    requires id in s.rows && id in s.tickets && child !in s.rows && child != ""
    ensures var t := Apply(s, RegenInsert(id, child, "", 0));
            && child in t.rows && t.rows[child].parent == id && id in t.rows
            && t.tickets == s.tickets - multiset{id} && KeepsParents(s, t)
  {
  }

  lemma OnceMoreAdds(s: State, id: string, child: string)
    requires id in s.rows && s.rows[id].status == Generating && child !in s.rows && child != ""
    ensures var t := Run(s, OnceMore(id, child));
            child in t.rows && t.rows[child].parent == id && id in t.rows && t.tickets == s.tickets && KeepsParents(s, t)
  {
    var steps := OnceMore(id, child);
    RunThree(s, steps[0], steps[1], steps[2]);
    var s1 := Apply(s, steps[0]);
    GenerateStep(s, id);
    var s2 := Apply(s1, steps[1]);
    RejectStep(s1, id);
    InsertStep(s2, id, child);
    assert s.tickets + multiset{id} - multiset{id} == s.tickets;
  }

  lemma ForkBesideChild(s: State, id: string, c: string) returns (steps: seq<Step>)
    requires id in s.rows && id != "" && s.rows[id].status == Generating && c in s.rows && s.rows[c].parent == id
    ensures NoResets(steps) && !NoFork(Run(s, steps).rows)
  {
    var x := FreshId(s.rows);
    OnceMoreAdds(s, id, x);
    steps := OnceMore(id, x);
    TwoChildren(Run(s, steps).rows, id, c, x);
  }

  lemma ForkByTicket(s: State, id: string) returns (steps: seq<Step>)
    requires id in s.rows && id != "" && s.rows[id].status == Generating && id in s.tickets
    ensures NoResets(steps) && !NoFork(Run(s, steps).rows)
  {
    var x := FreshId(s.rows);
    OnceMoreAdds(s, id, x);
    var t := Run(s, OnceMore(id, x));
    var y := FreshId(t.rows);
    InsertStep(t, id, y);
    RunSnoc(s, OnceMore(id, x), RegenInsert(id, y, "", 0));
    steps := OnceMore(id, x) + [RegenInsert(id, y, "", 0)];
    TwoChildren(Run(s, steps).rows, id, x, y);
  }

  /** From a regenerated row driven back to generating, one more generation and
      one more Regenerate give its version two successors. */
  lemma ForkAfterReset(s: State, id: string, seen: Status) returns (steps: seq<Step>)
    requires Chained(s) && ResetHits(s.rows, id, seen) && Regenerated(s, id)
    ensures NoResets(steps) && !NoFork(Run(Apply(s, RetryReset(id, seen)), steps).rows)
  {
    ResetStep(s, id, seen);
    if c :| c in s.rows && s.rows[c].parent == id {
      steps := ForkBesideChild(Apply(s, RetryReset(id, seen)), id, c);
    } else {
      steps := ForkByTicket(Apply(s, RetryReset(id, seen)), id);
    }
  }

  lemma ResetStep(s: State, id: string, seen: Status)
    requires ResetHits(s.rows, id, seen)
    ensures var t := Apply(s, RetryReset(id, seen));
            id in t.rows && t.rows[id].status == Generating && t.tickets == s.tickets && KeepsParents(s, t) && t.rows.Keys == s.rows.Keys
  {
  }

  lemma TwoChildren(rows: Rows, p: string, c: string, d: string)
    requires p != "" && c in rows && d in rows && c != d && rows[c].parent == p && rows[d].parent == p
    ensures !NoFork(rows)
  {
  }

  lemma RunThree(s: State, a: Step, b: Step, c: Step)
    ensures Run(s, [a, b, c]) == Apply(Apply(Apply(s, a), b), c)
  {
    assert [a, b, c][1..] == [b, c] && [b, c][1..] == [c] && [c][1..] == [];
    assert Run(s, [a, b, c]) == Run(Apply(s, a), [b, c]);
    assert Run(Apply(s, a), [b, c]) == Run(Apply(Apply(s, a), b), [c]);
  }

  lemma {:induction false} RunSnoc(s: State, steps: seq<Step>, last: Step)
    ensures Run(s, steps + [last]) == Apply(Run(s, steps), last)
    decreases |steps|
  {
    if steps == [] {
      assert steps + [last] == [last] && [last][1..] == [];
    } else {
      assert (steps + [last])[1..] == steps[1..] + [last];
      RunSnoc(Apply(s, steps[0]), steps[1..], last);
    }
  }

  /** The worker's retry reset lets some later run fork the lineage of the row it
      resets exactly when a Regenerate had already claimed that row. */
  lemma ResetForksExactly(s: State, id: string, seen: Status)
    requires Chained(s) && ResetHits(s.rows, id, seen)
    ensures (exists steps :: NoResets(steps) && !NoFork(Run(Apply(s, RetryReset(id, seen)), steps).rows))
            <==> Regenerated(s, id)
  {
    if Regenerated(s, id) {
      var steps := ForkAfterReset(s, id, seen);
    } else {
      var t := Apply(s, RetryReset(id, seen));
      ChainedKept(s, RetryReset(id, seen));
      forall steps | NoResets(steps) ensures NoFork(Run(t, steps).rows) {
        NoResetsAllowed(t, steps);
        ChainedRun(t, steps);
      }
    }
  }

  const FIRST_VERSION := CreateInput("p", "shot", "todo", "image", "prompt", "", Some(Generating))

  const UP_TO_REGENERATE := [Create("v1", FIRST_VERSION, 0), SetBlob("v1", "", "", true), RegenStart("v1")]

  lemma FirstVersionCreated()
    ensures Apply(EMPTY, UP_TO_REGENERATE[0]) == State(map["v1" := NewAsset(FIRST_VERSION, 1, "", 0)], multiset{})
  {
    assert !TodoTaken(EMPTY.rows, "todo");
  }

  lemma RegenerateDuringDispatch()
    ensures var s := Run(EMPTY, UP_TO_REGENERATE);
            Chained(s) && ResetHits(s.rows, "v1", Rejected) && Regenerated(s, "v1")
  {
    FirstVersionCreated();
    var s0 := Apply(EMPTY, UP_TO_REGENERATE[0]);
    var s1 := Apply(s0, UP_TO_REGENERATE[1]);
    GenerateStep(s0, "v1");
    RowKept(s0, UP_TO_REGENERATE[1], "v1");
    RejectStep(s1, "v1");
    RowKept(s1, UP_TO_REGENERATE[2], "v1");
    RunThree(EMPTY, UP_TO_REGENERATE[0], UP_TO_REGENERATE[1], UP_TO_REGENERATE[2]);
    UpToRegenerateChained();
  }

  lemma UpToRegenerateChained()
    ensures Chained(Run(EMPTY, UP_TO_REGENERATE))
  {
    assert NoResets(UP_TO_REGENERATE) && Chained(EMPTY);
    NoResetsAllowed(EMPTY, UP_TO_REGENERATE);
    ChainedRun(EMPTY, UP_TO_REGENERATE);
  }

  /** A reachable instance: the todo's asset is regenerated while its dispatch is
      unfinished, the dispatch is retried, and version 2 exists twice. */
  lemma RetryForksLineage()
    ensures exists steps :: !NoFork(Run(EMPTY, steps).rows)
  {
    RegenerateDuringDispatch();
    var s := Run(EMPTY, UP_TO_REGENERATE);
    var more := ForkAfterReset(s, "v1", Rejected);
    var rest := [RetryReset("v1", Rejected)] + more;
    assert rest[1..] == more;
    RunAppend(EMPTY, UP_TO_REGENERATE, rest);
    assert !NoFork(Run(EMPTY, UP_TO_REGENERATE + rest).rows);
  }

  lemma {:induction false} RunAppend(s: State, a: seq<Step>, b: seq<Step>)
    ensures Run(s, a + b) == Run(Run(s, a), b)
    decreases |a|
  {
    if a == [] {
      assert a + b == b;
    } else {
      assert (a + b)[1..] == a[1..] + b;
      RunAppend(Apply(s, a[0]), a[1..], b);
    }
  }
}
