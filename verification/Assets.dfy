/** The assets table and the guarded writes on it (internal/assets/store.go, with
    the sweeps of internal/project, internal/health and the worker's retry reset). */
module Assets {
  import opened Prelude

  datatype Status = Generating | Submitted | Pending | Accepted | Rejected | Failed | Canceled

  datatype Asset = Asset(
    project: string, shot: string, todo: string, kind: string, prompt: string, style: string,
    status: Status, version: int, parent: string,
    blobKey: string, url: string, provider: string, model: string, configId: string,
    externalJob: string, createdAt: int, submittedAt: Option<int>)

  /** The columns a caller supplies on insert. */
  datatype CreateInput = CreateInput(project: string, shot: string, todo: string, kind: string,
                                     prompt: string, style: string, status: Option<Status>)

  type Rows = map<string, Asset>

  // ---------------------------------------------------------------------
  // One guarded UPDATE or INSERT as a function on the table
  // ---------------------------------------------------------------------

  predicate InFlight(s: Status) { s.Generating? || s.Submitted? }

  /** `UPDATE assets SET status=to WHERE guard`. */
  function UpdateStatus(rows: Rows, guard: Asset -> bool, to: Status): (r: Rows)
    ensures r.Keys == rows.Keys
  {
    map id | id in rows :: if guard(rows[id]) then rows[id].(status := to) else rows[id]
  }

  function Affected(rows: Rows, guard: Asset -> bool): set<string> {
    set id | id in rows && guard(rows[id])
  }

  /** The same for one row: `WHERE id=$1 AND guard`. */
  function UpdateOne(rows: Rows, id: string, guard: Asset -> bool, change: Asset -> Asset): (r: Rows)
    ensures r.Keys == rows.Keys
  {
    if id in rows && guard(rows[id]) then rows[id := change(rows[id])] else rows
  }

  predicate Hits(rows: Rows, id: string, guard: Asset -> bool) { id in rows && guard(rows[id]) }

  function NewAsset(in_: CreateInput, version: int, parent: string, now: int): Asset {
    Asset(in_.project, in_.shot, in_.todo, if in_.kind == "" then "image" else in_.kind, in_.prompt, in_.style,
          if in_.status.Some? then in_.status.value else Generating, version, parent,
          "", "", "", "", "", "", now, None)
  }

  /** The partial unique index: at most one row per non-empty todo id. */
  predicate TodoTaken(rows: Rows, todo: string) {
    todo != "" && exists id :: id in rows && rows[id].todo == todo
  }

  function Inserted(rows: Rows, id: string, a: Asset): Rows {
    if TodoTaken(rows, a.todo) then rows else rows[id := a]
  }

  function FillBlob(blobKey: string, url: string, provider: string, model: string, configId: string, to: Status): Asset -> Asset {
    (a: Asset) => a.(blobKey := blobKey, url := url, provider := provider, model := model, configId := configId, status := to)
  }

  function IsStatus(from: Status): Asset -> bool { (a: Asset) => a.status == from }

  function MoveTo(to: Status): Asset -> Asset { (a: Asset) => a.(status := to) }

  function IsInFlight(): Asset -> bool { (a: Asset) => InFlight(a.status) }

  function Submit(job: string, now: int): Asset -> Asset {
    (a: Asset) => a.(status := Submitted, externalJob := job, submittedAt := Some(now))
  }

  predicate IsStale(a: Asset, cutoff: int) {
    a.status.Submitted? && a.submittedAt.Some? && a.submittedAt.value < cutoff
  }

  function StaleSubmitted(cutoff: int): Asset -> bool { (a: Asset) => IsStale(a, cutoff) }

  function OfProjectInFlight(project: string): Asset -> bool {
    (a: Asset) => a.project == project && InFlight(a.status)
  }

  /** The `stuck_assets` repair. */
  function Stuck(cutoff: int): Asset -> bool {
    (a: Asset) => (a.status.Generating? && a.createdAt < cutoff) || IsStale(a, cutoff)
  }

  /** The `failed_todo_live_assets` repair, for the ids of failed todos. */
  function LiveOfFailedTodo(failed: set<string>): Asset -> bool {
    (a: Asset) => a.todo in failed && (InFlight(a.status) || a.status.Pending?)
  }

  // ---------------------------------------------------------------------
  // The store
  // ---------------------------------------------------------------------

  datatype StoreError = NotFound | InsertConflict | TodoIdRequired

  // The columns of single rows, for the contracts below.

  /** A fresh row: the caller's columns, a kind and a status in any case, and
      nothing generated yet. */
  predicate IsNew(a: Asset, in_: CreateInput, version: int, parent: string, now: int) {
    && a.project == in_.project && a.shot == in_.shot && a.todo == in_.todo && a.prompt == in_.prompt && a.style == in_.style
    && (in_.kind != "" ==> a.kind == in_.kind) && (in_.kind == "" ==> a.kind == "image")
    && (in_.status.None? ==> a.status == Generating) && (in_.status.Some? ==> a.status == in_.status.value)
    && a.version == version && a.parent == parent && a.createdAt == now
    && NothingGenerated(a)
  }

  predicate NothingGenerated(a: Asset) {
    && a.blobKey == "" && a.url == "" && a.provider == "" && a.model == "" && a.configId == ""
    && a.externalJob == "" && a.submittedAt.None?
  }

  /** What an asset is, apart from its status and what was generated for it. */
  predicate SameOrder(a: Asset, b: Asset) {
    && a.project == b.project && a.shot == b.shot && a.todo == b.todo && a.kind == b.kind && a.prompt == b.prompt
    && a.style == b.style && a.version == b.version && a.parent == b.parent && a.createdAt == b.createdAt
  }

  predicate SameOutput(a: Asset, b: Asset) {
    a.blobKey == b.blobKey && a.url == b.url && a.provider == b.provider && a.model == b.model && a.configId == b.configId
  }

  predicate SameJob(a: Asset, b: Asset) { a.externalJob == b.externalJob && a.submittedAt == b.submittedAt }

  /** `b` is `a` with another status. */
  predicate OnlyStatus(a: Asset, b: Asset, to: Status) {
    SameOrder(a, b) && SameOutput(a, b) && SameJob(a, b) && b.status == to
  }

  lemma NewColumns(in_: CreateInput, version: int, parent: string, now: int)
    ensures IsNew(NewAsset(in_, version, parent, now), in_, version, parent, now)
  {
  }

  lemma MoveEffect(rows: Rows, id: string, from: Status, to: Status)
    ensures Hits(rows, id, IsStatus(from)) <==> id in rows && rows[id].status == from
    ensures UpdateOne(rows, id, IsStatus(from), MoveTo(to))
            == if id in rows && rows[id].status == from then rows[id := rows[id].(status := to)] else rows
    ensures forall a: Asset :: OnlyStatus(a, a.(status := to), to)
  {
  }

  class AssetStore {
    var rows: Rows

    constructor ()
      ensures rows == map[]
    {
      rows := map[];
    }

    method Get(id: string) returns (r: Result<Asset, StoreError>)
      ensures r == if id in rows then Ok(rows[id]) else Err(NotFound)
    {
      r := if id in rows then Ok(rows[id]) else Err(NotFound);
    }

    /** The common insert; `newId` is the random id, which no row has yet. */
    method Insert(newId: string, in_: CreateInput, version: int, parent: string, now: int)
      returns (r: Result<Asset, StoreError>)
      requires newId !in rows
      modifies this
      ensures rows == Inserted(old(rows), newId, NewAsset(in_, version, parent, now))
      ensures r == if TodoTaken(old(rows), in_.todo) then Err(InsertConflict) else Ok(NewAsset(in_, version, parent, now))
      ensures r.Ok? ==> newId in rows && rows[newId] == r.value && IsNew(r.value, in_, version, parent, now)
    {
      NewColumns(in_, version, parent, now);
      var a := NewAsset(in_, version, parent, now);
      if TodoTaken(rows, a.todo) {
        return Err(InsertConflict);
      }
      rows := rows[newId := a];
      return Ok(a);
    }

    method Create(newId: string, in_: CreateInput, now: int) returns (r: Result<Asset, StoreError>)
      requires newId !in rows
      modifies this
      ensures rows == Inserted(old(rows), newId, NewAsset(in_, 1, "", now))
      ensures r.Ok? <==> !TodoTaken(old(rows), in_.todo)
    {
      r := Insert(newId, in_, 1, "", now);
    }

    method CreateVersion(newId: string, parentId: string, in_: CreateInput, now: int) returns (r: Result<Asset, StoreError>)
      requires newId !in rows
      modifies this
      ensures rows == if parentId in old(rows)
                      then Inserted(old(rows), newId, NewAsset(in_, old(rows)[parentId].version + 1, parentId, now))
                      else old(rows)
      ensures r.Ok? <==> parentId in old(rows) && !TodoTaken(old(rows), in_.todo)
      ensures parentId !in old(rows) ==> r == Err(NotFound)
      ensures r.Ok? ==> newId in rows && IsNew(rows[newId], in_, old(rows)[parentId].version + 1, parentId, now)
    {
      var parent := Get(parentId);
      if parent.Err? {
        return Err(parent.error);
      }
      r := Insert(newId, in_, parent.value.version + 1, parentId, now);
    }

    /** Returns whether this call is the one that moved the row on. */
    method SetBlob(id: string, blobKey: string, url: string, provider: string, model: string, configId: string, to: Status)
      returns (won: bool)
      modifies this
      ensures rows == UpdateOne(old(rows), id, IsInFlight(), FillBlob(blobKey, url, provider, model, configId, to))
      ensures won == Hits(old(rows), id, IsInFlight())
      ensures won ==>
                var a, b := old(rows)[id], rows[id];
                && (a.status == Generating || a.status == Submitted) && b.status == to && SameOrder(a, b) && SameJob(a, b)
                && b.blobKey == blobKey && b.url == url && b.provider == provider && b.model == model && b.configId == configId
    {
      won := id in rows && InFlight(rows[id].status);
      if won {
        rows := rows[id := FillBlob(blobKey, url, provider, model, configId, to)(rows[id])];
      }
    }

    /** The compare-and-set every human decision goes through. */
    method TransitionStatus(id: string, from: Status, to: Status) returns (ok: bool)
      modifies this
      ensures rows == UpdateOne(old(rows), id, IsStatus(from), MoveTo(to))
      ensures ok == Hits(old(rows), id, IsStatus(from))
      ensures ok ==> old(rows)[id].status == from && OnlyStatus(old(rows)[id], rows[id], to)
    {
      MoveEffect(rows, id, from, to);
      ok := id in rows && rows[id].status == from;
      if ok {
        rows := rows[id := rows[id].(status := to)];
      }
    }

    method SetSubmitted(id: string, job: string, now: int)
      modifies this
      ensures rows == UpdateOne(old(rows), id, IsStatus(Generating), Submit(job, now))
      ensures id in old(rows) && old(rows)[id].status == Generating ==>
                && SameOrder(old(rows)[id], rows[id]) && SameOutput(old(rows)[id], rows[id])
                && rows[id].status == Submitted && rows[id].externalJob == job && rows[id].submittedAt == Some(now)
    {
      if id in rows && rows[id].status == Generating {
        rows := rows[id := Submit(job, now)(rows[id])];
      }
    }

    method SetAsyncFailed(id: string)
      modifies this
      ensures rows == UpdateOne(old(rows), id, IsInFlight(), MoveTo(Failed))
      ensures id in old(rows) && (old(rows)[id].status == Generating || old(rows)[id].status == Submitted) ==>
                OnlyStatus(old(rows)[id], rows[id], Failed)
    {
      if id in rows && InFlight(rows[id].status) {
        rows := rows[id := rows[id].(status := Failed)];
      }
    }

    /** Any status update over a set of rows; reports how many it changed. */
    method Sweep(guard: Asset -> bool, to: Status) returns (n: nat)
      modifies this
      ensures rows == UpdateStatus(old(rows), guard, to) && n == |Affected(old(rows), guard)|
      ensures forall id :: id in rows ==>
                if guard(old(rows)[id]) then OnlyStatus(old(rows)[id], rows[id], to) else rows[id] == old(rows)[id]
    {
      n := |Affected(rows, guard)|;
      rows := UpdateStatus(rows, guard, to);
    }

    method ReapStaleSubmitted(cutoff: int) returns (n: nat)
      modifies this
      ensures rows == UpdateStatus(old(rows), StaleSubmitted(cutoff), Failed)
      ensures n == |Affected(old(rows), StaleSubmitted(cutoff))|
      ensures forall id :: id in rows ==>
                var a := old(rows)[id];
                if a.status == Submitted && a.submittedAt.Some? && a.submittedAt.value < cutoff then OnlyStatus(a, rows[id], Failed)
                else rows[id] == a
    {
      n := Sweep(StaleSubmitted(cutoff), Failed);
    }

    /** The row of a todo, created when there is none yet. */
    method GetOrCreateForTodo(newId: string, in_: CreateInput, now: int) returns (r: Result<string, StoreError>)
      requires newId !in rows
      modifies this
      ensures in_.todo == "" ==> r == Err(TodoIdRequired) && rows == old(rows)
      ensures in_.todo != "" ==> r.Ok? && r.value in rows && rows[r.value].todo == in_.todo
      ensures TodoTaken(old(rows), in_.todo) ==> rows == old(rows)
      ensures in_.todo != "" && !TodoTaken(old(rows), in_.todo) ==>
                r == Ok(newId) && rows == old(rows)[newId := NewAsset(in_, 1, "", now)] && IsNew(rows[newId], in_, 1, "", now)
    {
      if in_.todo == "" {
        return Err(TodoIdRequired);
      }
      if id :| id in rows && rows[id].todo == in_.todo {
        return Ok(id);
      }
      var _ := Create(newId, in_, now);
      return Ok(newId);
    }

    /** The worker's `createAsset`: reuse the todo's row and drive it back to
        generating, by compare-and-set against the status it was read with. */
    method CreateForDispatch(newId: string, in_: CreateInput, now: int) returns (r: Result<string, StoreError>)
      requires newId !in rows && in_.todo != "" && in_.status == Some(Generating)
      modifies this
      ensures r.Ok? && r.value in rows && rows[r.value].todo == in_.todo && rows[r.value].status == Generating
      ensures TodoTaken(old(rows), in_.todo) ==>
                r.value in old(rows)
                && rows == UpdateOne(old(rows), r.value, IsStatus(old(rows)[r.value].status), MoveTo(Generating))
                && OnlyStatus(old(rows)[r.value], rows[r.value], Generating)
      ensures !TodoTaken(old(rows), in_.todo) ==> r == Ok(newId) && IsNew(rows[newId], in_, 1, "", now)
      ensures forall id :: id in old(rows) && Ok(id) != r ==> id in rows && rows[id] == old(rows)[id]
    {
      r := GetOrCreateForTodo(newId, in_, now);
      var seen := rows[r.value].status;
      if seen != Generating {
        var _ := TransitionStatus(r.value, seen, Generating);
      }
    }
  }
}
