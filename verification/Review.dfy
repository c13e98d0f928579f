/** Human decisions on pending assets (internal/review/review.go). */
module Review {
  import opened Prelude
  import opened Assets
  import opened Lineage

  datatype ReviewError = MissingAsset | Conflict

  /** The ready asset todo that Regenerate spawns, with the fields of its input. */
  datatype ReadyTodo = ReadyTodo(id: string, project: string, assetId: string, shot: string, shotPrompt: string,
                                 style: string, editedPrompt: string, kind: string)

  function Alone(rows: Rows): State { State(rows, multiset{}) }

  function Decision(id: string, accept: bool): Step { if accept then Accept(id) else Reject(id) }

  lemma DecideEffect(rows: Rows, id: string, accept: bool)
    ensures Apply(Alone(rows), Decision(id, accept)).rows
            == UpdateOne(rows, id, IsStatus(Pending), MoveTo(if accept then Accepted else Rejected))
  {
  }

  lemma StartEffect(rows: Rows, id: string)
    requires Hits(rows, id, IsStatus(Pending))
    ensures Apply(Alone(rows), RegenStart(id)) == State(rows[id := rows[id].(status := Rejected)], multiset{id})
  {
    assert multiset{} + multiset{id} == multiset{id};
  }

  lemma InsertEffect(s: State, id: string, child: string, edited: string, now: int)
    requires id in s.tickets && id in s.rows && child !in s.rows && child != ""
    ensures Apply(s, RegenInsert(id, child, edited, now)).rows
            == s.rows[child := NewAsset(ChildInput(s.rows[id], edited), s.rows[id].version + 1, id, now)]
  {
  }

  /** The table after a Regenerate of `id`: rejected, with its next version. */
  function AfterRegenerate(rows: Rows, id: string, child: string, edited: string, now: int): Rows
    requires id in rows
  {
    rows[id := rows[id].(status := Rejected)][child := NewAsset(ChildInput(rows[id], edited), rows[id].version + 1, id, now)]
  }

  lemma AfterRegenerateIs(rows: Rows, id: string, child: string, edited: string, now: int)
    requires id in rows && child !in rows
    ensures var t := AfterRegenerate(rows, id, child, edited, now);
            && id in t && OnlyStatus(rows[id], t[id], Rejected)
            && child in t && IsNextVersion(t[child], rows[id], id, edited)
            && forall x :: x in rows && x != id ==> x in t && t[x] == rows[x]
  {
  }

  /** These are the two steps of an uninterrupted Regenerate. */
  lemma RegenerateEffect(rows: Rows, id: string, child: string, edited: string, now: int)
    requires Hits(rows, id, IsStatus(Pending)) && child !in rows && child != ""
    ensures Apply(Apply(Alone(rows), RegenStart(id)), RegenInsert(id, child, edited, now)).rows
            == AfterRegenerate(rows, id, child, edited, now)
  {
    StartEffect(rows, id);
    InsertEffect(State(rows[id := rows[id].(status := Rejected)], multiset{id}), id, child, edited, now);
  }

  class ReviewService {
    const assets: AssetStore
    var readyTodos: seq<ReadyTodo>

    constructor (store: AssetStore)
      ensures assets == store && readyTodos == []
    {
      assets, readyTodos := store, [];
    }

    /** Accept and Reject: the table moves as the corresponding step of a run. */
    method Decide(assetId: string, accept: bool) returns (r: Result<(), ReviewError>)
      modifies assets
      ensures assets.rows == Apply(Alone(old(assets.rows)), Decision(assetId, accept)).rows
      ensures r == if Hits(old(assets.rows), assetId, IsStatus(Pending)) then Ok(()) else Err(Conflict)
      ensures r.Ok? ==> old(assets.rows)[assetId].status == Pending
                        && OnlyStatus(old(assets.rows)[assetId], assets.rows[assetId], if accept then Accepted else Rejected)
    {
      DecideEffect(assets.rows, assetId, accept);
      var ok := assets.TransitionStatus(assetId, Pending, if accept then Accepted else Rejected);
      return if ok then Ok(()) else Err(Conflict);
    }

    method SpawnTodo(t: ReadyTodo)
      modifies this
      ensures readyTodos == old(readyTodos) + [t]
    {
      readyTodos := readyTodos + [t];
    }

    /** The two writes of Regenerate; `p` is the parent as it was read. */
    method RejectAndInsert(id: string, p: Asset, edited: string, childId: string, now: int) returns (ok: bool)
      requires id in assets.rows && assets.rows[id] == p && childId !in assets.rows
      modifies assets
      ensures ok == (p.status == Pending)
      ensures assets.rows == if ok then AfterRegenerate(old(assets.rows), id, childId, edited, now) else old(assets.rows)
    {
      ok := assets.TransitionStatus(id, Pending, Rejected);
      if ok {
        var prompt := if edited == "" then p.prompt else edited;
        var child := assets.CreateVersion(childId, id,
          CreateInput(p.project, p.shot, "", p.kind, prompt, p.style, Some(Generating)), now);
      }
    }

    /** Rejects the pending version, inserts the next one and spawns its todo.
        The two writes are the two steps of a run; other steps may fall between
        them there, none does in this call. */
    method Regenerate(assetId: string, edited: string, childId: string, todoId: string, now: int)
      returns (r: Result<(string, string), ReviewError>)
      requires childId !in assets.rows && childId != ""
      modifies this, assets
      ensures r == if assetId !in old(assets.rows) then Err(MissingAsset)
                   else if old(assets.rows)[assetId].status != Pending then Err(Conflict)
                   else Ok((childId, todoId))
      ensures r.Err? ==> assets.rows == old(assets.rows) && readyTodos == old(readyTodos)
      ensures r.Ok? ==>
                && assetId in assets.rows && OnlyStatus(old(assets.rows)[assetId], assets.rows[assetId], Rejected)
                && childId in assets.rows && IsNextVersion(assets.rows[childId], old(assets.rows)[assetId], assetId, edited)
                && forall id :: id in old(assets.rows) && id != assetId ==> id in assets.rows && assets.rows[id] == old(assets.rows)[id]
      ensures r.Ok? ==>
                assets.rows == Apply(Apply(Alone(old(assets.rows)), RegenStart(assetId)),
                                     RegenInsert(assetId, childId, edited, now)).rows
      ensures r.Ok? ==>
                var p := old(assets.rows)[assetId];
                readyTodos == old(readyTodos) + [ReadyTodo(todoId, p.project, childId, p.shot, p.prompt, p.style,
                                                          if edited == "" then p.prompt else edited, p.kind)]
    {
      var parent := assets.Get(assetId);
      if parent.Err? {
        return Err(MissingAsset);
      }
      var p := parent.value;
      var ok := RejectAndInsert(assetId, p, edited, childId, now);
      if !ok {
        return Err(Conflict);
      }
      RegenerateEffect(old(assets.rows), assetId, childId, edited, now);
      AfterRegenerateIs(old(assets.rows), assetId, childId, edited, now);
      var prompt := if edited == "" then p.prompt else edited;
      SpawnTodo(ReadyTodo(todoId, p.project, childId, p.shot, p.prompt, p.style, prompt, p.kind));
      return Ok((childId, todoId));
    }
  }
}
