/** The cached model lookups of internal/models, which replace SQL queries with
    an ORDER BY: each loop must choose what the query would have put first. */
module ModelPick {
  import opened Prelude
  import opened StableSort

  datatype Row = Row(id: string, orgId: string, kind: string, provider: string, model: string,
                     enabled: bool, isDefault: bool, createdAt: int)

  /** `ORDER BY is_default DESC, created_at DESC`: `a` strictly before `b`. */
  predicate NamedBetter(a: Row, b: Row) {
    if a.isDefault != b.isDefault then a.isDefault else a.createdAt > b.createdAt
  }

  predicate Newer(a: Row, b: Row) { a.createdAt > b.createdAt }

  predicate IsDefaultOf(r: Row, org: string, kind: string) {
    r.orgId == org && r.kind == kind && r.enabled && r.isDefault
  }

  predicate IsNamed(r: Row, org: string, kind: string, provider: string, model: string) {
    r.orgId == org && r.kind == kind && r.provider == provider && r.model == model && r.enabled
  }

  /** An enabled row of the org for the model. */
  predicate IsModel(r: Row, org: string, kind: string, provider: string, model: string) {
    r.enabled && r.orgId == org && r.kind == kind && r.provider == provider && r.model == model
  }

  /** Row `k`, which is `best`, is the first of the org's defaults that none is newer than. */
  ghost predicate TopDefault(rows: seq<Row>, org: string, kind: string, best: Row, k: nat) {
    && k < |rows| && rows[k] == best && IsDefaultOf(best, org, kind)
    && (forall j :: 0 <= j < |rows| && IsDefaultOf(rows[j], org, kind) ==> !Newer(rows[j], best))
    && (forall j :: 0 <= j < k && IsDefaultOf(rows[j], org, kind) ==> Newer(best, rows[j]))
  }

  /** The same for the rows of one model, under `NamedBetter`. */
  ghost predicate TopNamed(rows: seq<Row>, org: string, kind: string, provider: string, model: string, best: Row, k: nat) {
    && k < |rows| && rows[k] == best && IsNamed(best, org, kind, provider, model)
    && (forall j :: 0 <= j < |rows| && IsNamed(rows[j], org, kind, provider, model) ==> !NamedBetter(rows[j], best))
    && (forall j :: 0 <= j < k && IsNamed(rows[j], org, kind, provider, model) ==> NamedBetter(best, rows[j]))
  }

  method PickCachedDefault(rows: seq<Row>, org: string, kind: string) returns (best: Option<Row>)
    ensures best.None? <==> forall j :: 0 <= j < |rows| ==> !IsDefaultOf(rows[j], org, kind)
    ensures best.Some? ==> exists k: nat :: TopDefault(rows, org, kind, best.value, k)
    ensures best.None? <==> forall r :: r in rows ==> !(r.orgId == org && r.kind == kind && r.enabled && r.isDefault)
    ensures best.Some? ==>
              && best.value in rows && best.value.orgId == org && best.value.kind == kind && best.value.enabled && best.value.isDefault
              && forall r :: r in rows && r.orgId == org && r.kind == kind && r.enabled && r.isDefault ==> r.createdAt <= best.value.createdAt
  {
    best := None;
    ghost var k := 0;
    for i := 0 to |rows|
      invariant best.None? ==> forall j :: 0 <= j < i ==> !IsDefaultOf(rows[j], org, kind)
      invariant best.Some? ==> 0 <= k < i && rows[k] == best.value && IsDefaultOf(rows[k], org, kind)
      invariant best.Some? ==> forall j :: 0 <= j < i && IsDefaultOf(rows[j], org, kind) ==> rows[j].createdAt <= rows[k].createdAt
      invariant best.Some? ==> forall j :: 0 <= j < k && IsDefaultOf(rows[j], org, kind) ==> rows[k].createdAt > rows[j].createdAt
    {
      var r := rows[i];
      if !(r.orgId != org || r.kind != kind || !r.enabled || !r.isDefault) {
        if best.None? || r.createdAt > best.value.createdAt {
          best, k := Some(r), i;
        }
      }
    }
    assert best.Some? ==> TopDefault(rows, org, kind, best.value, k);
  }

  method PickCachedNamed(rows: seq<Row>, org: string, kind: string, provider: string, model: string) returns (best: Option<Row>)
    ensures best.None? <==> forall j :: 0 <= j < |rows| ==> !IsNamed(rows[j], org, kind, provider, model)
    ensures best.Some? ==> exists k: nat :: TopNamed(rows, org, kind, provider, model, best.value, k)
    ensures best.None? <==> forall r :: r in rows ==> !IsModel(r, org, kind, provider, model)
    ensures best.Some? ==>
              && best.value in rows && IsModel(best.value, org, kind, provider, model)
              && (!best.value.isDefault ==> forall r :: r in rows && IsModel(r, org, kind, provider, model) ==> !r.isDefault)
              && forall r :: r in rows && IsModel(r, org, kind, provider, model) && r.isDefault == best.value.isDefault ==>
                   r.createdAt <= best.value.createdAt
  {
    best := None;
    ghost var k := 0;
    for i := 0 to |rows|
      invariant best.None? ==> forall j :: 0 <= j < i ==> !IsNamed(rows[j], org, kind, provider, model)
      invariant best.Some? ==> 0 <= k < i && rows[k] == best.value && IsNamed(rows[k], org, kind, provider, model)
      invariant best.Some? ==> forall j :: 0 <= j < i && IsNamed(rows[j], org, kind, provider, model) ==> !NamedBetter(rows[j], rows[k])
      invariant best.Some? ==> forall j :: 0 <= j < k && IsNamed(rows[j], org, kind, provider, model) ==> NamedBetter(rows[k], rows[j])
    {
      var r := rows[i];
      if !(r.orgId != org || r.kind != kind || r.provider != provider || r.model != model || !r.enabled) {
        if best.None? || NamedBetter(r, best.value) {
          best, k := Some(r), i;
        }
      }
    }
    assert best.Some? ==> TopNamed(rows, org, kind, provider, model, best.value, k);
    forall r | r in rows && IsModel(r, org, kind, provider, model)
      ensures best.Some? && !NamedBetter(r, best.value)
    {
      var j :| 0 <= j < |rows| && rows[j] == r;
      assert IsNamed(rows[j], org, kind, provider, model);
    }
  }

  // ---------------------------------------------------------------------
  // ORDER BY created_at DESC
  // ---------------------------------------------------------------------

  /** The rows created at `time`, in their order. */
  function At(s: seq<Row>, time: int): seq<Row> {
    if s == [] then [] else At(s[..|s| - 1], time) + if s[|s| - 1].createdAt == time then [s[|s| - 1]] else []
  }

  lemma NewerOrders()
    ensures Orders(Newer)
  {
  }

  lemma {:induction false} InsertKeeps(s: seq<Row>, x: Row, time: int)
    requires Ascending(s, Newer)
    ensures At(Insert(s, x, Newer), time) == At(s, time) + if x.createdAt == time then [x] else []
  {
    if s != [] && Newer(x, s[|s| - 1]) {
      var front, last := s[..|s| - 1], s[|s| - 1];
      InsertKeeps(front, x, time);
      var t := Insert(front, x, Newer);
      assert (t + [last])[..|t|] == t && (t + [last])[|t|] == last;
      if x.createdAt == time {
        assert At(t + [last], time) == At(t, time) + [];
        assert At(s, time) == At(front, time) + [];
      }
    } else {
      assert (s + [x])[..|s|] == s;
    }
  }

  /** The rows come newest first, and for every time the rows of that time are all
      there and in their old order: a stable permutation, one that ORDER BY
      created_at DESC may return. */
  lemma {:induction false} SortedIsOrderBy(s: seq<Row>)
    ensures forall i, j :: 0 <= i < j < |Sorted(s, Newer)| ==> Sorted(s, Newer)[i].createdAt >= Sorted(s, Newer)[j].createdAt
    ensures |Sorted(s, Newer)| == |s| && forall time :: At(Sorted(s, Newer), time) == At(s, time)
  {
    NewerOrders();
    SortedAscends(s, Newer);
    SortedElements(s, Newer);
    forall i, j | 0 <= i < j < |Sorted(s, Newer)| ensures Sorted(s, Newer)[i].createdAt >= Sorted(s, Newer)[j].createdAt {
      assert !Newer(Sorted(s, Newer)[j], Sorted(s, Newer)[i]);
    }
    if s != [] {
      var front := s[..|s| - 1];
      SortedIsOrderBy(front);
      SortedAscends(front, Newer);
      forall time ensures At(Sorted(s, Newer), time) == At(s, time) {
        InsertKeeps(Sorted(front, Newer), s[|s| - 1], time);
      }
    }
  }

  method SortByCreatedDesc(rows: array<Row>)
    modifies rows
    ensures rows[..] == Sorted(old(rows[..]), Newer)
  {
    ghost var was := rows[..];
    if rows.Length == 0 { return; }
    assert was[..1][..0] == [] && was[..1] == [was[0]] && Sorted(was[..0], Newer) == [];
    var i := 1;
    while i < rows.Length
      invariant 1 <= i <= rows.Length
      invariant rows[..i] == Sorted(was[..i], Newer) && rows[i..] == was[i..]
    {
      InsertAt(rows, i, was);
      i := i + 1;
    }
    assert was[..rows.Length] == was && rows[..rows.Length] == rows[..];
  }

  /** The inner loop: row `i` sinks to its place among the first `i`. */
  method InsertAt(rows: array<Row>, i: nat, ghost was: seq<Row>)
    requires 1 <= i < rows.Length == |was|
    requires rows[..i] == Sorted(was[..i], Newer) && rows[i..] == was[i..]
    modifies rows
    ensures rows[..i + 1] == Sorted(was[..i + 1], Newer) && rows[i + 1..] == was[i + 1..]
  {
    HeadAndTail(rows[i..], was, i);
    assert rows[i..][0] == rows[i] && rows[i..][1..] == rows[i + 1..];
    Sink(rows, i);
    SortedSnoc(was, i);
  }

  lemma HeadAndTail(rest: seq<Row>, was: seq<Row>, i: nat)
    requires i < |was| && rest == was[i..]
    ensures rest[0] == was[i] && rest[1..] == was[i + 1..]
  {
  }

  lemma SortedSnoc(was: seq<Row>, i: nat)
    requires i < |was|
    ensures Sorted(was[..i + 1], Newer) == Insert(Sorted(was[..i], Newer), was[i], Newer)
  {
    assert was[..i + 1][..i] == was[..i];
  }

  /** `was` with row `i` moved down to `j`. */
  predicate Moved(t: seq<Row>, was: seq<Row>, i: nat, j: nat) {
    j <= i < |was| && t == was[..j] + [was[i]] + was[j..i] + was[i + 1..]
  }

  lemma MoveStep(t: seq<Row>, was: seq<Row>, i: nat, j: nat)
    requires 0 < j && Moved(t, was, i, j)
    ensures t[j] == was[i] && t[j - 1] == was[j - 1] && Moved(t[j := t[j - 1]][j - 1 := t[j]], was, i, j - 1)
  {
    assert was[..j] == was[..j - 1] + [was[j - 1]];
    assert [was[j - 1]] + was[j..i] == was[j - 1..i];
  }

  lemma MoveDone(t: seq<Row>, was: seq<Row>, i: nat, j: nat)
    requires Moved(t, was, i, j) && (j == 0 || !Newer(was[i], was[j - 1]))
    requires forall k :: j <= k < i ==> Newer(was[i], was[k])
    ensures t[..i + 1] == Insert(was[..i], was[i], Newer) && t[i + 1..] == was[i + 1..]
  {
    var s := was[..i];
    InsertUnrolls(s, was[i], Newer, j);
    assert s[..j] == was[..j] && s[j..] == was[j..i];
    assert j > 0 ==> s[..j][j - 1] == was[j - 1];
    assert t[..i + 1] == s[..j] + [was[i]] + s[j..];
  }

  method Sink(rows: array<Row>, i: nat)
    requires 1 <= i < rows.Length
    modifies rows
    ensures rows[..i + 1] == Insert(old(rows[..i]), old(rows[i]), Newer) && rows[i + 1..] == old(rows[i + 1..])
  {
    ghost var was := rows[..];
    assert was[..i] == rows[..i];
    var j := i;
    while j > 0 && rows[j].createdAt > rows[j - 1].createdAt
      invariant 0 <= j <= i && Moved(rows[..], was, i, j)
      invariant forall k :: j <= k < i ==> Newer(was[i], was[k])
    {
      MoveStep(rows[..], was, i, j);
      ghost var t := rows[..];
      rows[j], rows[j - 1] := rows[j - 1], rows[j];
      assert rows[..] == t[j := t[j - 1]][j - 1 := t[j]];
      j := j - 1;
    }
    if j > 0 { MoveStep(rows[..], was, i, j); }
    MoveDone(rows[..], was, i, j);
    assert rows[..][..i + 1] == rows[..i + 1] && rows[..][i + 1..] == rows[i + 1..];
  }
}
