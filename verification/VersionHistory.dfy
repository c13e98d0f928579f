/** `VersionHistory`: the recursive query up and down the parent column, and the
    chain it lists (internal/assets/store.go). */
module VersionHistory {
  import opened Assets
  import opened Lineage

  function Ids(h: seq<string>): set<string> { set x | x in h }

  ghost predicate WellLinked(rows: Rows) {
    "" !in rows && forall c {:trigger Linked(rows, c)} :: c in rows ==> Linked(rows, c)
  }

  /** The ids from the first version to `id`, following the parent column. */
  ghost function Ancestry(rows: Rows, id: string): seq<string>
    requires WellLinked(rows) && id in rows
    decreases rows[id].version
  {
    assert Linked(rows, id);
    if rows[id].parent == "" then [id]
    else assert Linked(rows, rows[id].parent); Ancestry(rows, rows[id].parent) + [id]
  }

  /** Consecutive versions: `path` starts at a first version and each entry is the
      next version of the one before. */
  predicate IsPath(rows: Rows, path: seq<string>) {
    && path != []
    && (forall k :: 0 <= k < |path| ==> path[k] in rows && rows[path[k]].version == k + 1)
    && rows[path[0]].parent == ""
    && forall k :: 1 <= k < |path| ==> FollowsAt(rows, path, k)
  }

  /** Entry `k` has the entry before it as its parent. */
  predicate FollowsAt(rows: Rows, path: seq<string>, k: int) {
    1 <= k < |path| && path[k] in rows && rows[path[k]].parent == path[k - 1]
  }

  lemma {:induction false} AncestryShape(rows: Rows, id: string)
    requires WellLinked(rows) && id in rows
    ensures var a := Ancestry(rows, id);
            IsPath(rows, a) && |a| == rows[id].version && a[|a| - 1] == id
    decreases rows[id].version
  {
    assert Linked(rows, id);
    if rows[id].parent != "" {
      AncestryShape(rows, rows[id].parent);
      PathExtends(rows, Ancestry(rows, rows[id].parent), id);
    }
  }

  lemma PathExtends(rows: Rows, path: seq<string>, id: string)
    requires IsPath(rows, path) && id in rows && rows[id].parent == path[|path| - 1] && rows[id].version == |path| + 1
    ensures IsPath(rows, path + [id])
  {
    var all := path + [id];
    forall k | 1 <= k < |all| ensures FollowsAt(rows, all, k) {
      if k < |path| { assert FollowsAt(rows, path, k); }
    }
  }

  lemma PathFront(rows: Rows, path: seq<string>)
    requires IsPath(rows, path) && |path| > 1
    ensures IsPath(rows, path[..|path| - 1])
  {
    var front := path[..|path| - 1];
    forall k | 1 <= k < |front| ensures FollowsAt(rows, front, k) {
      assert FollowsAt(rows, path, k);
    }
  }

  lemma {:induction false} AncestryOfAncestor(rows: Rows, id: string, k: nat)
    requires WellLinked(rows) && id in rows && k < |Ancestry(rows, id)|
    ensures Ancestry(rows, id)[k] in rows && Ancestry(rows, Ancestry(rows, id)[k]) == Ancestry(rows, id)[..k + 1]
    decreases rows[id].version
  {
    var a := Ancestry(rows, id);
    AncestryShape(rows, id);
    assert Linked(rows, id);
    if k == |a| - 1 {
      assert a[..k + 1] == a;
    } else {
      var b := Ancestry(rows, rows[id].parent);
      AncestryOfAncestor(rows, rows[id].parent, k);
      assert a[k] == b[k] && a[..k + 1] == b[..k + 1];
    }
  }

  ghost function Root(rows: Rows, id: string): string
    requires WellLinked(rows) && id in rows
  {
    AncestryShape(rows, id);
    Ancestry(rows, id)[0]
  }

  /** What the two recursive queries select: ancestors and descendants of `id`. */
  ghost function Related(rows: Rows, id: string): set<string>
    requires WellLinked(rows) && id in rows
  {
    set x | x in rows && (x in Ancestry(rows, id) || id in Ancestry(rows, x))
  }

  // ---------------------------------------------------------------------
  // The query
  // ---------------------------------------------------------------------

  /** Along a path the parent of an entry is the entry before it; the first has none. */
  lemma ParentBefore(rows: Rows, a: seq<string>, k: nat)
    requires WellLinked(rows) && IsPath(rows, a) && k < |a|
    ensures rows[a[k]].parent in rows <==> k > 0
    ensures k > 0 ==> rows[a[k]].parent == a[k - 1]
  {
    assert k > 0 ==> FollowsAt(rows, a, k);
  }

  /** `WITH RECURSIVE up`. */
  method SelectUp(rows: Rows, id: string) returns (up: set<string>)
    requires WellLinked(rows) && id in rows
    ensures up == Ids(Ancestry(rows, id))
  {
    var cur := id;
    up := {id};
    ghost var a := Ancestry(rows, id);
    AncestryShape(rows, id);
    ghost var k := |a| - 1;
    assert a[k..] == [id];
    while rows[cur].parent in rows
      invariant 0 <= k < |a| && cur == a[k] && cur in rows
      invariant up == Ids(a[k..])
      decreases k
    {
      ParentBefore(rows, a, k);
      cur := rows[cur].parent;
      up := up + {cur};
      k := k - 1;
      assert a[k..] == [a[k]] + a[k + 1..];
    }
    ParentBefore(rows, a, k);
    assert a[0..] == a;
  }

  /** The descendants of `id` (itself included) up to a version. */
  ghost function DescendantsTo(rows: Rows, id: string, version: int): set<string>
    requires WellLinked(rows) && id in rows
  {
    set x | x in rows && id in Ancestry(rows, x) && rows[x].version <= version
  }

  ghost function DescendantsAt(rows: Rows, id: string, version: int): set<string>
    requires WellLinked(rows) && id in rows
  {
    set x | x in rows && id in Ancestry(rows, x) && rows[x].version == version
  }

  lemma SelfFirst(rows: Rows, id: string, x: string)
    requires WellLinked(rows) && id in rows && x in rows && id in Ancestry(rows, x)
    ensures rows[id].version <= rows[x].version && (rows[id].version == rows[x].version ==> x == id)
  {
    AncestryShape(rows, x);
    var k :| 0 <= k < |Ancestry(rows, x)| && Ancestry(rows, x)[k] == id;
  }

  lemma ChildrenOfLevel(rows: Rows, id: string, version: int)
    requires WellLinked(rows) && id in rows && version >= rows[id].version
    ensures (set c | c in rows && rows[c].parent in DescendantsAt(rows, id, version))
         == DescendantsAt(rows, id, version + 1)
  {
    forall c | c in rows
      ensures rows[c].parent in DescendantsAt(rows, id, version) <==> c in DescendantsAt(rows, id, version + 1)
    {
      assert Linked(rows, c);
      AncestryShape(rows, c);
      if rows[c].parent != "" {
        var b := Ancestry(rows, rows[c].parent);
        assert Ancestry(rows, c) == b + [c];
      } else {
        assert Ancestry(rows, c) == [c];
      }
      if c in DescendantsAt(rows, id, version + 1) { assert c != id; }
    }
  }

  lemma LevelReached(rows: Rows, id: string, x: string, version: int)
    requires WellLinked(rows) && id in rows && x in rows && id in Ancestry(rows, x)
    requires rows[id].version <= version <= rows[x].version
    ensures version >= 1 && version <= |Ancestry(rows, x)| && Ancestry(rows, x)[version - 1] in DescendantsAt(rows, id, version)
  {
    var a := Ancestry(rows, x);
    AncestryShape(rows, x);
    AncestryShape(rows, id);
    var i :| 0 <= i < |a| && a[i] == id;
    AncestryOfAncestor(rows, x, version - 1);
    assert a[..version][i] == id;
  }

  lemma NoDeeper(rows: Rows, id: string, version: int)
    requires WellLinked(rows) && id in rows && version >= rows[id].version && DescendantsAt(rows, id, version) == {}
    ensures forall x :: x in rows && id in Ancestry(rows, x) ==> rows[x].version < version
  {
    forall x | x in rows && id in Ancestry(rows, x) && rows[x].version >= version ensures false {
      LevelReached(rows, id, x, version);
    }
  }

  lemma FirstLevel(rows: Rows, id: string)
    requires WellLinked(rows) && id in rows
    ensures DescendantsAt(rows, id, rows[id].version) == {id} == DescendantsTo(rows, id, rows[id].version)
  {
    AncestryShape(rows, id);
    forall x | x in rows && id in Ancestry(rows, x)
      ensures rows[id].version <= rows[x].version && (rows[id].version == rows[x].version ==> x == id)
    {
      SelfFirst(rows, id, x);
    }
  }

  lemma NextLevel(rows: Rows, id: string, version: int)
    requires WellLinked(rows) && id in rows && version >= rows[id].version
    ensures DescendantsTo(rows, id, version + 1) == DescendantsTo(rows, id, version) + DescendantsAt(rows, id, version + 1)
    ensures DescendantsTo(rows, id, version) !! DescendantsAt(rows, id, version + 1)
  {
  }

  /** `WITH RECURSIVE down`: one level of children after another. */
  method SelectDown(rows: Rows, id: string) returns (down: set<string>)
    requires WellLinked(rows) && id in rows
    ensures down == set x | x in rows && id in Ancestry(rows, x)
  {
    down := {id};
    var frontier := {id};
    ghost var version := rows[id].version;
    FirstLevel(rows, id);
    while frontier != {}
      invariant version >= rows[id].version && down <= rows.Keys
      invariant frontier == DescendantsAt(rows, id, version) && down == DescendantsTo(rows, id, version)
      decreases rows.Keys - down, |frontier|
    {
      ChildrenOfLevel(rows, id, version);
      NextLevel(rows, id, version);
      var next := set c | c in rows && rows[c].parent in frontier;
      ghost var before := rows.Keys - down;
      down := down + next;
      assert rows.Keys - down == before - next && next <= before;
      frontier := next;
      version := version + 1;
    }
    NoDeeper(rows, id, version);
  }

  predicate Distinct(h: seq<string>) {
    forall i, j :: 0 <= i < j < |h| ==> h[i] != h[j]
  }

  predicate ByVersion(rows: Rows, h: seq<string>) {
    && (forall i :: 0 <= i < |h| ==> h[i] in rows)
    && forall i, j :: 0 <= i < j < |h| ==> rows[h[i]].version <= rows[h[j]].version
  }

  lemma {:induction false} OldestExists(rows: Rows, ids: set<string>) returns (m: string)
    requires ids != {} && ids <= rows.Keys
    ensures m in ids && forall y :: y in ids ==> rows[m].version <= rows[y].version
    decreases |ids|
  {
    m :| m in ids;
    if ids != {m} {
      var rest := ids - {m};
      assert rest != {};
      var n := OldestExists(rows, rest);
      if rows[n].version < rows[m].version { m := n; }
    }
  }

  lemma AppendOldest(rows: Rows, h: seq<string>, m: string)
    requires Distinct(h) && ByVersion(rows, h) && m in rows && m !in Ids(h)
    requires forall x :: x in Ids(h) ==> rows[x].version <= rows[m].version
    ensures Distinct(h + [m]) && ByVersion(rows, h + [m]) && Ids(h + [m]) == Ids(h) + {m}
  {
    assert forall i :: 0 <= i < |h| ==> h[i] in Ids(h);
  }

  /** `ORDER BY version ASC`. */
  method OrderByVersion(rows: Rows, ids: set<string>) returns (h: seq<string>)
    requires ids <= rows.Keys
    ensures Distinct(h) && ByVersion(rows, h) && Ids(h) == ids
  {
    h := [];
    var rest := ids;
    while rest != {}
      invariant rest <= ids && Distinct(h) && ByVersion(rows, h) && Ids(h) == ids - rest
      invariant forall x, y :: x in Ids(h) && y in rest ==> rows[x].version <= rows[y].version
      decreases |rest|
    {
      var _ := OldestExists(rows, rest);
      var m :| m in rest && forall y :: y in rest ==> rows[m].version <= rows[y].version;
      AppendOldest(rows, h, m);
      h := h + [m];
      rest := rest - {m};
    }
  }

  method List(rows: Rows, id: string) returns (h: seq<string>)
    requires WellLinked(rows)
    ensures id !in rows ==> h == []
    ensures id in rows ==> Distinct(h) && ByVersion(rows, h) && Ids(h) == Related(rows, id)
  {
    if id !in rows {
      return [];
    }
    var up := SelectUp(rows, id);
    var down := SelectDown(rows, id);
    AncestryShape(rows, id);
    assert up + down == Related(rows, id);
    h := OrderByVersion(rows, up + down);
  }

  // ---------------------------------------------------------------------
  // In a chained table the list is the whole lineage
  // ---------------------------------------------------------------------

  /** Two versions of one lineage: the older one is an ancestor of the newer one. */
  lemma {:induction false} SameRootPrefix(rows: Rows, x: string, y: string, k: nat)
    requires WellLinked(rows) && NoFork(rows) && x in rows && y in rows && Root(rows, x) == Root(rows, y)
    requires k < |Ancestry(rows, x)| && k < |Ancestry(rows, y)|
    ensures Ancestry(rows, x)[k] == Ancestry(rows, y)[k]
  {
    AncestryShape(rows, x);
    AncestryShape(rows, y);
    if k > 0 {
      SameRootPrefix(rows, x, y, k - 1);
      assert FollowsAt(rows, Ancestry(rows, x), k) && FollowsAt(rows, Ancestry(rows, y), k);
    }
  }

  lemma AncestorSameRoot(rows: Rows, id: string, x: string)
    requires WellLinked(rows) && id in rows && x in rows && x in Ancestry(rows, id)
    ensures Root(rows, x) == Root(rows, id)
  {
    var b := Ancestry(rows, id);
    AncestryShape(rows, id);
    var k :| 0 <= k < |b| && b[k] == x;
    AncestryOfAncestor(rows, id, k);
  }

  lemma OlderIsAncestor(rows: Rows, x: string, y: string)
    requires WellLinked(rows) && NoFork(rows) && x in rows && y in rows && Root(rows, x) == Root(rows, y)
    requires rows[x].version <= rows[y].version
    ensures x in Ancestry(rows, y)
  {
    AncestryShape(rows, x);
    AncestryShape(rows, y);
    SameRootPrefix(rows, x, y, rows[x].version - 1);
  }

  lemma RelatedIsLineage(rows: Rows, id: string)
    requires WellLinked(rows) && NoFork(rows) && id in rows
    ensures Related(rows, id) == set x | x in rows && Root(rows, x) == Root(rows, id)
  {
    forall x | x in rows ensures x in Related(rows, id) <==> Root(rows, x) == Root(rows, id) {
      if x in Ancestry(rows, id) { AncestorSameRoot(rows, id, x); }
      if id in Ancestry(rows, x) { AncestorSameRoot(rows, x, id); }
      if Root(rows, x) == Root(rows, id) {
        if rows[x].version <= rows[id].version { OlderIsAncestor(rows, x, id); } else { OlderIsAncestor(rows, id, x); }
      }
    }
  }

  lemma {:induction false} DistinctCard(h: seq<string>)
    requires Distinct(h)
    ensures |Ids(h)| == |h|
  {
    if h != [] {
      var front := h[..|h| - 1];
      DistinctCard(front);
      assert Ids(h) == Ids(front) + {h[|h| - 1]};
    }
  }

  /** The last entries agree: both hold the only row with the highest version. */
  lemma SameLast(rows: Rows, h: seq<string>, path: seq<string>)
    requires IsPath(rows, path) && Distinct(h) && ByVersion(rows, h) && Ids(h) == Ids(path)
    ensures |h| == |path| && h[|h| - 1] == path[|path| - 1]
  {
    PathDistinct(rows, path);
    DistinctCard(h);
    DistinctCard(path);
    var n := |path|;
    assert path[n - 1] in Ids(h) && h[n - 1] in Ids(path);
    var i :| 0 <= i < n && h[i] == path[n - 1];
    var j :| 0 <= j < n && path[j] == h[n - 1];
    assert rows[h[i]].version <= rows[h[n - 1]].version;
  }

  lemma IdsFront(h: seq<string>)
    requires h != [] && Distinct(h)
    ensures Ids(h[..|h| - 1]) == Ids(h) - {h[|h| - 1]}
  {
    var front := h[..|h| - 1];
    forall x | x in h && x != h[|h| - 1] ensures x in front {
      var i :| 0 <= i < |h| && h[i] == x;
      assert front[i] == x;
    }
  }

  /** A listing sorted by version, without repetition, of the rows on a path is
      that path. */
  lemma {:induction false} SortedDistinctIsPath(rows: Rows, h: seq<string>, path: seq<string>)
    requires IsPath(rows, path) && Distinct(h) && ByVersion(rows, h)
    requires Ids(h) == Ids(path)
    ensures h == path
    decreases |path|
  {
    SameLast(rows, h, path);
    PathDistinct(rows, path);
    var n := |path|;
    if n > 1 {
      IdsFront(h);
      IdsFront(path);
      PathFront(rows, path);
      SortedDistinctIsPath(rows, h[..n - 1], path[..n - 1]);
      assert h == h[..n - 1] + [h[n - 1]] && path == path[..n - 1] + [path[n - 1]];
    } else {
      assert h == [h[0]] && path == [path[0]];
    }
  }

  lemma PathDistinct(rows: Rows, path: seq<string>)
    requires IsPath(rows, path)
    ensures Distinct(path)
  {
    forall i, j | 0 <= i < j < |path| ensures path[i] != path[j] {
      assert rows[path[i]].version != rows[path[j]].version;
    }
  }

  lemma TipOfLineage(rows: Rows, h: seq<string>, id: string)
    requires WellLinked(rows) && NoFork(rows) && id in rows
    requires ByVersion(rows, h) && Ids(h) == Related(rows, id)
    ensures h != [] && h[|h| - 1] in rows && Ids(h) == Ids(Ancestry(rows, h[|h| - 1]))
  {
    AncestryShape(rows, id);
    RelatedIsLineage(rows, id);
    assert id in Ids(h);
    var tip := h[|h| - 1];
    assert tip in Ids(h);
    forall x | x in rows ensures x in h <==> x in Ancestry(rows, tip) {
      if x in h {
        assert x in Ids(h);
        OlderIsAncestor(rows, x, tip);
      }
      if x in Ancestry(rows, tip) {
        AncestorSameRoot(rows, tip, x);
        assert x in Ids(h);
      }
    }
    AncestryShape(rows, tip);
  }

  /** In a chained table, the history of any member is the whole lineage in order:
      versions 1, 2, 3, ... each the parent of the next, all but the last rejected. */
  lemma HistoryIsWholeChain(s: State, h: seq<string>, id: string)
    requires Chained(s) && id in s.rows
    requires Distinct(h) && ByVersion(s.rows, h) && Ids(h) == Related(s.rows, id)
    ensures IsPath(s.rows, h)
    ensures Ids(h) == set x | x in s.rows && Root(s.rows, x) == Root(s.rows, id)
    ensures forall k :: 0 <= k < |h| - 1 ==> s.rows[h[k]].status == Rejected
  {
    var rows := s.rows;
    RelatedIsLineage(rows, id);
    TipOfLineage(rows, h, id);
    AncestryShape(rows, h[|h| - 1]);
    SortedDistinctIsPath(rows, h, Ancestry(rows, h[|h| - 1]));
    AllButLastRejected(s, h);
  }

  lemma AllButLastRejected(s: State, h: seq<string>)
    requires Chained(s) && IsPath(s.rows, h)
    ensures forall k :: 0 <= k < |h| - 1 ==> s.rows[h[k]].status == Rejected
  {
    forall k | 0 <= k < |h| - 1 ensures s.rows[h[k]].status == Rejected {
      assert FollowsAt(s.rows, h, k + 1);
      assert HasChild(s.rows, h[k]) && Claimed(s, h[k]);
    }
  }

  /** Any two members of a lineage list the same history. */
  lemma HistoryFromAnyMember(s: State, h: seq<string>, id: string, g: seq<string>, other: string)
    requires Chained(s) && id in s.rows && other in s.rows && Root(s.rows, id) == Root(s.rows, other)
    requires Distinct(h) && ByVersion(s.rows, h) && Ids(h) == Related(s.rows, id)
    requires Distinct(g) && ByVersion(s.rows, g) && Ids(g) == Related(s.rows, other)
    ensures h == g
  {
    HistoryIsWholeChain(s, h, id);
    HistoryIsWholeChain(s, g, other);
    SortedDistinctIsPath(s.rows, h, g);
  }
}
