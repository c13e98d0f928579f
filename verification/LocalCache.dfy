/** One cached table: the rows of the last load, as a list and by id. */
module LocalCache {
  import opened Prelude

  ghost predicate DistinctIds<DATA>(rows: seq<DATA>, key: DATA -> string) {
    forall i, j :: 0 <= i < j < |rows| ==> key(rows[i]) != key(rows[j])
  }

  function Kept<DATA>(m: map<string, DATA>, keep: DATA -> bool): map<string, DATA> {
    map id | id in m && keep(m[id]) :: m[id]
  }

  lemma KeptAdd<DATA>(m: map<string, DATA>, keep: DATA -> bool, id: string, row: DATA)
    requires id !in m
    ensures Kept(m[id := row], keep) == if keep(row) then Kept(m, keep)[id := row] else Kept(m, keep)
  {
  }

  /** With distinct ids, filtering the map and filtering the list give the same
      rows: `GetMap(f)` is `GetAll(f)` by id.  (A repeated id breaks this: the
      list may keep an earlier row whose later namesake the filter drops.) */
  lemma {:induction false} MapFollowsList<DATA>(rows: seq<DATA>, key: DATA -> string, keep: DATA -> bool)
    requires DistinctIds(rows, key)
    ensures ByKey(Filter(rows, keep), key) == Kept(ByKey(rows, key), keep)
  {
    if rows != [] {
      var n := |rows| - 1;
      var front, last := rows[..n], rows[n];
      assert forall j :: 0 <= j < n ==> front[j] == rows[j];
      MapFollowsList(front, key, keep);
      ByKeyIsLast(front, key, key(last));
      KeptAdd(ByKey(front, key), keep, key(last), last);
      var kept := Filter(front, keep);
      if keep(last) {
        assert (kept + [last])[..|kept|] == kept && (kept + [last])[|kept|] == last;
      }
    }
  }

  const PAGE_SIZE := 1000

  /** One `LIMIT 1000 OFFSET offset` query over an unchanging ordered result. */
  function Page<DATA>(ordered: seq<DATA>, offset: nat): seq<DATA> {
    var lo := if offset < |ordered| then offset else |ordered|;
    var hi := if offset + PAGE_SIZE < |ordered| then offset + PAGE_SIZE else |ordered|;
    ordered[lo..hi]
  }

  /** Paging reads the whole table, also when its size is a multiple of the page. */
  method GormLoad<DATA>(ordered: seq<DATA>) returns (out: seq<DATA>)
    ensures out == ordered
  {
    var offset := 0;
    out := [];
    var more := true;
    while more
      invariant 0 <= offset
      invariant more ==> offset <= |ordered| && out == ordered[..offset]
      invariant !more ==> out == ordered
      decreases more, |ordered| + PAGE_SIZE - offset
    {
      var batch := Page(ordered, offset);
      out := out + batch;
      if |batch| < PAGE_SIZE {
        more := false;
      } else {
        offset := offset + PAGE_SIZE;
      }
    }
  }

  class Cache<DATA(==)> {
    const key: DATA -> string
    var arr: seq<DATA>
    var byId: map<string, DATA>

    /** The list and the map come from the same load. */
    ghost predicate Valid()
      reads this
    {
      byId == ByKey(arr, key)
    }

    constructor (key: DATA -> string)
      ensures Valid() && this.key == key && arr == []
    {
      this.key, arr, byId := key, [], map[];
    }

    /** `rows` is what the loader returned; a failed load leaves both fields alone. */
    method ReloadAll(load: Option<seq<DATA>>) returns (ok: bool)
      requires Valid()
      modifies this
      ensures Valid() && ok == load.Some?
      ensures arr == if load.Some? then load.value else old(arr)
    {
      if load.None? { return false; }
      var rows := load.value;
      var m: map<string, DATA> := map[];
      for i := 0 to |rows|
        invariant m == ByKey(rows[..i], key)
      {
        assert rows[..i + 1][..i] == rows[..i];
        m := m[key(rows[i]) := rows[i]];
      }
      assert rows[..|rows|] == rows;
      arr, byId := rows, m;
      return true;
    }

    /** The last loaded row with this id, or the error of a miss. */
    method Get(id: string) returns (r: Option<DATA>)
      requires Valid()
      ensures r.None? <==> forall j :: 0 <= j < |arr| ==> key(arr[j]) != id
      ensures r.Some? ==> exists k: nat :: LastWith(arr, key, id, k) && arr[k] == r.value
    {
      ByKeyIsLast(arr, key, id);
      r := if id in byId then Some(byId[id]) else None;
    }

    method GetAll(filter: Option<DATA -> bool>) returns (out: seq<DATA>)
      ensures out == if filter.None? then arr else Filter(arr, filter.value)
    {
      out := [];
      for i := 0 to |arr|
        invariant out == if filter.None? then arr[..i] else Filter(arr[..i], filter.value)
      {
        assert arr[..i + 1][..i] == arr[..i];
        if filter.None? || filter.value(arr[i]) {
          out := out + [arr[i]];
        }
      }
      assert arr[..|arr|] == arr;
    }

    method GetMap(filter: Option<DATA -> bool>) returns (out: map<string, DATA>)
      requires Valid()
      ensures filter.None? ==> out == byId
      ensures filter.Some? ==> out == Kept(byId, filter.value)
      ensures filter.Some? && DistinctIds(arr, key) ==> out == ByKey(Filter(arr, filter.value), key)
    {
      out := map[];
      var left := byId.Keys;
      while left != {}
        invariant left <= byId.Keys
        invariant out == map id | id in byId && id !in left && (filter.None? || filter.value(byId[id])) :: byId[id]
      {
        var id :| id in left;
        left := left - {id};
        if filter.None? || filter.value(byId[id]) {
          out := out[id := byId[id]];
        }
      }
      if filter.Some? && DistinctIds(arr, key) {
        MapFollowsList(arr, key, filter.value);
      }
    }
  }
}
