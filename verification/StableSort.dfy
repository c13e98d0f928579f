/** Stable insertion sort: the hand-written loop of internal/models, and a
    reading of Go's `sort.SliceStable`. */
module StableSort {
  /** `x` placed behind the last element that it does not precede. */
  function Insert<T>(s: seq<T>, x: T, before: (T, T) -> bool): seq<T> {
    if s != [] && before(x, s[|s| - 1]) then Insert(s[..|s| - 1], x, before) + [s[|s| - 1]] else s + [x]
  }

  function Sorted<T>(s: seq<T>, before: (T, T) -> bool): seq<T> {
    if s == [] then [] else Insert(Sorted(s[..|s| - 1], before), s[|s| - 1], before)
  }

  /** A strict weak order. */
  ghost predicate Orders<T(!new)>(before: (T, T) -> bool) {
    && (forall a, b :: before(a, b) ==> !before(b, a))
    && (forall a, b, c :: !before(b, a) && !before(c, b) ==> !before(c, a))
  }

  ghost predicate Ascending<T(!new)>(s: seq<T>, before: (T, T) -> bool) {
    forall i, j :: 0 <= i < j < |s| ==> !before(s[j], s[i])
  }

  lemma {:induction false} InsertElements<T>(s: seq<T>, x: T, before: (T, T) -> bool)
    ensures |Insert(s, x, before)| == |s| + 1
    ensures forall y :: y in Insert(s, x, before) <==> y in s || y == x
  {
    if s != [] && before(x, s[|s| - 1]) {
      InsertElements(s[..|s| - 1], x, before);
      assert s == s[..|s| - 1] + [s[|s| - 1]];
    }
  }

  lemma {:induction false} InsertAscends<T(!new)>(s: seq<T>, x: T, before: (T, T) -> bool)
    requires Orders(before) && Ascending(s, before)
    ensures Ascending(Insert(s, x, before), before)
  {
    if s != [] && before(x, s[|s| - 1]) {
      var front, last := s[..|s| - 1], s[|s| - 1];
      InsertAscends(front, x, before);
      InsertElements(front, x, before);
      var t := Insert(front, x, before);
      forall i | 0 <= i < |t| ensures !before(last, t[i]) {
        assert t[i] in t;
        if t[i] != x { var k :| 0 <= k < |front| && front[k] == t[i]; }
      }
    } else if s != [] {
      forall i | 0 <= i < |s| ensures !before(x, s[i]) {
        assert i < |s| - 1 ==> !before(s[|s| - 1], s[i]);
      }
    }
  }

  lemma {:induction false} SortedElements<T>(s: seq<T>, before: (T, T) -> bool)
    ensures |Sorted(s, before)| == |s|
    ensures forall y :: y in Sorted(s, before) <==> y in s
  {
    if s != [] {
      SortedElements(s[..|s| - 1], before);
      InsertElements(Sorted(s[..|s| - 1], before), s[|s| - 1], before);
      assert s == s[..|s| - 1] + [s[|s| - 1]];
    }
  }

  lemma {:induction false} SortedAscends<T(!new)>(s: seq<T>, before: (T, T) -> bool)
    requires Orders(before)
    ensures Ascending(Sorted(s, before), before)
  {
    if s != [] {
      SortedAscends(s[..|s| - 1], before);
      InsertAscends(Sorted(s[..|s| - 1], before), s[|s| - 1], before);
    }
  }

  /** `Insert` as the state of an insertion loop: what lies before the hole, the
      new element, and what has already moved behind it. */
  lemma {:induction false} InsertUnrolls<T>(s: seq<T>, x: T, before: (T, T) -> bool, j: nat)
    requires j <= |s|
    requires forall k :: j <= k < |s| ==> before(x, s[k])
    ensures Insert(s, x, before) == Insert(s[..j], x, before) + s[j..]
    decreases |s| - j
  {
    if j == |s| {
      assert s[..j] == s;
    } else {
      InsertUnrolls(s, x, before, j + 1);
      assert s[..j + 1][..j] == s[..j];
      assert [s[j]] + s[j + 1..] == s[j..];
    }
  }
}
