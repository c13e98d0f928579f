/** Result types and the few string helpers of Go's standard library that the
    modelled code calls.  A Go string is a sequence of bytes; each byte is
    represented by the character with its code. */
module Prelude {
  datatype Option<+T> = None | Some(value: T)

  datatype Result<+T, +E> = Ok(value: T) | Err(error: E)

  predicate IsAsciiSpace(c: char) {
    c == ' ' || c == '\t' || c == '\n' || c == '\r' || c == '\U{000B}' || c == '\U{000C}'
  }

  /** The `n` bytes at offset `i` encode a white space rune in UTF-8
      (`unicode.IsSpace`): an ASCII one, U+0085, U+00A0, U+1680, U+2000 to U+200A,
      U+2028, U+2029, U+202F, U+205F or U+3000. */
  predicate SpaceRuneAt(s: string, i: nat, n: nat) {
    && i + n <= |s|
    && match n
       case 1 => IsAsciiSpace(s[i])
       case 2 => s[i] == '\U{C2}' && (s[i + 1] == '\U{85}' || s[i + 1] == '\U{A0}')
       case 3 =>
         || (s[i] == '\U{E1}' && s[i + 1] == '\U{9A}' && s[i + 2] == '\U{80}')
         || (s[i] == '\U{E2}' && s[i + 1] == '\U{80}'
             && ('\U{80}' <= s[i + 2] <= '\U{8A}' || s[i + 2] == '\U{A8}' || s[i + 2] == '\U{A9}' || s[i + 2] == '\U{AF}'))
         || (s[i] == '\U{E2}' && s[i + 1] == '\U{81}' && s[i + 2] == '\U{9F}')
         || (s[i] == '\U{E3}' && s[i + 1] == '\U{80}' && s[i + 2] == '\U{80}')
       case _ => false
  }

  /** The length of the white space rune at offset `i`, or 0. */
  function SpaceAt(s: string, i: nat): (n: nat)
    ensures n > 0 ==> SpaceRuneAt(s, i, n)
    ensures n == 0 ==> forall k: nat :: !SpaceRuneAt(s, i, k)
  {
    if SpaceRuneAt(s, i, 1) then 1 else if SpaceRuneAt(s, i, 2) then 2 else if SpaceRuneAt(s, i, 3) then 3 else 0
  }

  predicate SpaceRuneBefore(s: string, lo: nat, hi: nat, n: nat) { lo + n <= hi && SpaceRuneAt(s, hi - n, n) }

  /** The length of the white space rune that ends `s[lo..hi]`, or 0. */
  function SpaceBefore(s: string, lo: nat, hi: nat): (n: nat)
    requires lo <= hi <= |s|
    ensures n > 0 ==> SpaceRuneBefore(s, lo, hi, n)
    ensures n == 0 ==> forall k: nat :: !SpaceRuneBefore(s, lo, hi, k)
  {
    if SpaceRuneBefore(s, lo, hi, 1) then 1
    else if SpaceRuneBefore(s, lo, hi, 2) then 2
    else if SpaceRuneBefore(s, lo, hi, 3) then 3
    else 0
  }

  /** The first offset from `i` on that holds no white space. */
  function SkipSpace(s: string, i: nat): nat
    requires i <= |s|
    decreases |s| - i
  {
    if SpaceAt(s, i) == 0 then i else SkipSpace(s, i + SpaceAt(s, i))
  }

  /** The end of `s[lo..hi]` without trailing white space. */
  function DropSpace(s: string, lo: nat, hi: nat): nat
    requires lo <= hi <= |s|
    decreases hi
  {
    if SpaceBefore(s, lo, hi) == 0 then hi else DropSpace(s, lo, hi - SpaceBefore(s, lo, hi))
  }

  /** A byte that a white space rune may hold. */
  predicate IsSpaceByte(c: char) { IsAsciiSpace(c) || c >= '\U{80}' }

  lemma {:induction false} SkipSpaceFacts(s: string, i: nat)
    requires i <= |s|
    ensures i <= SkipSpace(s, i) <= |s| && SpaceAt(s, SkipSpace(s, i)) == 0
    ensures forall k :: i <= k < SkipSpace(s, i) ==> IsSpaceByte(s[k])
    decreases |s| - i
  {
    if SpaceAt(s, i) > 0 { SkipSpaceFacts(s, i + SpaceAt(s, i)); }
  }

  lemma {:induction false} DropSpaceFacts(s: string, lo: nat, hi: nat)
    requires lo <= hi <= |s|
    ensures lo <= DropSpace(s, lo, hi) <= hi && SpaceBefore(s, lo, DropSpace(s, lo, hi)) == 0
    ensures forall k :: DropSpace(s, lo, hi) <= k < hi ==> IsSpaceByte(s[k])
    decreases hi
  {
    if SpaceBefore(s, lo, hi) > 0 { DropSpaceFacts(s, lo, hi - SpaceBefore(s, lo, hi)); }
  }

  /** `strings.TrimSpace`. */
  function TrimSpace(s: string): string {
    SkipSpaceFacts(s, 0);
    var lo := SkipSpace(s, 0);
    DropSpaceFacts(s, lo, |s|);
    s[lo..DropSpace(s, lo, |s|)]
  }

  /** `t` has no white space at either end. */
  predicate Trimmed(t: string) { SpaceAt(t, 0) == 0 && SpaceBefore(t, 0, |t|) == 0 }

  lemma SliceRune(s: string, lo: nat, hi: nat, i: nat, n: nat)
    requires lo <= hi <= |s| && lo + i + n <= hi
    ensures SpaceRuneAt(s[lo..hi], i, n) <==> SpaceRuneAt(s, lo + i, n)
  {
  }

  lemma SliceTrimmed(s: string, lo: nat, hi: nat)
    requires lo <= hi <= |s| && SpaceAt(s, lo) == 0 && SpaceBefore(s, lo, hi) == 0
    ensures Trimmed(s[lo..hi])
  {
    var t := s[lo..hi];
    forall n: nat ensures !SpaceRuneAt(t, 0, n) && !SpaceRuneBefore(t, 0, |t|, n) {
      if n <= |t| {
        SliceRune(s, lo, hi, 0, n);
        SliceRune(s, lo, hi, |t| - n, n);
        assert !SpaceRuneAt(s, lo, n) && !SpaceRuneBefore(s, lo, hi, n);
      }
    }
  }

  /** `TrimSpace` leaves a trimmed part, and cuts off bytes of white space only. */
  lemma TrimSpaceFacts(s: string) returns (lo: nat, hi: nat)
    ensures lo <= hi <= |s| && TrimSpace(s) == s[lo..hi] && Trimmed(s[lo..hi])
    ensures forall k :: 0 <= k < lo || hi <= k < |s| ==> IsSpaceByte(s[k])
  {
    SkipSpaceFacts(s, 0);
    lo := SkipSpace(s, 0);
    DropSpaceFacts(s, lo, |s|);
    hi := DropSpace(s, lo, |s|);
    SliceTrimmed(s, lo, hi);
  }

  /** No white space rune ends in a blank but the blank itself, so padding a
      trimmed text is undone by trimming. */
  lemma TrimPadded(t: string)
    requires Trimmed(t)
    ensures TrimSpace(" " + t + " ") == t
  {
    var s := " " + t + " ";
    var last := |s| - 1;
    assert s[1..last] == t;
    assert SpaceRuneAt(s, 0, 1) && SpaceRuneBefore(s, 1, |s|, 1);
    assert SkipSpace(s, 0) == SkipSpace(s, 1);
    if t == "" {
      assert SpaceRuneAt(s, 1, 1) && SkipSpace(s, 1) == SkipSpace(s, 2) == 2;
    } else {
      forall n: nat ensures !SpaceRuneAt(s, 1, n) && !SpaceRuneBefore(s, 1, last, n) {
        if n <= |t| {
          SliceRune(s, 1, last, 0, n);
          SliceRune(s, 1, last, |t| - n, n);
          assert !SpaceRuneAt(t, 0, n) && !SpaceRuneBefore(t, 0, |t|, n);
        }
      }
      assert SpaceAt(s, 1) == 0 && SpaceBefore(s, 1, last) == 0;
      assert DropSpace(s, 1, |s|) == DropSpace(s, 1, last) == last;
    }
  }

  predicate HasPrefix(s: string, p: string) {
    |p| <= |s| && s[..|p|] == p
  }

  /** The character `c` stands twice at offset `k`. */
  predicate PairAt(s: string, c: char, k: nat) {
    k + 1 < |s| && s[k] == c && s[k + 1] == c
  }

  /** `strings.Index` for a needle of two equal characters, such as `{{`: the
      offset of its first occurrence. */
  function IndexPair(s: string, c: char): (r: Option<nat>)
    ensures r.Some? ==> PairAt(s, c, r.value) && forall k: nat :: k < r.value ==> !PairAt(s, c, k)
    ensures r.None? ==> forall k: nat :: !PairAt(s, c, k)
  {
    IndexPairFrom(s, c, 0)
  }

  function IndexPairFrom(s: string, c: char, i: nat): (r: Option<nat>)
    requires i <= |s|
    ensures r.Some? ==> i <= r.value && PairAt(s, c, r.value) && forall k: nat :: i <= k < r.value ==> !PairAt(s, c, k)
    ensures r.None? ==> forall k: nat :: i <= k ==> !PairAt(s, c, k)
    decreases |s| - i
  {
    if PairAt(s, c, i) then Some(i) else if i == |s| then None else IndexPairFrom(s, c, i + 1)
  }

  /** An occurrence with none before it is the one `IndexPair` returns. */
  lemma IndexPairIs(s: string, c: char, k: nat)
    requires PairAt(s, c, k) && forall m: nat :: m < k ==> !PairAt(s, c, m)
    ensures IndexPair(s, c) == Some(k)
  {
    assert IndexPair(s, c).Some?;
  }

  /** The entries by key; a later entry replaces an earlier one with the same key. */
  function ByKey<DATA>(rows: seq<DATA>, key: DATA -> string): map<string, DATA> {
    if rows == [] then map[] else ByKey(rows[..|rows| - 1], key)[key(rows[|rows| - 1]) := rows[|rows| - 1]]
  }

  /** Entry `k` is the last one with key `id`. */
  ghost predicate LastWith<DATA>(rows: seq<DATA>, key: DATA -> string, id: string, k: nat) {
    k < |rows| && key(rows[k]) == id && forall j :: k < j < |rows| ==> key(rows[j]) != id
  }

  /** `ByKey` holds exactly the keys of the entries, each with the last entry that has it. */
  lemma {:induction false} ByKeyIsLast<DATA>(rows: seq<DATA>, key: DATA -> string, id: string)
    ensures id in ByKey(rows, key) <==> exists j :: 0 <= j < |rows| && key(rows[j]) == id
    ensures id in ByKey(rows, key) ==> exists k: nat :: LastWith(rows, key, id, k) && rows[k] == ByKey(rows, key)[id]
  {
    if rows != [] {
      var n := |rows| - 1;
      ByKeyIsLast(rows[..n], key, id);
      if key(rows[n]) == id {
        assert LastWith(rows, key, id, n);
      } else if id in ByKey(rows[..n], key) {
        var k: nat :| LastWith(rows[..n], key, id, k) && rows[..n][k] == ByKey(rows[..n], key)[id];
        assert forall j :: k < j < n ==> rows[..n][j] == rows[j];
        assert LastWith(rows, key, id, k);
      } else {
        assert forall j :: 0 <= j < n ==> rows[..n][j] == rows[j];
      }
    }
  }

  function Filter<T>(rows: seq<T>, keep: T -> bool): seq<T> {
    if rows == [] then []
    else
      var front := Filter(rows[..|rows| - 1], keep);
      if keep(rows[|rows| - 1]) then front + [rows[|rows| - 1]] else front
  }

  lemma {:induction false} FilterIn<T>(rows: seq<T>, keep: T -> bool, r: T)
    ensures r in Filter(rows, keep) <==> r in rows && keep(r)
  {
    if rows != [] {
      var n := |rows| - 1;
      FilterIn(rows[..n], keep, r);
      assert rows == rows[..n] + [rows[n]];
    }
  }

  function Flatten(parts: seq<string>): string {
    if parts == [] then "" else parts[0] + Flatten(parts[1..])
  }

  lemma {:induction false} FlattenAppend(a: seq<string>, b: seq<string>)
    ensures Flatten(a + b) == Flatten(a) + Flatten(b)
  {
    if a == [] {
      assert a + b == b;
    } else {
      assert (a + b)[0] == a[0] && (a + b)[1..] == a[1..] + b;
      FlattenAppend(a[1..], b);
    }
  }

  /** Go's `<` on strings. */
  predicate Less(a: string, b: string) {
    b != "" && (a == "" || a[0] < b[0] || (a[0] == b[0] && Less(a[1..], b[1..])))
  }

  lemma {:induction false} LessTotal(a: string, b: string)
    ensures Less(a, b) || Less(b, a) || a == b
    ensures !(Less(a, b) && Less(b, a)) && !Less(a, a)
  {
    if a != "" && b != "" {
      LessTotal(a[1..], b[1..]);
      if a[0] == b[0] { assert a == [a[0]] + a[1..] && b == [b[0]] + b[1..]; }
    }
    if a != "" { LessTotal(a[1..], a[1..]); }
  }

  lemma {:induction false} LessTransitive(a: string, b: string, c: string)
    requires Less(a, b) && Less(b, c)
    ensures Less(a, c)
  {
    if a != "" && a[0] == b[0] == c[0] { LessTransitive(a[1..], b[1..], c[1..]); }
  }

  predicate IsDigit(c: char) { '0' <= c <= '9' }

  predicate AllDigits(s: string) {
    forall k :: 0 <= k < |s| ==> IsDigit(s[k])
  }

  function DigitsValue(s: string): nat
    requires AllDigits(s)
  {
    if s == [] then 0 else DigitsValue(s[..|s| - 1]) * 10 + (s[|s| - 1] as int - '0' as int)
  }

  const MAX_INT64: int := 0x7FFF_FFFF_FFFF_FFFF

  /** `strconv.Atoi` on a 64-bit platform: optional sign, at least one decimal
      digit, and a range check; None stands for its error. */
  function Atoi(s: string): Option<int> {
    var signed := s != [] && (s[0] == '-' || s[0] == '+');
    var digits := if signed then s[1..] else s;
    if digits == [] || !AllDigits(digits) then None
    else
      var v: int := if s[0] == '-' then 0 - DigitsValue(digits) else DigitsValue(digits);
      if -MAX_INT64 - 1 <= v <= MAX_INT64 then Some(v) else None
  }

  /** Decimal rendering of a natural number (`strconv.Itoa` without the sign case). */
  function Decimal(n: nat): (s: string)
    ensures s != [] && AllDigits(s) && DigitsValue(s) == n
  {
    var last := ('0' as int + n % 10) as char;
    if n < 10 then
      assert [last][..0] == [];
      [last]
    else
      var front := Decimal(n / 10);
      assert (front + [last])[..|front|] == front;
      front + [last]
  }

  lemma AtoiDecimal(n: nat)
    requires n <= MAX_INT64
    ensures Atoi(Decimal(n)) == Some(n)
  {
    var s := Decimal(n);
    assert IsDigit(s[0]);
  }
}
