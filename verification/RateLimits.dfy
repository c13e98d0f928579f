/** The in-memory limiters: mails per organisation in a sliding window, cooldowns
    and one mail per run (internal/alerts), requests per user and minute
    (internal/limits).  Times are integers; clocks do not run backwards. */
module RateLimits {
  import opened Prelude

  datatype Call = Call(key: string, now: int)

  /** The clock does not run backwards over the calls. */
  ghost predicate Ordered(calls: seq<Call>) {
    forall i, j :: 0 <= i < j < |calls| ==> calls[i].now <= calls[j].now
  }

  /** No call is later than `now`. */
  ghost predicate Before(calls: seq<Call>, now: int) {
    forall k :: 0 <= k < |calls| ==> calls[k].now <= now
  }

  lemma OrderedFront(calls: seq<Call>)
    requires Ordered(calls) && calls != []
    ensures Ordered(calls[..|calls| - 1]) && Before(calls[..|calls| - 1], calls[|calls| - 1].now)
  {
  }

  function Within(now: int, span: int): int -> bool { (t: int) => now - t < span }

  /** The times in [from, from + span). */
  function InSpan(from: int, span: int): int -> bool { (t: int) => from <= t < from + span }

  lemma {:induction false} FilterShrinks(s: seq<int>, p: int -> bool, q: int -> bool)
    requires forall t :: t in s && p(t) ==> q(t)
    ensures |Filter(s, p)| <= |Filter(s, q)|
  {
    if s != [] {
      var front, last := s[..|s| - 1], s[|s| - 1];
      assert last in s && forall t :: t in front ==> t in s;
      FilterShrinks(front, p, q);
      assert p(last) ==> q(last);
    }
  }

  /** The times later than `x`. */
  function LaterThan(x: int): int -> bool { (t: int) => t > x }

  lemma {:induction false} FilterSame(s: seq<int>, p: int -> bool, q: int -> bool)
    requires forall t :: t in s ==> p(t) == q(t)
    ensures Filter(s, p) == Filter(s, q)
  {
    if s != [] {
      var front, last := s[..|s| - 1], s[|s| - 1];
      assert last in s;
      assert p(last) <==> q(last);
      assert forall t :: t in front ==> t in s;
      FilterSame(front, p, q);
    }
  }

  lemma {:induction false} FilterTwice(s: seq<int>, p: int -> bool, q: int -> bool)
    requires forall t :: q(t) ==> p(t)
    ensures Filter(Filter(s, p), q) == Filter(s, q)
  {
    if s != [] {
      var n := |s| - 1;
      FilterTwice(s[..n], p, q);
      var kept := Filter(s[..n], p);
      if p(s[n]) {
        assert (kept + [s[n]])[..|kept|] == kept && (kept + [s[n]])[|kept|] == s[n];
      }
    }
  }

  lemma {:induction false} FilterCover(s: seq<int>, p: int -> bool, a: int -> bool, b: int -> bool)
    requires forall t :: p(t) ==> a(t) || b(t)
    ensures |Filter(s, p)| <= |Filter(s, a)| + |Filter(s, b)|
  {
    if s != [] { FilterCover(s[..|s| - 1], p, a, b); }
  }

  lemma FilterAppend(s: seq<int>, t: int, p: int -> bool)
    ensures Filter(s + [t], p) == if p(t) then Filter(s, p) + [t] else Filter(s, p)
  {
    assert (s + [t])[..|s|] == s;
  }

  // ---------------------------------------------------------------------
  // allowOrg: a sliding window
  // ---------------------------------------------------------------------

  /** The slice filter `kept := s[:0]` that overwrites what it reads. */
  method KeepRecent(times: array<int>, now: int, window: int) returns (kept: nat)
    modifies times
    ensures kept <= times.Length && times[..kept] == Filter(old(times[..]), Within(now, window))
  {
    ghost var was := times[..];
    kept := 0;
    for i := 0 to times.Length
      invariant kept <= i
      invariant times[..kept] == Filter(was[..i], Within(now, window))
      invariant times[i..] == was[i..]
    {
      assert times[i] == times[i..][0] == was[i];
      assert was[..i + 1][..i] == was[..i];
      assert times[i + 1..] == times[i..][1..];
      if now - times[i] < window {
        times[kept] := times[i];
        kept := kept + 1;
      }
    }
    assert was[..times.Length] == was;
  }

  /** One call: the window of the org afterwards, and whether a mail may go out. */
  function Allowed(sends: seq<int>, now: int, window: int, max: nat): (seq<int>, bool) {
    var kept := Filter(sends, Within(now, window));
    if |kept| >= max then (kept, false) else (kept + [now], true)
  }

  class Notifier {
    const rateWindow: int
    const rateMax: nat
    var orgSends: map<string, seq<int>>
    var notifiedRuns: map<string, int>

    constructor (rateWindow: int, rateMax: nat)
      ensures this.rateWindow == rateWindow && this.rateMax == rateMax && orgSends == map[] && notifiedRuns == map[]
    {
      this.rateWindow, this.rateMax, orgSends, notifiedRuns := rateWindow, rateMax, map[], map[];
    }

    method AllowOrg(org: string, now: int) returns (ok: bool)
      modifies this`orgSends
      ensures var step := Allowed(At(old(orgSends), org), now, rateWindow, rateMax);
              orgSends == old(orgSends)[org := step.0] && ok == step.1
    {
      var sends := At(orgSends, org);
      var times := new int[|sends|](i requires 0 <= i < |sends| => sends[i]);
      assert times[..] == sends;
      var n := KeepRecent(times, now, rateWindow);
      if n >= rateMax {
        orgSends := orgSends[org := times[..n]];
        return false;
      }
      orgSends := orgSends[org := times[..n] + [now]];
      return true;
    }

    method ClaimRun(run: string, now: int) returns (ok: bool)
      modifies this`notifiedRuns
      ensures var step := Claimed(old(notifiedRuns), run, now, 24 * 60 * 60, true);
              notifiedRuns == step.0 && ok == step.1
    {
      notifiedRuns := Prune(notifiedRuns, now, DAY);
      if run in notifiedRuns { return false; }
      notifiedRuns := notifiedRuns[run := now];
      return true;
    }
  }

  function At(m: map<string, seq<int>>, key: string): seq<int> { if key in m then m[key] else [] }

  function Sends(calls: seq<Call>, window: int, max: nat): map<string, seq<int>> {
    if calls == [] then map[]
    else
      var last, before := calls[|calls| - 1], Sends(calls[..|calls| - 1], window, max);
      before[last.key := Allowed(At(before, last.key), last.now, window, max).0]
  }

  predicate Grants(calls: seq<Call>, window: int, max: nat, call: Call) {
    Allowed(At(Sends(calls, window, max), call.key), call.now, window, max).1
  }

  /** When mails of the org went out. */
  function Sent(calls: seq<Call>, window: int, max: nat, org: string): seq<int> {
    if calls == [] then []
    else
      var last, front := calls[|calls| - 1], calls[..|calls| - 1];
      var before := Sent(front, window, max, org);
      if last.key == org && Grants(front, window, max, last) then before + [last.now] else before
  }

  /** Forgetting old sends does not change what the window sees. */
  lemma {:induction false} WindowIsExact(calls: seq<Call>, window: int, max: nat, org: string, now: int)
    requires Ordered(calls) && Before(calls, now)
    ensures Filter(At(Sends(calls, window, max), org), Within(now, window)) == Filter(Sent(calls, window, max, org), Within(now, window))
  {
    if calls != [] {
      OrderedFront(calls);
      var last, front := calls[|calls| - 1], calls[..|calls| - 1];
      WindowIsExact(front, window, max, org, now);
      if last.key == org {
        var before := At(Sends(front, window, max), org);
        FilterTwice(before, Within(last.now, window), Within(now, window));
        FilterAppend(Filter(before, Within(last.now, window)), last.now, Within(now, window));
        FilterAppend(Sent(front, window, max, org), last.now, Within(now, window));
      }
    }
  }

  /** A call is refused exactly when `max` mails already went out in the window
      that ends with it. */
  lemma RefusedExactly(calls: seq<Call>, window: int, max: nat, call: Call)
    requires Ordered(calls + [call])
    ensures !Grants(calls, window, max, call) <==> |Filter(Sent(calls, window, max, call.key), LaterThan(call.now - window))| >= max
  {
    FilterSame(Sent(calls, window, max, call.key), Within(call.now, window), LaterThan(call.now - window));
    var all := calls + [call];
    assert all[|calls|] == call && forall k :: 0 <= k < |calls| ==> all[k] == calls[k];
    assert Before(calls, call.now);
    WindowIsExact(calls, window, max, call.key, call.now);
  }

  /** In every run, at most `max` mails of an org go out in any half-open window. */
  lemma {:induction false} RateBounded(calls: seq<Call>, window: int, max: nat, org: string, from: int)
    requires Ordered(calls)
    ensures |Filter(Sent(calls, window, max, org), InSpan(from, window))| <= max
  {
    if calls != [] {
      var last, front := calls[|calls| - 1], calls[..|calls| - 1];
      OrderedFront(calls);
      RateBounded(front, window, max, org, from);
      FilterAppend(Sent(front, window, max, org), last.now, InSpan(from, window));
      if last.key == org && Grants(front, window, max, last) && InSpan(from, window)(last.now) {
        assert front + [last] == calls;
        RefusedExactly(front, window, max, last);
        FilterShrinks(Sent(front, window, max, org), InSpan(from, window), LaterThan(last.now - window));
      }
    }
  }

  // ---------------------------------------------------------------------
  // claimCooldown and claimRun: a map that is pruned on every claim
  // ---------------------------------------------------------------------

  const DAY: int := 24 * 60 * 60

  function Pruned(m: map<string, int>, now: int, limit: int): map<string, int> {
    map k | k in m && now - m[k] <= limit :: m[k]
  }

  /** `anyAge`: an entry refuses whatever its age (claimRun), else only within the limit. */
  function Claimed(m: map<string, int>, key: string, now: int, limit: int, anyAge: bool): (map<string, int>, bool) {
    var kept := Pruned(m, now, limit);
    if key in kept && (anyAge || now - kept[key] < limit) then (kept, false) else (kept[key := now], true)
  }

  method Prune(m: map<string, int>, now: int, limit: int) returns (kept: map<string, int>)
    ensures kept == Pruned(m, now, limit)
  {
    kept := m;
    var left := m.Keys;
    while left != {}
      invariant left <= m.Keys
      invariant kept == map k | k in m && (k in left || now - m[k] <= limit) :: m[k]
    {
      var k :| k in left;
      left := left - {k};
      if now - m[k] > limit {
        kept := kept - {k};
      }
    }
  }

  class Evaluator {
    const cooldown: int
    var lastSent: map<string, int>

    constructor (cooldown: int)
      ensures this.cooldown == cooldown && lastSent == map[]
    {
      this.cooldown, lastSent := cooldown, map[];
    }

    method ClaimCooldown(key: string, now: int) returns (ok: bool)
      modifies this`lastSent
      ensures var step := Claimed(old(lastSent), key, now, cooldown, false);
              lastSent == step.0 && ok == step.1
    {
      lastSent := Prune(lastSent, now, cooldown);
      if key in lastSent && now - lastSent[key] < cooldown { return false; }
      lastSent := lastSent[key := now];
      return true;
    }
  }

  function Slots(calls: seq<Call>, limit: int, anyAge: bool): map<string, int> {
    if calls == [] then map[]
    else Claimed(Slots(calls[..|calls| - 1], limit, anyAge), calls[|calls| - 1].key, calls[|calls| - 1].now, limit, anyAge).0
  }

  predicate Claims(calls: seq<Call>, limit: int, anyAge: bool, call: Call) {
    Claimed(Slots(calls, limit, anyAge), call.key, call.now, limit, anyAge).1
  }

  /** When the key was last granted. */
  function LastGrant(calls: seq<Call>, limit: int, anyAge: bool, key: string): Option<int> {
    if calls == [] then None
    else
      var last, front := calls[|calls| - 1], calls[..|calls| - 1];
      if last.key == key && Claims(front, limit, anyAge, last) then Some(last.now) else LastGrant(front, limit, anyAge, key)
  }

  /** The map holds the last grant of each key, or has dropped it as too old. */
  lemma {:induction false} SlotsHoldLastGrant(calls: seq<Call>, limit: int, anyAge: bool, key: string, now: int)
    requires Ordered(calls) && Before(calls, now)
    ensures var slots, last := Slots(calls, limit, anyAge), LastGrant(calls, limit, anyAge, key);
            if last.None? then key !in slots
            else last.value <= now && (if key in slots then slots[key] == last.value else now - last.value > limit)
  {
    if calls != [] {
      OrderedFront(calls);
      var last, front := calls[|calls| - 1], calls[..|calls| - 1];
      SlotsHoldLastGrant(front, limit, anyAge, key, last.now);
    }
  }

  /** A claim is granted exactly when the key was never granted, or long enough
      ago: at least the limit for claimCooldown, more than the limit for claimRun. */
  lemma ClaimedExactly(calls: seq<Call>, limit: int, anyAge: bool, call: Call)
    requires Ordered(calls + [call])
    ensures var last := LastGrant(calls, limit, anyAge, call.key);
            Claims(calls, limit, anyAge, call) <==>
              last.None? || (if anyAge then call.now - last.value > limit else call.now - last.value >= limit)
  {
    var all := calls + [call];
    assert all[|calls|] == call && forall k :: 0 <= k < |calls| ==> all[k] == calls[k];
    assert Before(calls, call.now);
    SlotsHoldLastGrant(calls, limit, anyAge, call.key, call.now);
  }

  // ---------------------------------------------------------------------
  // AllowAt: a counter per user and minute
  // ---------------------------------------------------------------------

  /** Go's integer division rounds toward zero. */
  function Minute(unix: int): int { if unix >= 0 then unix / 60 else -((-unix) / 60) }

  datatype Bucket = Bucket(minute: int, count: nat)

  function Hit(buckets: map<string, Bucket>, perMinute: int, call: Call): (map<string, Bucket>, bool) {
    if perMinute <= 0 then (buckets, true)
    else
      var m := Minute(call.now);
      var b := if call.key in buckets && buckets[call.key].minute == m then buckets[call.key] else Bucket(m, 0);
      if b.count >= perMinute then (buckets[call.key := b], false) else (buckets[call.key := b.(count := b.count + 1)], true)
  }

  class Guard {
    const perMinute: int
    var buckets: map<string, Bucket>

    constructor (perMinute: int)
      ensures this.perMinute == perMinute && buckets == map[]
    {
      this.perMinute, buckets := perMinute, map[];
    }

    method AllowAt(user: string, now: int) returns (ok: bool)
      modifies this
      ensures var step := Hit(old(buckets), perMinute, Call(user, now)); buckets == step.0 && ok == step.1
      ensures perMinute <= 0 ==> ok && buckets == old(buckets)
      ensures forall other :: other in old(buckets) && other != user ==> other in buckets && buckets[other] == old(buckets)[other]
    {
      if perMinute <= 0 { return true; }
      var minute := Minute(now);
      if user !in buckets || buckets[user].minute != minute {
        buckets := buckets[user := Bucket(minute, 0)];
      }
      var b := buckets[user];
      if b.count >= perMinute {
        assert buckets == buckets[user := b];
        return false;
      }
      buckets := buckets[user := b.(count := b.count + 1)];
      return true;
    }
  }

  function Buckets(calls: seq<Call>, perMinute: int): map<string, Bucket> {
    if calls == [] then map[] else Hit(Buckets(calls[..|calls| - 1], perMinute), perMinute, calls[|calls| - 1]).0
  }

  /** When requests of the user were let through. */
  function Passed(calls: seq<Call>, perMinute: int, user: string): seq<int> {
    if calls == [] then []
    else
      var last, front := calls[|calls| - 1], calls[..|calls| - 1];
      var before := Passed(front, perMinute, user);
      if last.key == user && Hit(Buckets(front, perMinute), perMinute, last).1 then before + [last.now] else before
  }

  function InMinute(m: int): int -> bool { (t: int) => Minute(t) == m }

  lemma {:induction false} NoneInMinute(s: seq<int>, m: int)
    requires forall t :: t in s ==> Minute(t) < m
    ensures Filter(s, InMinute(m)) == []
  {
    if s != [] {
      assert s[|s| - 1] in s && forall t :: t in s[..|s| - 1] ==> t in s;
      NoneInMinute(s[..|s| - 1], m);
    }
  }

  /** Minutes are counted from 1970; minute 0 also holds the minute before it. */
  lemma MinuteIs(t: int, m: int)
    ensures t >= 0 ==> (Minute(t) == m <==> 60 * m <= t < 60 * m + 60)
    ensures t < 0 ==> (Minute(t) == m <==> 60 * m - 60 < t <= 60 * m)
  {
  }

  lemma MinuteGrows(a: int, b: int)
    requires a <= b
    ensures Minute(a) <= Minute(b)
  {
  }

  /** The bucket counts the requests of its minute, and no later one has passed. */
  ghost predicate BucketExact(calls: seq<Call>, perMinute: int, user: string, now: int) {
    var buckets, passed := Buckets(calls, perMinute), Passed(calls, perMinute, user);
    if user in buckets
    then buckets[user].minute <= Minute(now) && buckets[user].count == |Filter(passed, InMinute(buckets[user].minute))|
         && buckets[user].count <= perMinute && forall t :: t in passed ==> Minute(t) <= buckets[user].minute
    else passed == []
  }

  lemma {:induction false} BucketsExact(calls: seq<Call>, perMinute: int, user: string, now: int)
    requires perMinute > 0 && Ordered(calls) && Before(calls, now)
    ensures BucketExact(calls, perMinute, user, now)
  {
    if calls != [] {
      OrderedFront(calls);
      var last, front := calls[|calls| - 1], calls[..|calls| - 1];
      BucketsExact(front, perMinute, user, last.now);
      MinuteGrows(last.now, now);
      if last.key == user {
        var m := Minute(last.now);
        FilterAppend(Passed(front, perMinute, user), last.now, InMinute(m));
        var before := Buckets(front, perMinute);
        if user !in before || before[user].minute != m { NoneInMinute(Passed(front, perMinute, user), m); }
      }
    }
  }

  /** A request is refused exactly when `perMinute` requests of the user have
      passed in its minute. */
  lemma LimitedExactly(calls: seq<Call>, perMinute: int, call: Call)
    requires perMinute > 0 && Ordered(calls + [call])
    ensures !Hit(Buckets(calls, perMinute), perMinute, call).1 <==>
            |Filter(Passed(calls, perMinute, call.key), InMinute(Minute(call.now)))| == perMinute
  {
    var all := calls + [call];
    assert all[|calls|] == call && forall k :: 0 <= k < |calls| ==> all[k] == calls[k];
    assert Before(calls, call.now);
    BucketsExact(calls, perMinute, call.key, call.now);
    var m, buckets := Minute(call.now), Buckets(calls, perMinute);
    if call.key !in buckets || buckets[call.key].minute != m { NoneInMinute(Passed(calls, perMinute, call.key), m); }
  }

  lemma {:induction false} PassedAreCalls(calls: seq<Call>, perMinute: int, user: string, t: int)
    requires t in Passed(calls, perMinute, user)
    ensures exists k :: 0 <= k < |calls| && calls[k].now == t && calls[k].key == user
  {
    var last, front := calls[|calls| - 1], calls[..|calls| - 1];
    if t in Passed(front, perMinute, user) {
      PassedAreCalls(front, perMinute, user, t);
      var k :| 0 <= k < |front| && front[k].now == t && front[k].key == user;
      assert calls[k] == front[k];
    }
  }

  /** After 1970: refused exactly when the limit has passed in the 60 seconds of the
      clock minute of the call. */
  lemma LimitedInMinute(calls: seq<Call>, perMinute: int, call: Call)
    requires perMinute > 0 && Ordered(calls + [call]) && call.now >= 0 && forall k :: 0 <= k < |calls| ==> calls[k].now >= 0
    ensures !Hit(Buckets(calls, perMinute), perMinute, call).1 <==>
            |Filter(Passed(calls, perMinute, call.key), InSpan(call.now - call.now % 60, 60))| == perMinute
  {
    LimitedExactly(calls, perMinute, call);
    var m, passed := Minute(call.now), Passed(calls, perMinute, call.key);
    MinuteIs(call.now, m);
    forall t | t in passed ensures InMinute(m)(t) == InSpan(call.now - call.now % 60, 60)(t) {
      PassedAreCalls(calls, perMinute, call.key, t);
      MinuteIs(t, m);
    }
    FilterSame(passed, InMinute(m), InSpan(call.now - call.now % 60, 60));
  }

  lemma {:induction false} MinuteBounded(calls: seq<Call>, perMinute: int, user: string, m: int)
    requires perMinute > 0 && Ordered(calls)
    ensures |Filter(Passed(calls, perMinute, user), InMinute(m))| <= perMinute
  {
    if calls != [] {
      var last, front := calls[|calls| - 1], calls[..|calls| - 1];
      OrderedFront(calls);
      MinuteBounded(front, perMinute, user, m);
      FilterAppend(Passed(front, perMinute, user), last.now, InMinute(m));
      if last.key == user && Minute(last.now) == m {
        assert front + [last] == calls;
        LimitedExactly(front, perMinute, last);
      }
    }
  }

  /** In every run a user passes at most `perMinute` requests in a calendar
      minute, and so at most twice that in any 60 seconds. */
  lemma SpanBounded(calls: seq<Call>, perMinute: int, user: string, from: int)
    requires perMinute > 0 && Ordered(calls)
    ensures |Filter(Passed(calls, perMinute, user), InSpan(from, 60))| <= 2 * perMinute
  {
    var m := Minute(from);
    MinuteBounded(calls, perMinute, user, m);
    MinuteBounded(calls, perMinute, user, m + 1);
    forall t | InSpan(from, 60)(t) ensures InMinute(m)(t) || InMinute(m + 1)(t) {
      MinuteGrows(from, t);
    }
    FilterCover(Passed(calls, perMinute, user), InSpan(from, 60), InMinute(m), InMinute(m + 1));
  }
}
