/** The run event log (internal/events) and the stream that replays it to a client
    (internal/httpapi/sse.go).  Events become visible in the order of their seq. */
module EventStream {
  import opened Prelude

  datatype Event = Event(seqNo: int, project: string, kind: string, todo: string)

  const RUN_DONE := "run_done"
  const STARTED := "planner_started"

  // ---------------------------------------------------------------------
  // The log
  // ---------------------------------------------------------------------

  predicate Increasing(log: seq<Event>) {
    && (forall i :: 0 <= i < |log| ==> log[i].seqNo > 0)
    && (forall i, j :: 0 <= i < j < |log| ==> log[i].seqNo < log[j].seqNo)
  }

  predicate Is(e: Event, project: string, kind: string) { e.project == project && e.kind == kind }

  /** `COALESCE(max(seq), 0)` over the starts of the project. */
  function LastStart(log: seq<Event>, project: string): int {
    if log == [] then 0
    else if Is(log[|log| - 1], project, STARTED) then log[|log| - 1].seqNo else LastStart(log[..|log| - 1], project)
  }

  /** The NOT EXISTS subquery finds a row. */
  predicate DoneSince(log: seq<Event>, project: string, start: int) {
    exists i :: 0 <= i < |log| && Is(log[i], project, RUN_DONE) && log[i].seqNo > start
  }

  function AfterRunDone(log: seq<Event>, project: string, seqNo: int): seq<Event> {
    if DoneSince(log, project, LastStart(log, project)) then log else log + [Event(seqNo, project, RUN_DONE, "")]
  }

  predicate StartedAfter(log: seq<Event>, project: string, i: int) {
    exists k :: i < k < |log| && 0 <= k && log[k].project == project && log[k].kind == "planner_started"
  }

  /** The project's last run is not marked as done: every run_done of it has a later
      planner_started of it.  Other projects do not matter. */
  predicate RunOpen(log: seq<Event>, project: string) {
    forall i :: 0 <= i < |log| && log[i].project == project && log[i].kind == "run_done" ==> StartedAfter(log, project, i)
  }

  lemma {:induction false} LastStartIsLast(log: seq<Event>, project: string, k: nat)
    requires Increasing(log) && k < |log| && Is(log[k], project, STARTED)
    ensures log[k].seqNo <= LastStart(log, project)
  {
    if !Is(log[|log| - 1], project, STARTED) { LastStartIsLast(log[..|log| - 1], project, k); }
  }

  lemma DoneSinceIs(log: seq<Event>, project: string)
    requires Increasing(log)
    ensures DoneSince(log, project, LastStart(log, project)) <==> !RunOpen(log, project)
  {
    var start := LastStart(log, project);
    LastStartFound(log, project);
    forall i | 0 <= i < |log| && Is(log[i], project, RUN_DONE)
      ensures log[i].seqNo > start <==> !StartedAfter(log, project, i)
    {
      if k :| i < k < |log| && Is(log[k], project, STARTED) { LastStartIsLast(log, project, k); }
      if log[i].seqNo <= start {
        var k :| 0 <= k < |log| && Is(log[k], project, STARTED) && log[k].seqNo == start;
        assert i < k;
      }
    }
    if DoneSince(log, project, start) {
      var i :| 0 <= i < |log| && Is(log[i], project, RUN_DONE) && log[i].seqNo > start;
      assert !StartedAfter(log, project, i);
    }
    if !RunOpen(log, project) {
      var i :| 0 <= i < |log| && log[i].project == project && log[i].kind == "run_done" && !StartedAfter(log, project, i);
      assert Is(log[i], project, RUN_DONE);
    }
  }

  class EventLog {
    var log: seq<Event>

    ghost predicate Valid()
      reads this
    {
      Increasing(log)
    }

    constructor ()
      ensures Valid() && log == []
    {
      log := [];
    }

    /** `next` is the next value of the seq column. */
    method Append(project: string, kind: string, todo: string, next: int) returns (seqNo: int)
      requires Valid() && next > 0 && forall i :: 0 <= i < |log| ==> log[i].seqNo < next
      modifies this
      ensures Valid() && log == old(log) + [Event(next, project, kind, todo)] && seqNo == next
    {
      log := log + [Event(next, project, kind, todo)];
      return next;
    }

    /** One transaction under the project's advisory lock. */
    method AppendRunDone(project: string, next: int) returns (inserted: bool)
      requires Valid() && next > 0 && forall i :: 0 <= i < |log| ==> log[i].seqNo < next
      modifies this
      ensures Valid() && log == AfterRunDone(old(log), project, next)
      ensures inserted <==> !DoneSince(old(log), project, LastStart(old(log), project))
      ensures inserted <==> RunOpen(old(log), project)
      ensures log == if inserted then old(log) + [Event(next, project, "run_done", "")] else old(log)
    {
      DoneSinceIs(log, project);
      var start := 0;
      for i := 0 to |log|
        invariant start == LastStart(log[..i], project)
        invariant log == old(log)
      {
        assert log[..i + 1][..i] == log[..i];
        if Is(log[i], project, STARTED) { start := log[i].seqNo; }
      }
      assert log[..|log|] == log;
      if DoneSince(log, project, start) { return false; }
      log := log + [Event(next, project, RUN_DONE, "")];
      return true;
    }
  }

  datatype Write = Plain(project: string, kind: string, todo: string) | RunDone(project: string)

  /** A write with seq `n`. */
  function Written(log: seq<Event>, w: Write, n: int): seq<Event> {
    match w
    case Plain(project, kind, todo) => log + [Event(n, project, kind, todo)]
    case RunDone(project) => AfterRunDone(log, project, n)
  }

  function History(writes: seq<Write>): seq<Event> {
    if writes == [] then [] else Written(History(writes[..|writes| - 1]), writes[|writes| - 1], |writes|)
  }

  predicate StartBetween(log: seq<Event>, project: string, i: int, j: int) {
    exists k :: 0 <= i < k < j < |log| && Is(log[k], project, STARTED)
  }

  /** Between two run_done events of a project a planner_started lies. */
  ghost predicate OncePerRun(log: seq<Event>, project: string) {
    forall i, j :: 0 <= i < j < |log| && Is(log[i], project, RUN_DONE) && Is(log[j], project, RUN_DONE) ==> StartBetween(log, project, i, j)
  }

  lemma {:induction false} LastStartFound(log: seq<Event>, project: string)
    requires Increasing(log)
    ensures var start := LastStart(log, project);
            start > 0 ==> exists k :: 0 <= k < |log| && Is(log[k], project, STARTED) && log[k].seqNo == start
    ensures LastStart(log, project) >= 0
  {
    if log != [] && !Is(log[|log| - 1], project, STARTED) {
      LastStartFound(log[..|log| - 1], project);
      var start := LastStart(log[..|log| - 1], project);
      if start > 0 {
        var k :| 0 <= k < |log| - 1 && Is(log[..|log| - 1][k], project, STARTED) && log[..|log| - 1][k].seqNo == start;
        assert log[k].seqNo == start;
      }
    }
  }

  lemma OnceKept(log: seq<Event>, project: string, e: Event)
    requires OncePerRun(log, project)
    requires Is(e, project, RUN_DONE) ==> Increasing(log) && !DoneSince(log, project, LastStart(log, project))
    ensures OncePerRun(log + [e], project)
  {
    var t := log + [e];
    forall i, j | 0 <= i < j < |t| && Is(t[i], project, RUN_DONE) && Is(t[j], project, RUN_DONE) ensures StartBetween(t, project, i, j) {
      if j < |log| {
        assert log[i] == t[i] && log[j] == t[j];
        var k :| 0 <= i < k < j < |log| && Is(log[k], project, STARTED);
        assert t[k] == log[k];
      } else {
        LastStartFound(log, project);
        assert log[i].seqNo <= LastStart(log, project);
        var k :| 0 <= k < |log| && Is(log[k], project, STARTED) && log[k].seqNo == LastStart(log, project);
        assert k != i && t[k] == log[k];
      }
    }
  }

  lemma {:induction false} HistoryIncreasing(writes: seq<Write>)
    ensures Increasing(History(writes)) && forall i :: 0 <= i < |History(writes)| ==> History(writes)[i].seqNo <= |writes|
  {
    if writes != [] { HistoryIncreasing(writes[..|writes| - 1]); }
  }

  /** Over every interleaving of writers: each planner_started of a project is
      followed by at most one run_done before the next, as long as run_done is
      only written through AppendRunDone. */
  lemma {:induction false} RunDoneOncePerRun(writes: seq<Write>, project: string)
    requires forall k :: 0 <= k < |writes| ==> writes[k].Plain? ==> writes[k].kind != RUN_DONE
    ensures OncePerRun(History(writes), project)
  {
    if writes != [] {
      var front, last := writes[..|writes| - 1], writes[|writes| - 1];
      assert forall k :: 0 <= k < |front| ==> front[k] == writes[k];
      RunDoneOncePerRun(front, project);
      HistoryIncreasing(front);
      var log := History(front);
      match last
      case Plain(p, kind, todo) => OnceKept(log, project, Event(|writes|, p, kind, todo));
      case RunDone(p) =>
        if !DoneSince(log, p, LastStart(log, p)) { OnceKept(log, project, Event(|writes|, p, RUN_DONE, "")); }
    }
  }

  // ---------------------------------------------------------------------
  // List
  // ---------------------------------------------------------------------

  function Later(project: string, after: int): Event -> bool { (e: Event) => e.project == project && e.seqNo > after }

  /** The project's events behind the cursor. */
  function Mine(log: seq<Event>, project: string, after: int): seq<Event> { Filter(log, Later(project, after)) }

  function PageLimit(limit: int): nat { if limit <= 0 || limit > 500 then 200 else limit }

  method List(log: seq<Event>, project: string, after: int, limit: int) returns (out: seq<Event>)
    requires Increasing(log)
    ensures out <= Mine(log, project, after)
    ensures |out| < PageLimit(limit) ==> out == Mine(log, project, after)
    ensures |out| <= PageLimit(limit)
    ensures forall e :: e in out ==> e in log && e.project == project && e.seqNo > after
    ensures |out| < (if 1 <= limit <= 500 then limit else 200) ==>
              forall e :: e in log && e.project == project && e.seqNo > after ==> e in out
    ensures |out| <= if 1 <= limit <= 500 then limit else 200
  {
    forall e { MineIs(log, project, after, e); }
    var n := PageLimit(limit);
    out := [];
    var i := 0;
    while i < |log| && |out| < n
      invariant 0 <= i <= |log| && |out| <= n
      invariant out == Mine(log[..i], project, after)
    {
      assert log[..i + 1][..i] == log[..i];
      if log[i].project == project && log[i].seqNo > after {
        out := out + [log[i]];
      }
      i := i + 1;
    }
    MineGrows(log[..i], log, project, after);
    assert log[..|log|] == log;
  }

  lemma MineIs(log: seq<Event>, project: string, after: int, e: Event)
    ensures e in Mine(log, project, after) <==> e in log && e.project == project && e.seqNo > after
  {
    FilterIn(log, Later(project, after), e);
  }

  /** A longer log only adds events at the end. */
  lemma {:induction false} MineGrows(log: seq<Event>, longer: seq<Event>, project: string, after: int)
    requires log <= longer
    ensures Mine(log, project, after) <= Mine(longer, project, after)
    decreases |longer|
  {
    if |log| < |longer| {
      var n := |longer| - 1;
      assert log <= longer[..n];
      MineGrows(log, longer[..n], project, after);
    } else {
      assert log == longer;
    }
  }

  lemma {:induction false} MineFacts(log: seq<Event>, project: string, after: int)
    requires Increasing(log)
    ensures Increasing(Mine(log, project, after))
    ensures forall k :: 0 <= k < |Mine(log, project, after)| ==> Mine(log, project, after)[k] in log && Mine(log, project, after)[k].seqNo > after
  {
    if log != [] {
      var n := |log| - 1;
      MineFacts(log[..n], project, after);
      var mine := Mine(log[..n], project, after);
      forall k | 0 <= k < |mine| ensures mine[k] in log && mine[k].seqNo < log[n].seqNo {
        var i :| 0 <= i < n && log[..n][i] == mine[k];
        assert log[i] == mine[k];
      }
      assert log[n] in log;
    }
  }

  /** Listing behind the n-th delivered event gives what follows it. */
  lemma {:induction false} MineSkips(log: seq<Event>, project: string, after: int, n: nat)
    requires Increasing(log) && 0 < n <= |Mine(log, project, after)|
    ensures Mine(log, project, Mine(log, project, after)[n - 1].seqNo) == Mine(log, project, after)[n..]
  {
    var all := Mine(log, project, after);
    var cursor := all[n - 1].seqNo;
    var m := |log| - 1;
    var front := Mine(log[..m], project, after);
    MineFacts(log, project, after);
    if Later(project, after)(log[m]) {
      assert all == front + [log[m]];
      if n == |all| {
        NoneBeyond(log, project, cursor);
      } else {
        MineSkips(log[..m], project, after, n);
        assert all[n - 1] == front[n - 1];
        assert cursor < all[|front|].seqNo;
        assert all[n..] == front[n..] + [log[m]];
      }
    } else {
      MineSkips(log[..m], project, after, n);
    }
  }

  lemma {:induction false} NoneBeyond(log: seq<Event>, project: string, cursor: int)
    requires forall i :: 0 <= i < |log| ==> log[i].seqNo <= cursor
    ensures Mine(log, project, cursor) == []
  {
    if log != [] { NoneBeyond(log[..|log| - 1], project, cursor); }
  }

  // ---------------------------------------------------------------------
  // The stream
  // ---------------------------------------------------------------------

  /** The cursor of a Last-Event-ID header; None when there is none. */
  function Resume(header: Option<string>): int {
    if header.Some? && header.value != "" && Atoi(header.value).Some? && Atoi(header.value).value > 0 then Atoi(header.value).value else 0
  }

  /** A header that is a positive number is the cursor; anything else starts over. */
  lemma ResumeExactly(header: string)
    ensures var n := Atoi(header);
            && (n.Some? && n.value > 0 ==> Resume(Some(header)) == n.value)
            && (n.None? || n.value <= 0 ==> Resume(Some(header)) == 0)
    ensures Resume(None) == 0
  {
  }

  /** The id line of an event leads back to its seq. */
  lemma ResumeFromId(seqNo: nat)
    requires 0 < seqNo <= MAX_INT64
    ensures Resume(Some(Decimal(seqNo))) == seqNo
  {
    AtoiDecimal(seqNo);
  }

  /** What was sent is a contiguous piece of the project's log that starts just
      behind the resume cursor, and `after` is its last seq. */
  ghost predicate Delivered(log: seq<Event>, project: string, cursor: int, sent: seq<Event>, after: int) {
    sent <= Mine(log, project, cursor) && after == if sent == [] then cursor else sent[|sent| - 1].seqNo
  }

  lemma DeliveredGrows(log: seq<Event>, longer: seq<Event>, project: string, cursor: int, sent: seq<Event>, after: int)
    requires log <= longer && Delivered(log, project, cursor, sent, after)
    ensures Delivered(longer, project, cursor, sent, after)
  {
    MineGrows(log, longer, project, cursor);
  }

  /** A batch read behind `after` continues the piece without gap or overlap. */
  lemma BatchContinues(log: seq<Event>, project: string, cursor: int, sent: seq<Event>, after: int, batch: seq<Event>)
    requires Increasing(log) && Delivered(log, project, cursor, sent, after) && batch <= Mine(log, project, after)
    ensures sent + batch <= Mine(log, project, cursor)
    ensures batch == Mine(log, project, after) ==> sent + batch == Mine(log, project, cursor)
  {
    var all := Mine(log, project, cursor);
    if sent != [] {
      MineSkips(log, project, cursor, |sent|);
      assert all == sent + all[|sent|..];
    } else {
      assert sent + batch == batch;
    }
  }

  predicate HasRunDone(events: seq<Event>) { exists k :: 0 <= k < |events| && events[k].kind == RUN_DONE }

  predicate Rising(versions: seq<int>) {
    forall i, j :: 0 <= i < j < |versions| ==> versions[i] < versions[j]
  }

  lemma RisingAppend(versions: seq<int>, v: int)
    requires Rising(versions) && (versions != [] ==> versions[|versions| - 1] < v)
    ensures Rising(versions + [v])
  {
    var t := versions + [v];
    forall i, j | 0 <= i < j < |t| ensures t[i] < t[j] {
      assert j == |versions| && i < |versions| - 1 ==> versions[i] < versions[|versions| - 1];
    }
  }

  /** What one round of a connection finds: the log, whether it can be read, and
      the state version, None when the state cannot be loaded. */
  datatype Snapshot = Snapshot(log: seq<Event>, listed: bool, version: Option<int>)

  predicate Readable(snap: Snapshot) { snap.listed && snap.version.Some? }

  predicate Feed(feed: seq<Snapshot>) {
    && (forall i :: 0 <= i < |feed| ==> Increasing(feed[i].log) && (feed[i].version.Some? ==> feed[i].version.value >= 0))
    && (forall i, j :: 0 <= i < j < |feed| ==> feed[i].log <= feed[j].log)
    && (forall i, j :: 0 <= i < j < |feed| && feed[i].version.Some? && feed[j].version.Some? ==>
          feed[i].version.value <= feed[j].version.value)
  }

  datatype End = RunDoneSeen | ReadFailed | ClientGone

  /** What a connection has done after `rounds` rounds, the last of which sent `page` events. */
  ghost predicate Served(feed: seq<Snapshot>, rounds: nat, project: string, cursor: int,
                         sent: seq<Event>, after: int, states: seq<int>, page: nat, end: End) {
    && 0 < rounds <= |feed| && Rising(states)
    && var snap := feed[rounds - 1];
       && Delivered(snap.log, project, cursor, sent, after)
       && (snap.listed && page < 200 ==> sent == Mine(snap.log, project, cursor))
       && (end.ReadFailed? <==> !Readable(snap))
       && (end.RunDoneSeen? ==> HasRunDone(sent))
       && (end.ClientGone? ==> !HasRunDone(sent))
       && (!end.ReadFailed? ==> states != [] && states[|states| - 1] == snap.version.value)
  }

  /** A connection between two rounds. */
  ghost predicate Running(feed: seq<Snapshot>, rounds: nat, project: string, cursor: int,
                          sent: seq<Event>, after: int, states: seq<int>, version: int, page: nat) {
    && (rounds == 0 ==> sent == [] && after == cursor && states == [] && version == -1)
    && (rounds > 0 ==> Served(feed, rounds, project, cursor, sent, after, states, page, ClientGone)
                       && version == feed[rounds - 1].version.value)
  }

  /** It meets the next log with what it has sent, and a new state version would rise. */
  lemma NextRound(feed: seq<Snapshot>, rounds: nat, project: string, cursor: int,
                  sent: seq<Event>, after: int, states: seq<int>, version: int, page: nat)
    requires Feed(feed) && rounds < |feed| && Running(feed, rounds, project, cursor, sent, after, states, version, page)
    ensures Delivered(feed[rounds].log, project, cursor, sent, after) && Increasing(feed[rounds].log)
    ensures Rising(states) && !HasRunDone(sent)
    ensures feed[rounds].version.Some? && feed[rounds].version.value != version ==> Rising(states + [feed[rounds].version.value])
    ensures feed[rounds].version.Some? && feed[rounds].version.value == version ==> states != []
  {
    if rounds > 0 { DeliveredGrows(feed[rounds - 1].log, feed[rounds].log, project, cursor, sent, after); }
    if feed[rounds].version.Some? && feed[rounds].version.value != version { RisingAppend(states, feed[rounds].version.value); }
  }

  class Stream {
    const project: string
    var after: int
    var sent: seq<Event>
    var lastStateVersion: int
    var states: seq<int>

    constructor (project: string, header: Option<string>)
      ensures this.project == project && after == Resume(header) && sent == [] && states == [] && lastStateVersion == -1
    {
      this.project, after, sent, states, lastStateVersion := project, Resume(header), [], [], -1;
    }

    method Send(batch: seq<Event>) returns (done: bool)
      modifies this`after, this`sent
      ensures sent == old(sent) + batch && (done <==> HasRunDone(batch))
      ensures after == if batch == [] then old(after) else batch[|batch| - 1].seqNo
    {
      ghost var before := sent;
      done := false;
      for i := 0 to |batch|
        invariant sent == before + batch[..i]
        invariant after == if i == 0 then old(after) else batch[i - 1].seqNo
        invariant done <==> exists k :: 0 <= k < i && batch[k].kind == RUN_DONE
      {
        var e := batch[i];
        after := e.seqNo;
        sent := sent + [e];
        if e.kind == RUN_DONE {
          done := true;
        }
      }
    }

    /** One round: the next page of events, then a state frame if its version
        changed.  `listed` says that the page could be read, a version that the
        state could; when either fails the connection ends. */
    method Emit(log: seq<Event>, listed: bool, version: Option<int>, ghost cursor: int) returns (done: bool, failed: bool)
      requires Increasing(log) && Delivered(log, project, cursor, sent, after)
      modifies this
      ensures Delivered(log, project, cursor, sent, after)
      ensures old(sent) <= sent && (done <==> HasRunDone(sent[|old(sent)|..]))
      ensures failed <==> !listed || version.None?
      ensures !listed ==> sent == old(sent)
      ensures listed && |sent| < |old(sent)| + 200 ==> sent == Mine(log, project, cursor)
      ensures lastStateVersion == if failed then old(lastStateVersion) else version.value
      ensures states == if failed || version.value == old(lastStateVersion) then old(states) else old(states) + [version.value]
    {
      if !listed { return false, true; }
      var batch := List(log, project, after, 200);
      BatchContinues(log, project, cursor, sent, after, batch);
      ghost var before := sent;
      done := Send(batch);
      assert sent[|before|..] == batch;
      if version.None? { return done, true; }
      if version.value != lastStateVersion {
        lastStateVersion := version.value;
        states := states + [version.value];
      }
      failed := false;
    }

    /** One round of a connection that is still running. */
    method Round(feed: seq<Snapshot>, rounds: nat, ghost page: nat, ghost cursor: int) returns (end: End, sentNow: nat)
      requires Feed(feed) && rounds < |feed| && Running(feed, rounds, project, cursor, sent, after, states, lastStateVersion, page)
      modifies this
      ensures Served(feed, rounds + 1, project, cursor, sent, after, states, sentNow, end)
      ensures end.ClientGone? ==> Running(feed, rounds + 1, project, cursor, sent, after, states, lastStateVersion, sentNow)
    {
      var snap := feed[rounds];
      var before := sent;
      NextRound(feed, rounds, project, cursor, sent, after, states, lastStateVersion, page);
      var done, failed := Emit(snap.log, snap.listed, snap.version, cursor);
      RunDoneSplits(before, sent);
      sentNow := |sent| - |before|;
      end := if failed then ReadFailed else if done then RunDoneSeen else ClientGone;
    }
  }

  /** A whole connection; it ends with the feed when the client goes away, after a
      run_done, or when something cannot be read.  `page` is the number of events
      its last round sent. */
  method StreamEvents(feed: seq<Snapshot>, project: string, header: Option<string>)
    returns (s: Stream, rounds: nat, end: End, page: nat)
    requires Feed(feed)
    ensures end.ClientGone? ==> rounds == |feed|
    ensures rounds == 0 ==> end.ClientGone? && s.sent == [] && s.states == []
    ensures rounds > 0 ==> Served(feed, rounds, project, Resume(header), s.sent, s.after, s.states, page, end)
  {
    s := new Stream(project, header);
    rounds, end, page := 0, ClientGone, 0;
    while rounds < |feed| && end.ClientGone?
      invariant rounds <= |feed| && fresh(s) && s.project == project
      invariant rounds == 0 ==> end.ClientGone? && s.sent == [] && s.states == []
      invariant rounds > 0 ==> Served(feed, rounds, project, Resume(header), s.sent, s.after, s.states, page, end)
      invariant end.ClientGone? ==> Running(feed, rounds, project, Resume(header), s.sent, s.after, s.states, s.lastStateVersion, page)
      decreases |feed| - rounds
    {
      end, page := s.Round(feed, rounds, page, Resume(header));
      rounds := rounds + 1;
    }
  }

  lemma RunDoneSplits(a: seq<Event>, b: seq<Event>)
    requires a <= b
    ensures HasRunDone(b) <==> HasRunDone(a) || HasRunDone(b[|a|..])
  {
    if HasRunDone(b) {
      var k :| 0 <= k < |b| && b[k].kind == RUN_DONE;
      assert if k < |a| then a[k] == b[k] else b[|a|..][k - |a|] == b[k];
    }
    if HasRunDone(b[|a|..]) {
      var k :| 0 <= k < |b| - |a| && b[|a|..][k].kind == RUN_DONE;
      assert b[|a| + k].kind == RUN_DONE;
    }
    if HasRunDone(a) {
      var k :| 0 <= k < |a| && a[k].kind == RUN_DONE;
      assert b[k] == a[k];
    }
  }

  /** What a connection sends is strictly increasing. */
  lemma SentIncreases(log: seq<Event>, project: string, cursor: int, sent: seq<Event>, after: int)
    requires Increasing(log) && Delivered(log, project, cursor, sent, after)
    ensures Increasing(sent)
    ensures forall k :: 0 <= k < |sent| ==> sent[k].seqNo > cursor && sent[k] in log && sent[k].project == project
  {
    MineFacts(log, project, cursor);
    forall e { MineIs(log, project, cursor, e); }
    assert forall k :: 0 <= k < |sent| ==> sent[k] == Mine(log, project, cursor)[k];
  }

  /** Reconnecting with the last id received: both connections together deliver a
      contiguous piece of the log, with neither gap nor duplicate. */
  lemma ReconnectContinues(log: seq<Event>, longer: seq<Event>, project: string, cursor: int,
                           first: seq<Event>, afterFirst: int, second: seq<Event>, afterSecond: int)
    requires log <= longer && Increasing(longer)
    requires Delivered(log, project, cursor, first, afterFirst) && Delivered(longer, project, afterFirst, second, afterSecond)
    ensures Delivered(longer, project, cursor, first + second, afterSecond)
    ensures Increasing(first + second)
  {
    DeliveredGrows(log, longer, project, cursor, first, afterFirst);
    BatchContinues(longer, project, cursor, first, afterFirst, second);
    SentIncreases(longer, project, cursor, first + second, afterSecond);
  }
}
