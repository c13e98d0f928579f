/** Whole runs of the export queue with any number of runners, the reaper and
    project deletion: why `status='running'` alone fences the terminal writes. */
module ExportRuns {
  import opened Prelude
  import opened Exports

  /** Claims are numbered in the order they were made: `claims[n]` is the job of
      claim `n`.  `open` are the claims whose runner has still to write (or died).
      `won` are the claims whose write took effect, with what they wrote. */
  datatype State = State(jobs: Jobs, claims: seq<string>, open: set<nat>, won: map<nat, Write>)

  datatype Write =
    | WriteDone(blobKey: string, configId: string, size: int)
    | WriteFailed(error: string, maxAttempts: int, backoff: int, now: int)

  datatype Step =
    | Create(id: string, project: string, plan: string, format: string, now: int)
    | Claim(id: string, worker: string, until: int, now: int)
    | Finish(claim: nat, write: Write)
    | Abandon(claim: nat)  // the runner dies, or its write never reaches the table
    | Reap(ttl: int, now: int)
    | DeleteProject(project: string)

  function WriteTo(jobs: Jobs, id: string, w: Write): Jobs {
    match w
    case WriteDone(blobKey, configId, size) => MarkDoneIn(jobs, id, blobKey, configId, size)
    case WriteFailed(error, maxAttempts, backoff, now) => MarkFailedIn(jobs, id, error, maxAttempts, backoff, now)
  }

  function Apply(s: State, step: Step): State {
    match step
    case Create(id, project, plan, format, now) =>
      if id in s.jobs then s else s.(jobs := s.jobs[id := NewJob(project, plan, format, now)])
    case Claim(id, worker, until, now) =>
      if Claimable(s.jobs, id, now)
      then s.(jobs := s.jobs[id := Leased(s.jobs[id], worker, until)], claims := s.claims + [id], open := s.open + {|s.claims|})
      else s
    case Finish(n, w) =>
      if n in s.open && n < |s.claims|
      then State(WriteTo(s.jobs, s.claims[n], w), s.claims, s.open - {n},
                 if IsRunning(s.jobs, s.claims[n]) then s.won[n := w] else s.won)
      else s
    case Abandon(n) => s.(open := s.open - {n})
    case Reap(ttl, now) => s.(jobs := ReapIn(s.jobs, ttl, now))
    case DeleteProject(project) => s.(jobs := DeleteProjectIn(s.jobs, project))
  }

  function Run(s: State, steps: seq<Step>): State
    decreases |steps|
  {
    if steps == [] then s else Run(Apply(s, steps[0]), steps[1..])
  }

  const EMPTY := State(map[], [], {}, map[])

  // ---------------------------------------------------------------------
  // The invariant
  // ---------------------------------------------------------------------

  function Count(claims: seq<string>, id: string): nat {
    if claims == [] then 0 else Count(claims[..|claims| - 1], id) + if claims[|claims| - 1] == id then 1 else 0
  }

  predicate IsLatest(claims: seq<string>, n: nat) {
    n < |claims| && forall m :: n < m < |claims| ==> claims[m] != claims[n]
  }

  /** Attempts and claims of one job, when no runner allows more than `limit` attempts. */
  predicate JobSound(j: Job, claimCount: nat, limit: nat) {
    match j.status
    case Pending => j.lockedUntil.None? && claimCount == j.attempts < limit
    case Running => j.lockedUntil.Some? && claimCount == j.attempts + 1 <= limit
    case _ => j.lockedUntil.None? && claimCount <= limit
  }

  /** An open claim either is the latest one of a job still running, or its job
      was failed under it (by the reaper or a deletion) and stays failed. */
  predicate ClaimFenced(s: State, n: nat) {
    && n < |s.claims| && n !in s.won && s.claims[n] in s.jobs
    && ((IsRunning(s.jobs, s.claims[n]) && IsLatest(s.claims, n)) || s.jobs[s.claims[n]].status == Failed)
  }

  /** A done job holds what its latest claim wrote. */
  predicate DoneRecorded(s: State, id: string)
    requires id in s.jobs
  {
    s.jobs[id].status == Done ==>
      exists n :: n in s.won && IsLatest(s.claims, n) && s.claims[n] == id
        && s.won[n] == WriteDone(s.jobs[id].blobKey, s.jobs[id].configId, s.jobs[id].size)
  }

  ghost predicate Inv(s: State, limit: nat) {
    && limit >= 1
    && (forall id :: id in s.jobs ==> JobSound(s.jobs[id], Count(s.claims, id), limit) && DoneRecorded(s, id))
    && (forall id :: id !in s.jobs ==> Count(s.claims, id) == 0)
    && (forall n :: n in s.open ==> ClaimFenced(s, n))
    && (forall n :: n in s.won ==> n < |s.claims|)
  }

  /** Runners allow between one and `limit` attempts. */
  predicate Within(step: Step, limit: nat) {
    step.Finish? && step.write.WriteFailed? ==> 1 <= step.write.maxAttempts <= limit
  }

  lemma {:induction false} CountZero(claims: seq<string>, id: string)
    ensures Count(claims, id) == 0 <==> forall n :: 0 <= n < |claims| ==> claims[n] != id
  {
    if claims != [] {
      CountZero(claims[..|claims| - 1], id);
      assert forall n :: 0 <= n < |claims| - 1 ==> claims[..|claims| - 1][n] == claims[n];
    }
  }

  /** The record of a done job survives any step that leaves its row and earlier
      writes alone and adds no claim of it. */
  lemma DoneCarries(s: State, t: State, id: string)
    requires id in s.jobs && id in t.jobs && DoneRecorded(s, id) && t.jobs[id] == s.jobs[id]
    requires |s.claims| <= |t.claims| && t.claims[..|s.claims|] == s.claims
    requires forall m :: |s.claims| <= m < |t.claims| ==> t.claims[m] != id
    requires forall n :: n in s.won && n < |s.claims| && n in t.won ==> t.won[n] == s.won[n]
    requires forall n :: n in s.won ==> n in t.won
    ensures DoneRecorded(t, id)
  {
    if s.jobs[id].status == Done {
      var n :| n in s.won && IsLatest(s.claims, n) && s.claims[n] == id
               && s.won[n] == WriteDone(s.jobs[id].blobKey, s.jobs[id].configId, s.jobs[id].size);
      assert t.claims[n] == s.claims[n];
      assert forall m :: n < m < |s.claims| ==> t.claims[m] == s.claims[m];
      assert n in t.won && IsLatest(t.claims, n);
    }
  }

  lemma CountSnoc(claims: seq<string>, id: string, x: string)
    ensures Count(claims + [id], x) == Count(claims, x) + if x == id then 1 else 0
  {
    assert (claims + [id])[..|claims|] == claims;
  }

  /** `t` is `s` after a claim of the pending job `id`. */
  predicate IsClaimOf(s: State, t: State, id: string, worker: string, until: int) {
    && id in s.jobs && s.jobs[id].status == Pending
    && t.jobs == s.jobs[id := Leased(s.jobs[id], worker, until)]
    && t.claims == s.claims + [id] && t.open == s.open + {|s.claims|} && t.won == s.won
  }

  lemma ClaimKeepsJob(s: State, t: State, id: string, worker: string, until: int, limit: nat, x: string)
    requires Inv(s, limit) && IsClaimOf(s, t, id, worker, until)
    ensures x in t.jobs ==> JobSound(t.jobs[x], Count(t.claims, x), limit)
    ensures x !in t.jobs ==> Count(t.claims, x) == 0
  {
    CountSnoc(s.claims, id, x);
    if x in t.jobs { assert JobSound(s.jobs[x], Count(s.claims, x), limit); }
  }

  lemma ClaimKeepsRecord(s: State, t: State, id: string, worker: string, until: int, limit: nat, x: string)
    requires Inv(s, limit) && IsClaimOf(s, t, id, worker, until) && x in t.jobs
    ensures DoneRecorded(t, x)
  {
    if x != id {
      assert DoneRecorded(s, x) && t.claims[..|s.claims|] == s.claims;
      DoneCarries(s, t, x);
    }
  }

  lemma ClaimKeepsFence(s: State, t: State, id: string, worker: string, until: int, limit: nat, n: nat)
    requires Inv(s, limit) && IsClaimOf(s, t, id, worker, until) && n in t.open
    ensures ClaimFenced(t, n)
  {
    if n != |s.claims| {
      assert ClaimFenced(s, n);
      assert t.claims[n] == s.claims[n] && s.claims[n] != id;
      assert forall m :: n < m < |s.claims| ==> t.claims[m] == s.claims[m];
    } else {
      assert t.claims[n] == id;
    }
  }

  lemma ClaimKeeps(s: State, t: State, id: string, worker: string, until: int, limit: nat)
    requires Inv(s, limit) && IsClaimOf(s, t, id, worker, until)
    ensures Inv(t, limit)
  {
    forall x ensures (x in t.jobs ==> JobSound(t.jobs[x], Count(t.claims, x), limit)) && (x !in t.jobs ==> Count(t.claims, x) == 0) {
      ClaimKeepsJob(s, t, id, worker, until, limit, x);
    }
    forall x | x in t.jobs ensures DoneRecorded(t, x) {
      ClaimKeepsRecord(s, t, id, worker, until, limit, x);
    }
    forall n | n in t.open ensures ClaimFenced(t, n) {
      ClaimKeepsFence(s, t, id, worker, until, limit, n);
    }
  }

  lemma LatestIsOne(claims: seq<string>, m: nat, n: nat)
    requires m < |claims| && n < |claims|
    ensures claims[m] == claims[n] && IsLatest(claims, m) && IsLatest(claims, n) ==> m == n
  {
  }

  /** `t` is `s` after the write `w` of the open claim `n`: it takes effect only
      while the job runs. */
  predicate IsFinishOf(s: State, t: State, n: nat, w: Write) {
    && n in s.open && n < |s.claims| && s.claims[n] in s.jobs
    && t.claims == s.claims && t.open == s.open - {n}
    && t.jobs == WriteTo(s.jobs, s.claims[n], w)
    && t.won == if IsRunning(s.jobs, s.claims[n]) then s.won[n := w] else s.won
  }

  lemma FinishKeepsFence(s: State, t: State, n: nat, w: Write, limit: nat, m: nat)
    requires Inv(s, limit) && IsFinishOf(s, t, n, w) && m in t.open
    ensures ClaimFenced(t, m)
  {
    assert ClaimFenced(s, n) && ClaimFenced(s, m);
    LatestIsOne(s.claims, m, n);
  }

  lemma FinishKeepsRecord(s: State, t: State, n: nat, w: Write, limit: nat, x: string)
    requires Inv(s, limit) && IsFinishOf(s, t, n, w) && x in t.jobs
    ensures DoneRecorded(t, x)
  {
    assert ClaimFenced(s, n) && DoneRecorded(s, x);
    if t.jobs[x].status == Done {
      if s.jobs[x].status == Done {
        DoneCarries(s, t, x);
      } else {
        assert n in t.won && t.won[n] == w;
      }
    }
  }

  lemma FinishKeepsJob(s: State, t: State, n: nat, w: Write, limit: nat, x: string)
    requires Inv(s, limit) && IsFinishOf(s, t, n, w) && Within(Finish(n, w), limit) && x in t.jobs
    ensures JobSound(t.jobs[x], Count(t.claims, x), limit)
  {
    assert JobSound(s.jobs[x], Count(s.claims, x), limit);
  }

  lemma FinishKeeps(s: State, t: State, n: nat, w: Write, limit: nat)
    requires Inv(s, limit) && IsFinishOf(s, t, n, w) && Within(Finish(n, w), limit)
    ensures Inv(t, limit)
  {
    forall x | x in t.jobs ensures JobSound(t.jobs[x], Count(t.claims, x), limit) && DoneRecorded(t, x) {
      FinishKeepsJob(s, t, n, w, limit, x);
      FinishKeepsRecord(s, t, n, w, limit, x);
    }
    forall m | m in t.open ensures ClaimFenced(t, m) {
      FinishKeepsFence(s, t, n, w, limit, m);
    }
  }

  /** A job untouched, or a live one ended by the reaper or a deletion. */
  predicate SameOrEnded(before: Job, after: Job) {
    after == before || ((before.status == Pending || before.status == Running) && after == Ended(before, after.error))
  }

  lemma FailingKeeps(s: State, jobs: Jobs, limit: nat)
    requires Inv(s, limit) && jobs.Keys == s.jobs.Keys
    requires forall id :: id in jobs ==> SameOrEnded(s.jobs[id], jobs[id])
    ensures Inv(s.(jobs := jobs), limit)
  {
    var t := s.(jobs := jobs);
    forall x | x in t.jobs ensures DoneRecorded(t, x) {
      if t.jobs[x].status == Done { DoneCarries(s, t, x); }
    }
    forall n | n in t.open ensures ClaimFenced(t, n) {
      assert ClaimFenced(s, n);
    }
  }

  lemma InvKept(s: State, step: Step, limit: nat)
    requires Inv(s, limit) && Within(step, limit)
    ensures Inv(Apply(s, step), limit)
  {
    match step {
      case Create(id, project, plan, format, now) =>
        CreateKeeps(s, step, limit);
      case Claim(id, worker, until, now) =>
        if Claimable(s.jobs, id, now) { ClaimKeeps(s, Apply(s, step), id, worker, until, limit); }
      case Finish(n, w) =>
        if n in s.open {
          assert ClaimFenced(s, n);
          FinishKeeps(s, Apply(s, step), n, w, limit);
        }
      case Abandon(n) =>
        AbandonKeeps(s, n, limit);
      case Reap(ttl, now) =>
        FailingKeeps(s, ReapIn(s.jobs, ttl, now), limit);
      case DeleteProject(project) =>
        FailingKeeps(s, DeleteProjectIn(s.jobs, project), limit);
    }
  }

  lemma CreateKeeps(s: State, step: Step, limit: nat)
    requires Inv(s, limit) && step.Create?
    ensures Inv(Apply(s, step), limit)
  {
    var t := Apply(s, step);
    forall x | x in t.jobs ensures DoneRecorded(t, x) {
      if t.jobs[x].status == Done { DoneCarries(s, t, x); }
    }
    forall n | n in t.open ensures ClaimFenced(t, n) {
      assert ClaimFenced(s, n);
    }
  }

  lemma AbandonKeeps(s: State, n: nat, limit: nat)
    requires Inv(s, limit)
    ensures Inv(Apply(s, Abandon(n)), limit)
  {
    var t := Apply(s, Abandon(n));
    forall x | x in t.jobs ensures DoneRecorded(t, x) {
      if t.jobs[x].status == Done { DoneCarries(s, t, x); }
    }
    forall m | m in t.open ensures ClaimFenced(t, m) {
      assert ClaimFenced(s, m);
    }
  }

  predicate AllWithin(steps: seq<Step>, limit: nat) {
    forall k :: 0 <= k < |steps| ==> Within(steps[k], limit)
  }

  lemma {:induction false} InvRun(s: State, steps: seq<Step>, limit: nat)
    requires Inv(s, limit) && AllWithin(steps, limit)
    ensures Inv(Run(s, steps), limit)
    decreases |steps|
  {
    if steps != [] {
      assert Within(steps[0], limit);
      assert forall k :: 0 <= k < |steps[1..]| ==> steps[1..][k] == steps[k + 1];
      InvKept(s, steps[0], limit);
      InvRun(Apply(s, steps[0]), steps[1..], limit);
    }
  }

  // ---------------------------------------------------------------------
  // The theorems
  // ---------------------------------------------------------------------

  /** In every run, a terminal write takes effect exactly when its claim is the
      latest one of the job and nobody ended the job before; a write that takes
      no effect leaves the table as it was. */
  lemma WritesAreFenced(steps: seq<Step>, limit: nat, n: nat, w: Write)
    requires limit >= 1 && AllWithin(steps, limit) && n in Run(EMPTY, steps).open
    ensures var s := Run(EMPTY, steps);
            var t := Apply(s, Finish(n, w));
            && n < |s.claims| && s.claims[n] in s.jobs && n !in s.won && n !in t.open
            && (n in t.won ==> IsLatest(s.claims, n) && t.won[n] == w)
            && (n in t.won <==> s.jobs[s.claims[n]].status != Failed)
            && (n !in t.won ==> t.jobs == s.jobs)
  {
    InvRun(EMPTY, steps, limit);
    assert ClaimFenced(Run(EMPTY, steps), n);
  }

  /** In every run, no job is claimed more often than the attempt limit, a lease is
      set exactly while a job runs, and a done job holds its latest claim's result. */
  lemma QueueSound(steps: seq<Step>, limit: nat, id: string)
    requires limit >= 1 && AllWithin(steps, limit) && id in Run(EMPTY, steps).jobs
    ensures var s := Run(EMPTY, steps);
            && Count(s.claims, id) <= limit
            && (s.jobs[id].lockedUntil.Some? <==> s.jobs[id].status == Running)
            && (s.jobs[id].status == Pending ==> Count(s.claims, id) == s.jobs[id].attempts)
            && DoneRecorded(s, id)
  {
    InvRun(EMPTY, steps, limit);
  }

  lemma FinalKept(s: State, step: Step, id: string)
    requires id in s.jobs && (s.jobs[id].status == Done || s.jobs[id].status == Failed)
    ensures id in Apply(s, step).jobs && Apply(s, step).jobs[id] == s.jobs[id]
  {
  }

  /** A finished job's row never changes again, in any run from any state. */
  lemma {:induction false} FinalIsAbsorbing(s: State, steps: seq<Step>, id: string)
    requires id in s.jobs && (s.jobs[id].status == Done || s.jobs[id].status == Failed)
    ensures id in Run(s, steps).jobs && Run(s, steps).jobs[id] == s.jobs[id]
    decreases |steps|
  {
    if steps != [] {
      FinalKept(s, steps[0], id);
      FinalIsAbsorbing(Apply(s, steps[0]), steps[1..], id);
    }
  }

  /** At most one claim of a job is open while the job runs, so two runners never
      both have a say in its outcome. */
  lemma OneLiveClaim(steps: seq<Step>, limit: nat, m: nat, n: nat)
    requires limit >= 1 && AllWithin(steps, limit)
    requires var s := Run(EMPTY, steps);
             m in s.open && n in s.open && m < |s.claims| && n < |s.claims|
             && s.claims[m] == s.claims[n] && IsRunning(s.jobs, s.claims[m])
    ensures m == n
  {
    InvRun(EMPTY, steps, limit);
    var s := Run(EMPTY, steps);
    assert ClaimFenced(s, m) && ClaimFenced(s, n);
  }
}
