/** The export job queue: claims, leases, terminal writes and the reaper
    (internal/exports/store.go, internal/exports/runner.go). */
module Exports {
  import opened Prelude

  datatype JobStatus = Pending | Running | Done | Failed

  datatype Job = Job(project: string, plan: string, format: string, status: JobStatus,
                     blobKey: string, configId: string, size: int, error: string, attempts: nat,
                     lockedBy: string, lockedUntil: Option<int>, nextRunAt: int)

  type Jobs = map<string, Job>

  // ---------------------------------------------------------------------
  // The statements, as functions on the table
  // ---------------------------------------------------------------------

  function NewJob(project: string, plan: string, format: string, now: int): Job {
    Job(project, plan, format, Pending, "", "", 0, "", 0, "", None, now)
  }

  predicate IsRunning(jobs: Jobs, id: string) { id in jobs && jobs[id].status == Running }

  predicate Claimable(jobs: Jobs, id: string, now: int) {
    id in jobs && jobs[id].status == Pending && jobs[id].nextRunAt <= now
  }

  function Leased(j: Job, worker: string, until: int): Job {
    j.(status := Running, lockedBy := worker, lockedUntil := Some(until))
  }

  function Finished(j: Job, blobKey: string, configId: string, size: int): Job {
    j.(status := Done, blobKey := blobKey, configId := configId, size := size, error := "", lockedBy := "", lockedUntil := None)
  }

  /** One more attempt failed: back to pending with a delay, or failed for good. */
  function Retried(j: Job, error: string, maxAttempts: int, backoff: int, now: int): Job {
    var over := j.attempts + 1 >= maxAttempts;
    j.(attempts := j.attempts + 1, error := error, status := if over then Failed else Pending,
       nextRunAt := if over then j.nextRunAt else now + backoff, lockedBy := "", lockedUntil := None)
  }

  function Ended(j: Job, error: string): Job {
    j.(status := Failed, error := error, lockedBy := "", lockedUntil := None)
  }

  function MarkDoneIn(jobs: Jobs, id: string, blobKey: string, configId: string, size: int): Jobs {
    if IsRunning(jobs, id) then jobs[id := Finished(jobs[id], blobKey, configId, size)] else jobs
  }

  function MarkFailedIn(jobs: Jobs, id: string, error: string, maxAttempts: int, backoff: int, now: int): Jobs {
    if IsRunning(jobs, id) then jobs[id := Retried(jobs[id], error, maxAttempts, backoff, now)] else jobs
  }

  predicate LeaseExpired(j: Job, ttl: int, now: int) {
    j.status == Running && j.lockedUntil.Some? && j.lockedUntil.value < now - ttl
  }

  function ReapIn(jobs: Jobs, ttl: int, now: int): Jobs {
    map id | id in jobs :: if LeaseExpired(jobs[id], ttl, now) then Ended(jobs[id], "lease expired (reaped)") else jobs[id]
  }

  predicate LiveOf(j: Job, project: string) { j.project == project && (j.status == Pending || j.status == Running) }

  /** The export part of deleting a project. */
  function DeleteProjectIn(jobs: Jobs, project: string): Jobs {
    map id | id in jobs :: if LiveOf(jobs[id], project) then Ended(jobs[id], "project deleted") else jobs[id]
  }

  function Secs(duration: int): int { if duration < 0 then 0 else duration }

  // ---------------------------------------------------------------------
  // Single rows, for the contracts
  // ---------------------------------------------------------------------

  /** What a job is about, and what it has exported so far. */
  predicate SameJob(a: Job, b: Job) {
    && a.project == b.project && a.plan == b.plan && a.format == b.format
  }

  predicate SameArtifact(a: Job, b: Job) { a.blobKey == b.blobKey && a.configId == b.configId && a.size == b.size }

  predicate Unlocked(j: Job) { j.lockedBy == "" && j.lockedUntil.None? }

  predicate OthersSame(before: Jobs, after: Jobs, id: string) {
    after.Keys == before.Keys && forall x :: x in before && x != id ==> after[x] == before[x]
  }

  /** `b` is `a` ended by someone else. */
  predicate EndedRow(a: Job, b: Job, error: string) {
    && SameJob(a, b) && SameArtifact(a, b) && b.attempts == a.attempts && b.nextRunAt == a.nextRunAt
    && b.status == Failed && b.error == error && Unlocked(b)
  }

  /** `b` is `a` after one more failed attempt at `now`: failed for good when that
      was the last one, else due again after the delay. */
  predicate FailedOnce(a: Job, b: Job, error: string, maxAttempts: int, delay: int, now: int) {
    && SameJob(a, b) && SameArtifact(a, b) && Unlocked(b) && b.error == error && b.attempts == a.attempts + 1
    && (maxAttempts <= b.attempts ==> b.status == Failed)
    && (b.attempts < maxAttempts ==> b.status == Pending && b.nextRunAt == now + delay)
  }

  predicate DoneWith(a: Job, b: Job, blobKey: string, configId: string, size: int) {
    && SameJob(a, b) && b.attempts == a.attempts && Unlocked(b) && b.error == ""
    && b.status == Done && b.blobKey == blobKey && b.configId == configId && b.size == size
  }

  /** Deleting a project ends exactly its waiting and running jobs. */
  lemma DeleteEnds(jobs: Jobs, project: string, id: string)
    requires id in jobs
    ensures var after := DeleteProjectIn(jobs, project);
            && after.Keys == jobs.Keys
            && (jobs[id].project == project && (jobs[id].status == Pending || jobs[id].status == Running) ==>
                  EndedRow(jobs[id], after[id], "project deleted"))
            && (jobs[id].project != project || jobs[id].status == Done || jobs[id].status == Failed ==> after[id] == jobs[id])
  {
  }

  // ---------------------------------------------------------------------
  // The store
  // ---------------------------------------------------------------------

  datatype QueueError = NotRunning

  class ExportStore {
    var jobs: Jobs

    method Create(newId: string, project: string, plan: string, format: string, now: int)
      requires newId !in jobs
      modifies this
      ensures jobs == old(jobs)[newId := NewJob(project, plan, format, now)]
      ensures var j := jobs[newId];
              && j.project == project && j.plan == plan && j.format == format && j.status == Pending && j.attempts == 0
              && j.nextRunAt == now && Unlocked(j)
    {
      jobs := jobs[newId := NewJob(project, plan, format, now)];
    }

    /** Claims one due job; `locked` are rows other transactions hold just now,
        which the query skips.  The result is a due unlocked job with the earliest
        run time, or nothing when there is none. */
    method Claim(worker: string, lease: int, now: int, locked: set<string>) returns (found: Option<string>)
      modifies this
      ensures found.None? <==> forall id :: Claimable(old(jobs), id, now) ==> id in locked
      ensures found.None? ==> jobs == old(jobs)
      ensures found.Some? ==>
                && Claimable(old(jobs), found.value, now) && found.value !in locked
                && (forall id :: Claimable(old(jobs), id, now) && id !in locked
                                 ==> old(jobs)[found.value].nextRunAt <= old(jobs)[id].nextRunAt)
                && jobs == old(jobs)[found.value := Leased(old(jobs)[found.value], worker, now + if lease <= 0 then 120 else lease)]
      ensures found.Some? ==>
                var a, b := old(jobs)[found.value], jobs[found.value];
                && SameJob(a, b) && SameArtifact(a, b) && b.attempts == a.attempts
                && a.status == Pending && a.nextRunAt <= now && b.status == Running && b.lockedBy == worker
                && b.lockedUntil == Some(if lease <= 0 then now + 120 else now + lease)
    {
      var due := set id | id in jobs && Claimable(jobs, id, now) && id !in locked;
      if due == {} {
        assert forall id :: Claimable(jobs, id, now) && id !in locked ==> id in due;
        return None;
      }
      var id :| id in due;
      var rest := due - {id};
      while rest != {}
        invariant id in due && rest <= due
        invariant forall x :: x in due && x !in rest ==> jobs[id].nextRunAt <= jobs[x].nextRunAt
        decreases |rest|
      {
        var x :| x in rest;
        if jobs[x].nextRunAt < jobs[id].nextRunAt {
          id := x;
        }
        rest := rest - {x};
      }
      assert forall x :: Claimable(jobs, x, now) && x !in locked ==> x in due;
      jobs := jobs[id := Leased(jobs[id], worker, now + if lease <= 0 then 120 else lease)];
      return Some(id);
    }

    method MarkDone(id: string, blobKey: string, configId: string, size: int) returns (r: Result<(), QueueError>)
      modifies this
      ensures jobs == MarkDoneIn(old(jobs), id, blobKey, configId, size)
      ensures r == if IsRunning(old(jobs), id) then Ok(()) else Err(NotRunning)
      ensures r.Ok? ==> OthersSame(old(jobs), jobs, id) && DoneWith(old(jobs)[id], jobs[id], blobKey, configId, size)
    {
      if !(id in jobs && jobs[id].status == Running) {
        return Err(NotRunning);
      }
      jobs := jobs[id := Finished(jobs[id], blobKey, configId, size)];
      return Ok(());
    }

    method MarkFailed(id: string, error: string, maxAttempts: int, backoff: int, now: int) returns (r: Result<(), QueueError>)
      modifies this
      ensures jobs == MarkFailedIn(old(jobs), id, error, maxAttempts, Secs(backoff), now)
      ensures r == if IsRunning(old(jobs), id) then Ok(()) else Err(NotRunning)
      ensures r.Ok? ==> OthersSame(old(jobs), jobs, id)
                        && FailedOnce(old(jobs)[id], jobs[id], error, maxAttempts, if backoff < 0 then 0 else backoff, now)
    {
      var backoffSecs := backoff;
      if backoffSecs < 0 {
        backoffSecs := 0;
      }
      if !(id in jobs && jobs[id].status == Running) {
        return Err(NotRunning);
      }
      jobs := jobs[id := Retried(jobs[id], error, maxAttempts, backoffSecs, now)];
      return Ok(());
    }

    method Reap(ttl: int, now: int) returns (n: nat)
      modifies this
      ensures jobs == ReapIn(old(jobs), Secs(ttl), now)
      ensures n == |set id | id in old(jobs) && LeaseExpired(old(jobs)[id], Secs(ttl), now)|
      ensures jobs.Keys == old(jobs).Keys
      ensures forall id :: id in jobs ==>
                var a := old(jobs)[id];
                if a.status == Running && a.lockedUntil.Some? && a.lockedUntil.value + (if ttl < 0 then 0 else ttl) < now
                then EndedRow(a, jobs[id], "lease expired (reaped)") else jobs[id] == a
    {
      n := |set id | id in jobs && LeaseExpired(jobs[id], Secs(ttl), now)|;
      jobs := ReapIn(jobs, Secs(ttl), now);
    }
  }

  // ---------------------------------------------------------------------
  // The runner: every claim ends in exactly one terminal write
  // ---------------------------------------------------------------------

  /** What the stages of one job come to: each either works or fails. */
  datatype Stages = Stages(project: Result<(), string>, shots: Result<nat, string>, assets: Result<bool, string>,
                           story: Option<(string, string)>, render: Result<nat, string>, target: Option<string>, put: Result<(), string>)

  datatype Verdict = Export(configId: string, size: int) | GiveUp(cause: string)

  predicate KnownFormat(format: string) { format == "zip" || format == "pdf" || format == "epub" }

  /** The first stage that fails decides; a missing story document is no failure. */
  function Judge(job: Job, st: Stages): Verdict {
    var hasStory := st.story.Some? && (st.story.value.0 != "" || st.story.value.1 != "");
    if st.project.Err? then GiveUp(st.project.error)
    else if st.shots.Err? then GiveUp(st.shots.error)
    else if st.assets.Err? then GiveUp(st.assets.error)
    else if st.shots.value == 0 || (!st.assets.value && !hasStory) then GiveUp("not ready")
    else if !KnownFormat(job.format) then GiveUp("unsupported export format")
    else if st.render.Err? then GiveUp(st.render.error)
    else if st.target.None? then GiveUp("nil blob store")
    else if st.put.Err? then GiveUp(st.put.error)
    else Export(st.target.value, st.render.value)
  }

  /** Everything the job needs is there and every stage works. */
  predicate Exportable(job: Job, st: Stages) {
    && st.project.Ok? && st.shots.Ok? && st.shots.value > 0 && st.assets.Ok?
    && (st.assets.value || (st.story.Some? && st.story.value != ("", "")))
    && job.format in {"zip", "pdf", "epub"}
    && st.render.Ok? && st.target.Some? && st.put.Ok?
  }

  const STAGES := 8

  /** Why stage `k` fails, if it does: the stages in the order they run. */
  function Cause(job: Job, st: Stages, k: nat): Option<string> {
    match k
    case 0 => if st.project.Err? then Some(st.project.error) else None
    case 1 => if st.shots.Err? then Some(st.shots.error) else None
    case 2 => if st.assets.Err? then Some(st.assets.error) else None
    case 3 =>
      if st.shots == Ok(0) || (st.assets == Ok(false) && (st.story.None? || st.story == Some(("", "")))) then Some("not ready") else None
    case 4 => if job.format !in {"zip", "pdf", "epub"} then Some("unsupported export format") else None
    case 5 => if st.render.Err? then Some(st.render.error) else None
    case 6 => if st.target.None? then Some("nil blob store") else None
    case 7 => if st.put.Err? then Some(st.put.error) else None
    case _ => None
  }

  /** `cause` is that of the first stage that fails. */
  predicate FirstCause(job: Job, st: Stages, cause: string) {
    exists k: nat :: k < STAGES && Cause(job, st, k) == Some(cause) && forall m: nat :: m < k ==> Cause(job, st, m).None?
  }

  /** The verdict: an export exactly when every stage works, with the target and
      the size they found, else the cause of the first stage that fails. */
  lemma JudgeDecides(job: Job, st: Stages)
    ensures Judge(job, st).Export? <==> Exportable(job, st)
    ensures Judge(job, st).Export? ==> Some(Judge(job, st).configId) == st.target && Ok(Judge(job, st).size) == st.render
    ensures Judge(job, st).GiveUp? ==> FirstCause(job, st, Judge(job, st).cause)
  {
    if Judge(job, st).GiveUp? {
      assert Cause(job, st, 0).Some? || Cause(job, st, 1).Some? || Cause(job, st, 2).Some? || Cause(job, st, 3).Some?
          || Cause(job, st, 4).Some? || Cause(job, st, 5).Some? || Cause(job, st, 6).Some? || Cause(job, st, 7).Some?;
    }
  }

  function ExtForFormat(format: string): string {
    if format == "pdf" then ".pdf" else if format == "epub" then ".epub" else if format == "zip" then ".zip" else ""
  }

  function ArtifactKey(project: string, id: string, format: string): string {
    "exports/" + project + "/" + id + ExtForFormat(format)
  }

  lemma KeyIs(project: string, id: string, format: string)
    requires format in {"zip", "pdf", "epub"}
    ensures ArtifactKey(project, id, format) == "exports/" + project + "/" + id + "." + format
  {
    assert ExtForFormat(format) == "." + format;
  }

  /** The one terminal write of a claimed job. */
  function Outcome(jobs: Jobs, id: string, job: Job, st: Stages, maxAttempts: int, delay: int, now: int): Jobs {
    match Judge(job, st)
    case Export(configId, size) => MarkDoneIn(jobs, id, ArtifactKey(job.project, id, job.format), configId, size)
    case GiveUp(cause) => MarkFailedIn(jobs, id, cause, maxAttempts, delay, now)
  }

  /** A job that is still running ends done exactly when it can be exported, with
      the place and size of its artifact; else the first cause is recorded. */
  ghost predicate Processed(before: Jobs, after: Jobs, id: string, job: Job, st: Stages, maxAttempts: int, delay: int, now: int) {
    if id in before && before[id].status == Running then
      && OthersSame(before, after, id)
      && (Exportable(job, st) ==>
            DoneWith(before[id], after[id], "exports/" + job.project + "/" + id + "." + job.format, st.target.value, st.render.value))
      && (!Exportable(job, st) ==>
            FailedOnce(before[id], after[id], after[id].error, maxAttempts, delay, now) && FirstCause(job, st, after[id].error))
    else after == before
  }

  lemma OutcomeIs(jobs: Jobs, id: string, job: Job, st: Stages, maxAttempts: int, delay: int, now: int)
    ensures Processed(jobs, Outcome(jobs, id, job, st, maxAttempts, delay, now), id, job, st, maxAttempts, delay, now)
  {
    JudgeDecides(job, st);
    if Exportable(job, st) { KeyIs(job.project, id, job.format); }
  }

  class Runner {
    const store: ExportStore
    const worker: string
    const lease: int
    const maxAttempts: int
    const backoff: int

    constructor (s: ExportStore, w: string, l: int, m: int, b: int)
      ensures store == s && maxAttempts > 0 && backoff > 0 && lease > 0 && worker != ""
      ensures maxAttempts == (if m <= 0 then 3 else m) && backoff == (if b <= 0 then 30 else b)
      ensures lease == (if l <= 0 then 120 else l) && (w != "" ==> worker == w)
    {
      store := s;
      worker := if w == "" then "export-runner" else w;
      lease := if l <= 0 then 120 else l;
      maxAttempts := if m <= 0 then 3 else m;
      backoff := if b <= 0 then 30 else b;
    }

    /** One claimed job through all stages: one MarkDone or one MarkFailed. */
    method Process(id: string, job: Job, st: Stages, now: int)
      modifies store
      ensures store.jobs == Outcome(old(store.jobs), id, job, st, maxAttempts, Secs(backoff), now)
      ensures Processed(old(store.jobs), store.jobs, id, job, st, maxAttempts, if backoff < 0 then 0 else backoff, now)
    {
      OutcomeIs(store.jobs, id, job, st, maxAttempts, Secs(backoff), now);
      if st.project.Err? {
        Fail(id, st.project.error, now);
        return;
      }
      if st.shots.Err? {
        Fail(id, st.shots.error, now);
        return;
      }
      if st.assets.Err? {
        Fail(id, st.assets.error, now);
        return;
      }
      var hasStory := false;
      if st.story.Some? {
        hasStory := st.story.value.0 != "" || st.story.value.1 != "";
      }
      if st.shots.value == 0 || (!st.assets.value && !hasStory) {
        Fail(id, "not ready", now);
        return;
      }
      if !KnownFormat(job.format) {
        Fail(id, "unsupported export format", now);
        return;
      }
      if st.render.Err? {
        Fail(id, st.render.error, now);
        return;
      }
      if st.target.None? {
        Fail(id, "nil blob store", now);
        return;
      }
      if st.put.Err? {
        Fail(id, st.put.error, now);
        return;
      }
      var _ := store.MarkDone(id, ArtifactKey(job.project, id, job.format), st.target.value, st.render.value);
    }

    method Fail(id: string, cause: string, now: int)
      modifies store
      ensures store.jobs == MarkFailedIn(old(store.jobs), id, cause, maxAttempts, Secs(backoff), now)
    {
      var _ := store.MarkFailed(id, cause, maxAttempts, backoff, now);
    }

    /** Claims at most one job and drives it to its terminal write. */
    method RunOnce(now: int, locked: set<string>, st: Stages, later: int) returns (ran: bool)
      modifies store
      ensures ran <==> exists id :: Claimable(old(store.jobs), id, now) && id !in locked
      ensures !ran ==> store.jobs == old(store.jobs)
      ensures ran ==> exists id :: Claimable(old(store.jobs), id, now) && id !in locked && store.jobs.Keys == old(store.jobs).Keys
                        && store.jobs[id].status != Running
                        && (store.jobs[id].status == Done <==> Exportable(old(store.jobs)[id], st))
                        && forall x :: x in store.jobs && x != id ==> store.jobs[x] == old(store.jobs)[x]
    {
      var found := store.Claim(worker, lease, now, locked);
      if found.None? {
        return false;
      }
      Process(found.value, store.jobs[found.value], st, later);
      assert Claimable(old(store.jobs), found.value, now) && found.value !in locked;
      return true;
    }
  }
}
