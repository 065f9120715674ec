/**
 * Report jobs as a step system: claims fenced by their start time, uploads, conditional completion,
 * cancellation, file expiry and purging, by any number of workers with unrelated clocks. Replies may
 * be lost and a run may crash at every step.
 */
module ReportProtocol {
  import opened Prelude

  type JobId = string
  type Path = string

  const REPORT_LIFETIME_MS: int := 86_400_000
  const STALE_RUN_MS: int := 900_000

  datatype JobStatus = Pending | Running | Completed | Failed | Cancelled | Expired

  datatype Job = Job(
    status: JobStatus,
    startedAt: Option<int>,
    storagePath: Option<Path>,
    rowCount: Option<nat>,
    error: Option<string>,
    expiresAt: Option<int>,
    updatedAt: int)

  /** One execution of a job by one worker. */
  datatype RunId = RunId(worker: string, n: nat)

  datatype RunPhase =
    | Working
    | Uploaded(path: Path)    // the file is stored, the job is completed next
    | Superseded(path: Path)  // the job was cancelled or reclaimed: the file is deleted next
    | Committed               // the job is COMPLETED, the audit entry is written next
    | Failing                 // an error was thrown: FAILED is written next

  datatype Run = Run(job: JobId, token: int, phase: RunPhase)

  datatype Expiry = Expiry(job: JobId, path: Path, deleted: bool)

  datatype State = State(
    idempotentDelete: bool,     // whether deleting a missing file succeeds
    jobs: map<JobId, Job>,
    everJobs: set<JobId>,
    files: set<Path>,
    everPaths: set<Path>,
    lost: set<Path>,            // stored files whose run stopped before committing or deleting them
    runs: map<RunId, Run>,
    expiries: map<RunId, Expiry>,
    lastExpiryReading: Option<int>)

  datatype Action =
    | Create(id: JobId, now: int)
    | Cancel(id: JobId, now: int)
    | Claim(run: RunId, id: JobId, staleBefore: int, startedAt: int, replied: bool)
    | StopRun(run: RunId)
    | Error(run: RunId)
    | Upload(run: RunId, path: Path, replied: bool)
    | Commit(run: RunId, rows: nat, now: int, applied: bool, replied: bool)
    | Discard(run: RunId, removed: bool, replied: bool)
    | Audit(run: RunId, ok: bool)
    | FailWrite(run: RunId, error: string, now: int, applied: bool)
    | ExpiryRead(pass: RunId, id: JobId, now: int)
    | ExpiryDelete(pass: RunId, removed: bool, replied: bool)
    | ExpiryMark(pass: RunId, now: int, applied: bool)
    | ExpiryStop(pass: RunId)
    | Purge(cutoff: int)

  predicate Claimable(job: Job, staleBefore: int) {
    job.status.Pending? || (job.status.Running? && job.startedAt.Some? && job.startedAt.value < staleBefore)
  }

  /** The run still is the one the job was last claimed for. */
  predicate Holds(jobs: map<JobId, Job>, r: Run) {
    r.job in jobs && jobs[r.job].status.Running? && jobs[r.job].startedAt == Some(r.token)
  }

  predicate Purgeable(job: Job, cutoff: int) {
    (job.status.Expired? || job.status.Failed? || job.status.Cancelled?) && job.updatedAt < cutoff
  }

  // ------------------------------------------------------------------ statements on jobs

  function ClaimJob(jobs: map<JobId, Job>, id: JobId, startedAt: int): map<JobId, Job>
    requires id in jobs
  {
    jobs[id := jobs[id].(status := Running, startedAt := Some(startedAt), updatedAt := startedAt)]
  }

  function CancelJob(jobs: map<JobId, Job>, id: JobId, now: int): map<JobId, Job> {
    if id in jobs && (jobs[id].status.Pending? || jobs[id].status.Running?)
    then jobs[id := jobs[id].(status := Cancelled, updatedAt := now)] else jobs
  }

  function CompleteJob(jobs: map<JobId, Job>, r: Run, path: Path, rows: nat, now: int): map<JobId, Job> {
    if Holds(jobs, r)
    then jobs[r.job := jobs[r.job].(status := Completed, storagePath := Some(path), rowCount := Some(rows),
                                    error := None, expiresAt := Some(now + REPORT_LIFETIME_MS), updatedAt := now)]
    else jobs
  }

  function FailJob(jobs: map<JobId, Job>, r: Run, error: string, now: int): map<JobId, Job> {
    if Holds(jobs, r) then jobs[r.job := jobs[r.job].(status := Failed, error := Some(error), updatedAt := now)]
    else jobs
  }

  function ExpireJob(jobs: map<JobId, Job>, id: JobId, now: int): map<JobId, Job> {
    if id in jobs && jobs[id].status.Completed?
    then jobs[id := jobs[id].(status := Expired, storagePath := None, updatedAt := now)] else jobs
  }

  function PurgeJobs(jobs: map<JobId, Job>, cutoff: int): map<JobId, Job> {
    map id | id in jobs && !Purgeable(jobs[id], cutoff) :: jobs[id]
  }

  // ------------------------------------------------------------------------------ steps

  predicate Enabled(s: State, a: Action) {
    match a
    case Create(id, _) => id !in s.everJobs
    case Cancel(_, _) => true
    case Claim(run, id, staleBefore, startedAt, replied) =>
      // the worker's clock did not step back by the staleness limit since it computed `staleBefore`
      run !in s.runs && id in s.jobs && Claimable(s.jobs[id], staleBefore) && staleBefore <= startedAt
    case StopRun(run) => run in s.runs
    case Error(run) => run in s.runs && s.runs[run].phase.Working?
    case Upload(run, path, _) => run in s.runs && s.runs[run].phase.Working? && path !in s.everPaths
    case Commit(run, _, _, applied, replied) => run in s.runs && s.runs[run].phase.Uploaded? && (replied ==> applied)
    case Discard(run, removed, replied) => run in s.runs && s.runs[run].phase.Superseded? && (replied ==> removed)
    case Audit(run, _) => run in s.runs && s.runs[run].phase.Committed?
    case FailWrite(run, _, _, _) => run in s.runs && s.runs[run].phase.Failing?
    case ExpiryRead(pass, id, now) =>
      && pass !in s.expiries && id in s.jobs && s.jobs[id].status.Completed? && s.jobs[id].storagePath.Some?
      && s.jobs[id].expiresAt.Some? && s.jobs[id].expiresAt.value <= now
    case ExpiryDelete(pass, removed, replied) =>
      && pass in s.expiries && !s.expiries[pass].deleted && (replied ==> removed)
      && (replied ==> s.idempotentDelete || s.expiries[pass].path in s.files)
    case ExpiryMark(pass, _, _) => pass in s.expiries && s.expiries[pass].deleted
    case ExpiryStop(pass) => pass in s.expiries
    case Purge(_) => true
  }

  function SetPhase(s: State, run: RunId, phase: RunPhase): map<RunId, Run>
    requires run in s.runs
  {
    s.runs[run := s.runs[run].(phase := phase)]
  }

  /** The stored file this run is responsible for, if any. */
  function HeldPath(phase: RunPhase): set<Path> {
    match phase
    case Uploaded(path) => {path}
    case Superseded(path) => {path}
    case _ => {}
  }

  function ApplyCommit(s: State, run: RunId, rows: nat, now: int, applied: bool, replied: bool): State
    requires Enabled(s, Commit(run, rows, now, applied, replied))
  {
    var r := s.runs[run];
    var path := r.phase.path;
    var matched := applied && Holds(s.jobs, r);
    var jobs := if applied then CompleteJob(s.jobs, r, path, rows, now) else s.jobs;
    if replied then
      s.(jobs := jobs, runs := SetPhase(s, run, if matched then Committed else Superseded(path)))
    else
      s.(jobs := jobs, runs := SetPhase(s, run, Failing), lost := if matched then s.lost else s.lost + {path})
  }

  function ApplyDiscard(s: State, run: RunId, removed: bool, replied: bool): State
    requires Enabled(s, Discard(run, removed, replied))
  {
    var path := s.runs[run].phase.path;
    s.(files := if removed then s.files - {path} else s.files,
       lost := if removed then s.lost else s.lost + {path},
       runs := if replied then s.runs - {run} else SetPhase(s, run, Failing))
  }

  function Apply(s: State, a: Action): State
    requires Enabled(s, a)
  {
    match a
    case Create(id, now) =>
      s.(jobs := s.jobs[id := Job(Pending, None, None, None, None, None, now)], everJobs := s.everJobs + {id})
    case Cancel(id, now) => s.(jobs := CancelJob(s.jobs, id, now))
    case Claim(run, id, _, startedAt, replied) =>
      s.(jobs := ClaimJob(s.jobs, id, startedAt),
         runs := if replied then s.runs[run := Run(id, startedAt, Working)] else s.runs)
    case StopRun(run) =>
      s.(runs := s.runs - {run}, lost := s.lost + HeldPath(s.runs[run].phase))
    case Error(run) => s.(runs := SetPhase(s, run, Failing))
    case Upload(run, path, replied) =>
      s.(files := s.files + {path}, everPaths := s.everPaths + {path},
         lost := if replied then s.lost else s.lost + {path},
         runs := SetPhase(s, run, if replied then Uploaded(path) else Failing))
    case Commit(run, rows, now, applied, replied) => ApplyCommit(s, run, rows, now, applied, replied)
    case Discard(run, removed, replied) => ApplyDiscard(s, run, removed, replied)
    case Audit(run, ok) => s.(runs := if ok then s.runs - {run} else SetPhase(s, run, Failing))
    case FailWrite(run, error, now, applied) =>
      s.(jobs := if applied then FailJob(s.jobs, s.runs[run], error, now) else s.jobs, runs := s.runs - {run})
    case ExpiryRead(pass, id, now) =>
      s.(expiries := s.expiries[pass := Expiry(id, s.jobs[id].storagePath.value, false)],
         lastExpiryReading := if s.lastExpiryReading.Some? && s.lastExpiryReading.value >= now
                              then s.lastExpiryReading else Some(now))
    case ExpiryDelete(pass, removed, replied) =>
      s.(files := if removed then s.files - {s.expiries[pass].path} else s.files,
         expiries := if replied then s.expiries[pass := s.expiries[pass].(deleted := true)] else s.expiries - {pass})
    case ExpiryMark(pass, now, applied) =>
      s.(jobs := if applied then ExpireJob(s.jobs, s.expiries[pass].job, now) else s.jobs,
         expiries := s.expiries - {pass})
    case ExpiryStop(pass) => s.(expiries := s.expiries - {pass})
    case Purge(cutoff) => s.(jobs := PurgeJobs(s.jobs, cutoff))
  }

  predicate Initial(s: State) {
    && s.jobs == map[] && s.everJobs == {} && s.files == {} && s.everPaths == {} && s.lost == {}
    && s.runs == map[] && s.expiries == map[] && s.lastExpiryReading == None
  }

  ghost predicate Step(s: State, a: Action, t: State) {
    Enabled(s, a) && t == Apply(s, a)
  }

  ghost predicate IsRun(ss: seq<State>, acts: seq<Action>) {
    && |ss| == |acts| + 1
    && forall i :: 0 <= i < |acts| ==> Step(ss[i], acts[i], ss[i + 1])
  }

  lemma AppendStep(ss: seq<State>, acts: seq<Action>, a: Action)
    requires IsRun(ss, acts) && Enabled(ss[|acts|], a)
    ensures IsRun(ss + [Apply(ss[|acts|], a)], acts + [a])
  {
    var ss', acts' := ss + [Apply(ss[|acts|], a)], acts + [a];
    forall i | 0 <= i < |acts'|
      ensures Step(ss'[i], acts'[i], ss'[i + 1])
    {
      if i < |acts| {
        assert Step(ss[i], acts[i], ss[i + 1]);
      }
    }
  }
}
