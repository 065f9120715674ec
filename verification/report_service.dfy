/**
 * The report worker's pass and the cancel request as imperative code over the shared system. Other
 * workers and users act between any two steps; everything that happens is one run of the protocol.
 */
module ReportProcessing {
  import opened Prelude
  import opened ReportProtocol
  import opened ReportSafety
  import ReportFiles

  /** The action is taken by this worker. */
  predicate By(a: Action, worker: string) {
    match a
    case Claim(run, _, _, _, _) => run.worker == worker
    case StopRun(run) => run.worker == worker
    case Error(run) => run.worker == worker
    case Upload(run, _, _) => run.worker == worker
    case Commit(run, _, _, _, _) => run.worker == worker
    case Discard(run, _, _) => run.worker == worker
    case Audit(run, _) => run.worker == worker
    case FailWrite(run, _, _, _) => run.worker == worker
    case ExpiryRead(pass, _, _) => pass.worker == worker
    case ExpiryDelete(pass, _, _) => pass.worker == worker
    case ExpiryMark(pass, _, _) => pass.worker == worker
    case ExpiryStop(pass) => pass.worker == worker
    case _ => false
  }

  /** The runs and expiries in this worker's hands. */
  function MyRuns(s: State, worker: string): map<RunId, Run> {
    map run | run in s.runs && run.worker == worker :: s.runs[run]
  }

  function MyExpiries(s: State, worker: string): map<RunId, Expiry> {
    map pass | pass in s.expiries && pass.worker == worker :: s.expiries[pass]
  }

  lemma OthersKeepRuns(s: State, a: Action, worker: string)
    requires Enabled(s, a) && !By(a, worker)
    ensures MyRuns(Apply(s, a), worker) == MyRuns(s, worker)
  {
  }

  lemma OthersKeepExpiries(s: State, a: Action, worker: string)
    requires Enabled(s, a) && !By(a, worker)
    ensures MyExpiries(Apply(s, a), worker) == MyExpiries(s, worker)
  {
  }

  lemma OthersKeepMine(s: State, a: Action, worker: string)
    requires Enabled(s, a) && !By(a, worker)
    ensures MyRuns(Apply(s, a), worker) == MyRuns(s, worker)
    ensures MyExpiries(Apply(s, a), worker) == MyExpiries(s, worker)
  {
    OthersKeepRuns(s, a, worker);
    OthersKeepExpiries(s, a, worker);
  }

  predicate DueToExpire(job: Job, now: int) {
    job.status.Completed? && job.storagePath.Some? && job.expiresAt.Some? && job.expiresAt.value <= now
  }

  predicate RunAction(a: Action) {
    a.StopRun? || a.Error? || a.Upload? || a.Commit? || a.Discard? || a.Audit? || a.FailWrite?
  }

  /** A worker with one run either keeps just that run or is free after a step of it. */
  lemma RunStep(s: State, a: Action)
    requires Enabled(s, a) && RunAction(a)
    requires MyRuns(s, a.run.worker).Keys == {a.run}
    ensures a.run in s.runs
    ensures var t := Apply(s, a);
            && MyExpiries(t, a.run.worker) == MyExpiries(s, a.run.worker)
            && (if a.run in t.runs
                then (&& MyRuns(t, a.run.worker).Keys == {a.run}
                      && t.runs[a.run].job == s.runs[a.run].job && t.runs[a.run].token == s.runs[a.run].token)
                else MyRuns(t, a.run.worker) == map[])
  {
    assert a.run in MyRuns(s, a.run.worker);
  }

  /** A step of one of the worker's expiries leaves its runs and its other expiries alone. */
  lemma ExpiryStep(s: State, a: Action)
    requires Enabled(s, a) && (a.ExpiryRead? || a.ExpiryDelete? || a.ExpiryMark? || a.ExpiryStop?)
    ensures var t := Apply(s, a);
            && MyRuns(t, a.pass.worker) == MyRuns(s, a.pass.worker)
            && MyExpiries(t, a.pass.worker) ==
               if a.pass in t.expiries then MyExpiries(s, a.pass.worker)[a.pass := t.expiries[a.pass]]
               else MyExpiries(s, a.pass.worker) - {a.pass}
  {
  }

  /** A worker's steps by kind; the flag tells whether the reply arrived. */
  datatype Kind =
    | ClaimTried | Stopped | Threw
    | Stored(ok: bool) | CommitTried(ok: bool) | DiscardTried(ok: bool) | Audited(ok: bool)
    | FailTried | Noted | DeleteTried(ok: bool) | MarkTried | Dropped | Other

  function KindOf(a: Action): Kind {
    match a
    case Claim(_, _, _, _, _) => ClaimTried
    case StopRun(_) => Stopped
    case Error(_) => Threw
    case Upload(_, _, ok) => Stored(ok)
    case Commit(_, _, _, _, ok) => CommitTried(ok)
    case Discard(_, _, ok) => DiscardTried(ok)
    case Audit(_, ok) => Audited(ok)
    case FailWrite(_, _, _, _) => FailTried
    case ExpiryRead(_, _, _) => Noted
    case ExpiryDelete(_, _, ok) => DeleteTried(ok)
    case ExpiryMark(_, _, _) => MarkTried
    case ExpiryStop(_) => Dropped
    case _ => Other
  }

  /** What a worker did in a run, oldest first. */
  function Mine(acts: seq<Action>, worker: string): Log<Kind> {
    if acts == [] then NoSteps
    else
      var a := acts[|acts| - 1];
      var before := Mine(acts[..|acts| - 1], worker);
      if By(a, worker) then Then(before, KindOf(a)) else before
  }

  lemma MineAppend(acts: seq<Action>, a: Action, worker: string)
    ensures Mine(acts + [a], worker)
         == if By(a, worker) then Then(Mine(acts, worker), KindOf(a)) else Mine(acts, worker)
  {
    assert (acts + [a])[..|acts|] == acts;
  }

  class ReportSystem {
    ghost const initial: State
    var s: State
    ghost var states: seq<State>
    ghost var actions: seq<Action>

    ghost predicate Valid()
      reads this
    {
      IsRun(states, actions) && states[0] == initial && Initial(initial) && states[|actions|] == s
    }

    constructor (initial: State)
      requires Initial(initial)
      ensures Valid() && this.initial == initial && s == initial && states == [initial] && actions == []
    {
      this.initial, s := initial, initial;
      states, actions := [initial], [];
    }

    /** Whatever happened so far, the invariant of the protocol holds. */
    lemma Safe()
      requires Valid()
      ensures ReportFiles.FileInv(s)
    {
      ReportFiles.ReachableFileInv(states, actions, |actions|);
    }

    method Do(a: Action)
      requires Valid() && Enabled(s, a)
      modifies this
      ensures Valid() && s == Apply(old(s), a)
      ensures states == old(states) + [s] && actions == old(actions) + [a]
    {
      AppendStep(states, actions, a);
      s := Apply(s, a);
      states, actions := states + [s], actions + [a];
    }

    method Others(worker: string, script: seq<Action>)
      requires Valid() && forall a :: a in script ==> !By(a, worker)
      modifies this
      ensures Valid() && Extends(old(actions), actions) && Extends(old(states), states)
      ensures Mine(actions, worker) == Mine(old(actions), worker)
      ensures MyRuns(s, worker) == old(MyRuns(s, worker)) && MyExpiries(s, worker) == old(MyExpiries(s, worker))
    {
      for k := 0 to |script|
        invariant Valid() && Extends(old(actions), actions) && Extends(old(states), states)
        invariant Mine(actions, worker) == Mine(old(actions), worker)
        invariant MyRuns(s, worker) == old(MyRuns(s, worker)) && MyExpiries(s, worker) == old(MyExpiries(s, worker))
      {
        if Enabled(s, script[k]) {
          OthersKeepMine(s, script[k], worker);
          MineAppend(actions, script[k], worker);
          Do(script[k]);
        }
      }
    }
  }

  datatype CancelError = NotFound | Conflict

  /** A user's cancel request. */
  method Cancel(system: ReportSystem, id: JobId, now: int) returns (r: Result<(), CancelError>)
    requires system.Valid()
    modifies system
    ensures system.Valid() && Extends(old(system.actions), system.actions)
    ensures id !in old(system.s.jobs) ==> r == Err(NotFound)
    ensures id in old(system.s.jobs) ==>
              (r == Ok(()) <==> !Terminal(old(system.s.jobs)[id].status)) && (r.Err? ==> r == Err(Conflict))
    ensures r.Ok? ==> id in system.s.jobs && system.s.jobs[id].status.Cancelled?
    ensures r.Err? ==> system.s.jobs == old(system.s.jobs)
    ensures r.Ok? <==> id in old(system.s.jobs) && old(system.s.jobs)[id].status in {Pending, Running}
    ensures r.Ok? ==>
              system.s.jobs == old(system.s.jobs)[id := old(system.s.jobs)[id].(status := Cancelled, updatedAt := now)]
  {
    var before := system.s.jobs;
    system.Do(ReportProtocol.Action.Cancel(id, now));
    if id !in before {
      return Err(NotFound);
    }
    if before[id].status.Pending? || before[id].status.Running? {
      return Ok(());
    }
    return Err(Conflict);
  }

  /** What one step meets: the worker's clock, whether replies arrive, and values chosen outside. */
  datatype Fate = Fate(now: int, ok: bool, applied: bool, path: Path, pages: nat, rows: nat, error: string)

  datatype Surroundings = Surroundings(others: nat -> seq<Action>, fate: nat -> Fate)

  ghost predicate Foreign(env: Surroundings, worker: string) {
    forall k: nat, a :: a in env.others(k) ==> !By(a, worker)
  }

  /** The worker's clock never steps back by the staleness limit or more. */
  ghost predicate ClockSteady(env: Surroundings) {
    forall i: nat, j: nat :: i <= j ==> env.fate(i).now - STALE_RUN_MS <= env.fate(j).now
  }

  /** How the processing of one claimed job ends. */
  datatype Ending =
    | Lost                          // the job was cancelled or reclaimed meanwhile
    | Unstored(threw: bool)         // an error was thrown, or the upload's reply did not arrive
    | CommitFailed                  // the commit's reply did not arrive
    | Completed(audited: bool)
    | Overtaken(removed: bool)      // the commit found the job cancelled or reclaimed: the file is deleted

  /** The steps of processing one job, by how it ends: an error in any of them is reported as a failure. */
  function Steps(before: Log<Kind>, r: Ending): Log<Kind> {
    match r
    case Lost => Then(before, Stopped)
    case Unstored(threw) => Then(Then(before, if threw then Threw else Stored(false)), FailTried)
    case CommitFailed => Then(Then(Then(before, Stored(true)), CommitTried(false)), FailTried)
    case _ => LastSteps(Then(Then(before, Stored(true)), CommitTried(true)), r)
  }

  /** The steps after a commit whose reply arrived. */
  function LastSteps(before: Log<Kind>, r: Ending): Log<Kind> {
    match r
    case Completed(audited) => Reported(Then(before, Audited(audited)), !audited)
    case Overtaken(removed) => Reported(Then(before, DiscardTried(removed)), !removed)
    case _ => before
  }

  function Reported(before: Log<Kind>, failed: bool): Log<Kind> {
    if failed then Then(before, FailTried) else before
  }

  predicate ReportsFailure(r: Ending) {
    r.Unstored? || r.CommitFailed? || r == Ending.Completed(false) || r == Overtaken(false)
  }

  ghost predicate Visited(states: seq<State>, from: nat, met: State) {
    exists k :: from <= k < |states| && states[k] == met
  }

  lemma VisitedLater(states: seq<State>, later: seq<State>, from: nat, met: State)
    requires Extends(states, later) && Visited(states, from, met)
    ensures Visited(later, from, met)
  {
    var k :| from <= k < |states| && states[k] == met;
    assert later[k] == met;
  }

  /** In some state from position `from` on, the job was no longer the run's. */
  ghost predicate LostAt(states: seq<State>, from: nat, r: Run) {
    exists k :: from <= k < |states| && !Holds(states[k].jobs, r)
  }

  /**
   * What a commit statement writes: if it takes effect while the job is running for this run, the job is COMPLETED
   * with the stored file, its rows, no error, and a day to live; otherwise no job changes.
   */
  ghost predicate CommitWrites(met: State, a: Action, after: State, r: Run) {
    && a.Commit? && a.run in met.runs && met.runs[a.run].phase.Uploaded?
    && after.jobs == if !a.applied || !InHand(met.jobs, r) then met.jobs
                     else met.jobs[r.job := met.jobs[r.job].(
                            status := JobStatus.Completed, storagePath := Some(met.runs[a.run].phase.path),
                            rowCount := Some(a.rows), error := None, updatedAt := a.now,
                            expiresAt := Some(a.now + 24 * 60 * 60 * 1000))]
  }

  /** The counterpart for a failure report: FAILED with the reported error, or nothing. */
  ghost predicate FailureWrites(met: State, a: Action, after: State, r: Run) {
    && a.FailWrite?
    && after.jobs == if !a.applied || !InHand(met.jobs, r) then met.jobs
                     else met.jobs[r.job := met.jobs[r.job].(status := Failed, error := Some(a.error),
                                                             updatedAt := a.now)]
  }

  /** Step `n` was the run's commit statement. */
  ghost predicate CommitTriedAt(states: seq<State>, acts: seq<Action>, n: nat, run: RunId, r: Run) {
    && n < |acts| && n + 1 < |states| && acts[n].Commit? && acts[n].run == run
    && CommitWrites(states[n], acts[n], states[n + 1], r)
  }

  /** Step `n` was the run's commit statement, and completed the job or found it gone. */
  ghost predicate CommitAt(states: seq<State>, acts: seq<Action>, n: nat, run: RunId, r: Run, completed: bool) {
    && CommitTriedAt(states, acts, n, run, r) && acts[n].applied
    && (if completed then Finishes(states, n, r.job) && states[n + 1].jobs[r.job].status.Completed?
        else !Holds(states[n].jobs, r))
  }

  lemma CommitOutcome(s: State, a: Action)
    requires a.Commit? && Enabled(s, a)
    ensures var t, r := Apply(s, a), s.runs[a.run];
            && a.run in t.runs
            && (if !a.replied then t.runs[a.run].phase.Failing?
                else if Holds(s.jobs, r)
                then t.runs[a.run].phase.Committed? && r.job in t.jobs && t.jobs[r.job].status.Completed?
                else t.runs[a.run].phase.Superseded?)
  {
  }

  lemma CommitWritesJob(s: State, a: Action)
    requires a.Commit? && Enabled(s, a)
    ensures CommitWrites(s, a, Apply(s, a), s.runs[a.run])
  {
  }

  lemma FailureWritesJob(s: State, a: Action)
    requires a.FailWrite? && Enabled(s, a)
    ensures FailureWrites(s, a, Apply(s, a), s.runs[a.run])
  {
  }

  lemma CommitStays(states: seq<State>, acts: seq<Action>, states': seq<State>, acts': seq<Action>, n: nat,
                    run: RunId, r: Run, completed: bool)
    requires CommitTriedAt(states, acts, n, run, r) && Extends(states, states') && Extends(acts, acts')
    ensures CommitTriedAt(states', acts', n, run, r)
    ensures CommitAt(states, acts, n, run, r, completed) ==> CommitAt(states', acts', n, run, r, completed)
  {
    assert states'[n] == states[n] && states'[n + 1] == states[n + 1];
  }

  /** The job waits, or its run began too long ago, column by column. */
  predicate WaitsOrStale(jobs: map<JobId, Job>, id: JobId, staleBefore: int) {
    && id in jobs
    && (jobs[id].status == Pending
        || (jobs[id].status == Running && jobs[id].startedAt.Some? && jobs[id].startedAt.value < staleBefore))
  }

  /** The job's file has outlived its day, column by column. */
  predicate PastItsDay(jobs: map<JobId, Job>, id: JobId, now: int) {
    && id in jobs && jobs[id].status == JobStatus.Completed && jobs[id].storagePath.Some?
    && jobs[id].expiresAt.Some? && jobs[id].expiresAt.value <= now
  }

  /** Marking a job whose file was deleted: a COMPLETED job is EXPIRED without a file, any other one is left alone. */
  ghost predicate MarksExpired(before: map<JobId, Job>, after: map<JobId, Job>, id: JobId, applied: bool, now: int) {
    after == if applied && id in before && before[id].status == JobStatus.Completed
             then before[id := before[id].(status := Expired, storagePath := None, updatedAt := now)] else before
  }

  /** Purging, column by column: old records of expired, failed and cancelled jobs go, all others stay. */
  ghost predicate PurgesOld(before: map<JobId, Job>, after: map<JobId, Job>, cutoff: int) {
    forall id ::
      if id in before && (before[id].status !in {Expired, Failed, Cancelled} || before[id].updatedAt >= cutoff)
      then id in after && after[id] == before[id] else id !in after
  }

  lemma PurgeEffect(s: State, cutoff: int)
    ensures PurgesOld(s.jobs, Apply(s, Purge(cutoff)).jobs, cutoff)
  {
  }

  lemma MarkEffect(s: State, a: Action)
    requires a.ExpiryMark? && Enabled(s, a)
    ensures MarksExpired(s.jobs, Apply(s, a).jobs, s.expiries[a.pass].job, a.applied, a.now)
  {
  }

  /** The jobs taken up, in terms of the columns. */
  lemma TakenUp(s: State, staleBefore: int, tried: set<JobId>)
    requires tried <= ClaimableJobs(s, staleBefore) && |tried| == Least(5, |ClaimableJobs(s, staleBefore)|)
    ensures forall id :: id in tried ==> WaitsOrStale(s.jobs, id, staleBefore)
    ensures |tried| < 5 ==> forall id :: WaitsOrStale(s.jobs, id, staleBefore) ==> id in tried
  {
    var all := ClaimableJobs(s, staleBefore);
    if |tried| < 5 {
      assert |all - tried| == |all| - |tried| == 0;
      forall id | WaitsOrStale(s.jobs, id, staleBefore)
        ensures id in tried
      {
        assert id in all && id !in all - tried;
      }
    }
  }

  function Least(a: nat, b: nat): nat { if a <= b then a else b }

  /** The jobs whose files a pass would expire now. */
  function Due(s: State, now: int): set<JobId> {
    set id | id in s.jobs && DueToExpire(s.jobs[id], now)
  }

  function ClaimableJobs(s: State, staleBefore: int): set<JobId> {
    set id | id in s.jobs && Claimable(s.jobs[id], staleBefore)
  }

  function Notes(before: Log<Kind>, n: nat): Log<Kind> {
    if n == 0 then before else Then(Notes(before, n - 1), Noted)
  }

  /** `n` files deleted, each job marked right after its file. */
  function Expirations(before: Log<Kind>, n: nat): Log<Kind> {
    if n == 0 then before else Then(Then(Expirations(before, n - 1), DeleteTried(true)), MarkTried)
  }

  /** Where a pass over expired files failed, and whether the file of that entry was deleted. */
  datatype Failure = Failure(at: nat, deleted: bool)

  /** An entry whose deletion or marking failed. */
  function Broken(before: Log<Kind>, deleted: bool): Log<Kind> {
    if deleted then Then(Then(before, DeleteTried(true)), MarkTried) else Then(before, DeleteTried(false))
  }

  function Drops(before: Log<Kind>, n: nat): Log<Kind> {
    if n == 0 then before else Then(Drops(before, n - 1), Dropped)
  }

  /** The first `k` entries of a pass: all expired, or those before the failure; the rest untouched. */
  function PassTrace(noted: Log<Kind>, k: nat, failure: Option<Failure>): Log<Kind>
    requires failure.Some? ==> failure.value.at < k
  {
    match failure
    case None => Expirations(noted, k)
    case Some(f) => Drops(Broken(Expirations(noted, f.at), f.deleted), k - f.at - 1)
  }

  function Claims(trace: Log<Kind>): nat {
    match trace
    case NoSteps => 0
    case Then(before, kind) => Claims(before) + (if kind.ClaimTried? then 1 else 0)
  }

  lemma {:induction false} ExpirationsClaimNothing(before: Log<Kind>, n: nat)
    ensures Claims(Expirations(before, n)) == Claims(before)
  {
    if n > 0 {
      ExpirationsClaimNothing(before, n - 1);
      var rest := Expirations(before, n - 1);
      assert Claims(Then(rest, DeleteTried(true))) == Claims(rest);
    }
  }

  lemma {:induction false} DropsClaimNothing(before: Log<Kind>, n: nat)
    ensures Claims(Drops(before, n)) == Claims(before)
  {
    if n > 0 {
      DropsClaimNothing(before, n - 1);
    }
  }

  lemma PassClaimsNothing(noted: Log<Kind>, k: nat, failure: Option<Failure>)
    requires failure.Some? ==> failure.value.at < k
    ensures Claims(PassTrace(noted, k, failure)) == Claims(noted)
  {
    match failure
    case None => ExpirationsClaimNothing(noted, k);
    case Some(f) =>
      var done := Expirations(noted, f.at);
      ExpirationsClaimNothing(noted, f.at);
      assert Claims(Then(done, DeleteTried(true))) == Claims(done);
      assert Claims(Broken(done, f.deleted)) == Claims(done);
      DropsClaimNothing(Broken(done, f.deleted), k - f.at - 1);
  }

  lemma NotesClaimNothing(before: Log<Kind>, n: nat)
    ensures Claims(Notes(before, n)) == Claims(before)
  {
  }

  lemma StepsClaimNothing(before: Log<Kind>, r: Option<Ending>)
    ensures r.Some? ==> Claims(Steps(before, r.value)) == Claims(before)
  {
    if r.Some? {
      var committed := Then(Then(before, Stored(true)), CommitTried(true));
      assert Claims(committed) == Claims(before);
      assert Claims(LastSteps(committed, r.value)) == Claims(committed);
    }
  }

  /** The passes are exactly the open expiries, without repetition and none deleted yet. */
  ghost predicate PendingIn(open: map<RunId, Expiry>, passes: seq<RunId>) {
    && (forall i, j :: 0 <= i < j < |passes| ==> passes[i] != passes[j])
    && (forall pass :: pass in open <==> pass in passes)
    && (forall pass :: pass in open ==> !open[pass].deleted)
  }

  lemma PendingMore(open: map<RunId, Expiry>, passes: seq<RunId>, pass: RunId, open': map<RunId, Expiry>)
    requires PendingIn(open, passes) && pass !in open
    requires pass in open' && open' == open[pass := open'[pass]] && !open'[pass].deleted
    ensures PendingIn(open', passes + [pass])
  {
    assert forall q :: q in passes + [pass] <==> q in passes || q == pass;
  }

  lemma PendingLess(open: map<RunId, Expiry>, pass: RunId, rest: seq<RunId>)
    requires PendingIn(open, [pass] + rest)
    ensures PendingIn(open - {pass}, rest)
  {
    var passes := [pass] + rest;
    assert forall i :: 0 <= i < |rest| ==> passes[i + 1] == rest[i];
    assert forall q :: q in passes <==> q == pass || q in rest;
    if pass in rest {
      var i :| 0 <= i < |rest| && rest[i] == pass;
      assert passes[0] == passes[i + 1];
    }
  }

  class ReportService {
    const system: ReportSystem
    const worker: string
    var clock: nat
    var serial: nat   // numbers this worker's runs and expiries

    constructor (system: ReportSystem, worker: string)
      ensures this.system == system && this.worker == worker && clock == 0 && serial == 0
    {
      this.system, this.worker, clock, serial := system, worker, 0, 0;
    }

    ghost predicate Ready(env: Surroundings)
      reads this, system
    {
      && system.Valid() && Foreign(env, worker) && ClockSteady(env)
      && (forall run :: run in MyRuns(system.s, worker) ==> run.n < serial)
      && (forall pass :: pass in MyExpiries(system.s, worker) ==> pass.n < serial)
    }

    ghost predicate Free()
      reads this, system
    {
      MyRuns(system.s, worker) == map[] && MyExpiries(system.s, worker) == map[]
    }

    /** The worker has this one run and nothing else in hand. */
    ghost predicate Only(run: RunId)
      reads this, system
    {
      run.worker == worker && MyRuns(system.s, worker).Keys == {run} && MyExpiries(system.s, worker) == map[]
    }

    function Current(run: RunId): Run
      reads this, system
      requires run in system.s.runs
    {
      system.s.runs[run]
    }

    ghost function Trace(): Log<Kind>
      reads this, system
    {
      Mine(system.actions, worker)
    }

    /** The run so far is kept and extended. */
    ghost predicate Extended(actions: seq<Action>, states: seq<State>, clock: nat)
      reads this, system
    {
      Extends(actions, system.actions) && Extends(states, system.states) && clock <= this.clock
    }

    method Interlude(env: Surroundings)
      requires Ready(env)
      modifies this`clock, system
      ensures Ready(env) && Extended(old(system.actions), old(system.states), old(clock)) && clock == old(clock) + 1
      ensures MyRuns(system.s, worker) == old(MyRuns(system.s, worker))
      ensures MyExpiries(system.s, worker) == old(MyExpiries(system.s, worker)) && Trace() == old(Trace())
    {
      clock := clock + 1;
      system.Others(worker, env.others(clock));
    }

    /** Others act; this worker's single run stays where it is. */
    method KeepsOnly(run: RunId, env: Surroundings)
      requires Ready(env) && Only(run)
      modifies this`clock, system
      ensures Ready(env) && Extended(old(system.actions), old(system.states), old(clock)) && clock == old(clock) + 1
      ensures Only(run) && run in system.s.runs && Current(run) == old(Current(run)) && Trace() == old(Trace())
    {
      ghost var mine := MyRuns(system.s, worker);
      Interlude(env);
      assert run in mine && run in MyRuns(system.s, worker) && system.s.runs[run] == mine[run];
    }

    /** One step of this worker's single run. */
    method Act(a: Action, env: Surroundings)
      requires Ready(env) && RunAction(a) && Only(a.run) && Enabled(system.s, a)
      modifies system
      ensures Ready(env) && Extended(old(system.actions), old(system.states), old(clock))
      ensures system.s == Apply(old(system.s), a) && Trace() == Then(old(Trace()), KindOf(a))
      ensures if a.run in system.s.runs
              then (&& Only(a.run) && Current(a.run).job == old(Current(a.run)).job
                    && Current(a.run).token == old(Current(a.run)).token)
              else Free()
      ensures system.actions == old(system.actions) + [a] && system.states == old(system.states) + [system.s]
    {
      RunStep(system.s, a);
      MineAppend(system.actions, a, worker);
      system.Do(a);
    }

    /** Reading pages with the job re-checked after each: false when the job is no longer this run's. */
    method ReadPages(run: RunId, env: Surroundings) returns (stillRunning: bool)
      requires Ready(env) && Only(run)
      modifies this`clock, system
      ensures Ready(env) && Extended(old(system.actions), old(system.states), old(clock))
      ensures Only(run) && run in system.s.runs && Current(run) == old(Current(run)) && Trace() == old(Trace())
      ensures !stillRunning ==> !Holds(system.s.jobs, Current(run)) && !InHand(system.s.jobs, Current(run))
      ensures stillRunning && env.fate(old(clock)).pages > 0 ==>
                Holds(system.s.jobs, Current(run)) && InHand(system.s.jobs, Current(run))
    {
      var pages := env.fate(clock).pages;
      assert run in MyRuns(system.s, worker);
      for k := 0 to pages
        invariant Ready(env) && Extended(old(system.actions), old(system.states), old(clock))
        invariant Only(run) && run in system.s.runs && Current(run) == old(Current(run)) && Trace() == old(Trace())
        invariant k > 0 ==> Holds(system.s.jobs, Current(run))
      {
        KeepsOnly(run, env);
        if !Holds(system.s.jobs, system.s.runs[run]) {
          return false;
        }
      }
      return true;
    }

    /** The worker's last step was the run's failure report, with this clock's error and fate. */
    ghost predicate FailureReported(run: RunId, r: Run, env: Surroundings)
      reads this, system
    {
      && |system.actions| > 0 && |system.states| == |system.actions| + 1
      && (var n, fate := |system.actions| - 1, env.fate(clock);
          && system.actions[n] == FailWrite(run, fate.error, fate.now, fate.ok || fate.applied)
          && FailureWrites(system.states[n], system.actions[n], system.s, r))
    }

    /** Writes FAILED if the job is still this run's, and ends the run; false when that statement failed too. */
    method WriteFailure(run: RunId, env: Surroundings) returns (written: bool)
      requires Ready(env) && Only(run) && run in system.s.runs && Current(run).phase.Failing?
      modifies this`clock, system
      ensures Ready(env) && Extended(old(system.actions), old(system.states), old(clock))
      ensures Free() && Trace() == Then(old(Trace()), FailTried)
      ensures FailureReported(run, old(Current(run)), env) && written == env.fate(clock).ok
    {
      KeepsOnly(run, env);
      var fate := env.fate(clock);
      FailureWritesJob(system.s, FailWrite(run, fate.error, fate.now, fate.ok || fate.applied));
      Act(FailWrite(run, fate.error, fate.now, fate.ok || fate.applied), env);
      return fate.ok;
    }

    /** Uploads the content; false when storage or an earlier step threw. */
    method StoreFile(run: RunId, env: Surroundings) returns (uploaded: bool, threw: bool)
      requires Ready(env) && Only(run) && run in system.s.runs && Current(run).phase.Working?
      modifies this`clock, system
      ensures Ready(env) && Extended(old(system.actions), old(system.states), old(clock))
      ensures Only(run) && run in system.s.runs && Current(run).job == old(Current(run)).job
      ensures Current(run).token == old(Current(run)).token
      ensures if uploaded then Current(run).phase.Uploaded? else Current(run).phase.Failing?
      ensures Trace() == Then(old(Trace()), if threw then Threw else Stored(uploaded)) && !(uploaded && threw)
    {
      KeepsOnly(run, env);
      var fate := env.fate(clock);
      // the requester lost permission, there are too many rows, or storage refused the file
      if !fate.applied || fate.path in system.s.everPaths {
        Act(Error(run), env);
        return false, true;
      }
      Act(Upload(run, fate.path, fate.ok), env);
      return fate.ok, false;
    }

    method IssueCommit(a: Action, env: Surroundings)
      requires Ready(env) && a.Commit? && Only(a.run) && Enabled(system.s, a)
      modifies system
      ensures Ready(env) && Extended(old(system.actions), old(system.states), old(clock))
      ensures Only(a.run) && a.run in system.s.runs && Trace() == Then(old(Trace()), CommitTried(a.replied))
      ensures if a.replied then Current(a.run).phase.Committed? || Current(a.run).phase.Superseded?
              else Current(a.run).phase.Failing?
      ensures CommitTriedAt(system.states, system.actions, |old(system.actions)|, a.run, old(Current(a.run)))
      ensures a.replied ==> CommitAt(system.states, system.actions, |old(system.actions)|, a.run,
                                     old(Current(a.run)), Current(a.run).phase.Committed?)
      ensures Current(a.run).job == old(Current(a.run)).job && Current(a.run).token == old(Current(a.run)).token
    {
      CommitWritesJob(system.s, a);
      CommitOutcome(system.s, a);
      Act(a, env);
    }

    /** The conditional commit, as step `n` of the run. */
    method CommitFile(run: RunId, env: Surroundings) returns (replied: bool, ghost n: nat)
      requires Ready(env) && Only(run) && run in system.s.runs && Current(run).phase.Uploaded?
      modifies this`clock, system
      ensures Ready(env) && Extended(old(system.actions), old(system.states), old(clock))
      ensures Only(run) && run in system.s.runs && Trace() == Then(old(Trace()), CommitTried(replied))
      ensures |old(system.actions)| <= n
      ensures !replied ==> Current(run).phase.Failing?
      ensures replied ==> Current(run).phase.Committed? || Current(run).phase.Superseded?
      ensures replied ==>
                CommitAt(system.states, system.actions, n, run, old(Current(run)), Current(run).phase.Committed?)
      ensures CommitTriedAt(system.states, system.actions, n, run, old(Current(run)))
      ensures Current(run).job == old(Current(run)).job && Current(run).token == old(Current(run)).token
    {
      KeepsOnly(run, env);
      var fate := env.fate(clock);
      n := |system.actions|;
      IssueCommit(Commit(run, fate.rows, fate.now, fate.ok || fate.applied, fate.ok), env);
      return fate.ok, n;
    }

    /** One last step of the run and, when it failed, the failure report. */
    method FinishWith(a: Action, ok: bool, env: Surroundings) returns (proceed: bool)
      requires Ready(env) && ((a.Audit? && a.ok == ok) || (a.Discard? && a.replied == ok))
      requires Only(a.run) && Enabled(system.s, a)
      modifies this`clock, system
      ensures Ready(env) && Extended(old(system.actions), old(system.states), old(clock)) && Free()
      ensures Trace() == Reported(Then(old(Trace()), KindOf(a)), !ok)
      ensures ok ==> proceed
      ensures !ok ==> FailureReported(a.run, old(Current(a.run)), env)
    {
      Act(a, env);
      if ok {
        return true;
      }
      proceed := WriteFailure(a.run, env);
    }

    /** After a commit whose reply arrived: the audit entry, or deleting the file of a job that is gone. */
    method Conclude(run: RunId, env: Surroundings) returns (r: Ending, proceed: bool)
      requires Ready(env) && Only(run) && run in system.s.runs
      requires Current(run).phase.Committed? || Current(run).phase.Superseded?
      modifies this`clock, system
      ensures Ready(env) && Extended(old(system.actions), old(system.states), old(clock)) && Free()
      ensures if old(Current(run)).phase.Committed? then r.Completed? else r.Overtaken?
      ensures Trace() == LastSteps(old(Trace()), r)
      ensures if ReportsFailure(r) then FailureReported(run, old(Current(run)), env) else proceed
    {
      KeepsOnly(run, env);
      var fate := env.fate(clock);
      if system.s.runs[run].phase.Committed? {
        proceed := FinishWith(Audit(run, fate.ok), fate.ok, env);
        return Ending.Completed(fate.ok), proceed;
      }
      proceed := FinishWith(Discard(run, fate.ok || fate.applied, fate.ok), fate.ok, env);
      return Overtaken(fate.ok), proceed;
    }

    /** Stores the file, or reports the failure to do so. */
    method StoreOrReport(run: RunId, env: Surroundings) returns (ended: Option<Ending>, proceed: bool)
      requires Ready(env) && Only(run) && run in system.s.runs && Current(run).phase.Working?
      modifies this`clock, system
      ensures Ready(env) && Extended(old(system.actions), old(system.states), old(clock))
      ensures match ended
              case None =>
                && Only(run) && run in system.s.runs && Current(run).phase.Uploaded?
                && Trace() == Then(old(Trace()), Stored(true))
                && Current(run).job == old(Current(run)).job && Current(run).token == old(Current(run)).token
              case Some(r) =>
                && Free() && r.Unstored? && Trace() == Steps(old(Trace()), r)
                && FailureReported(run, old(Current(run)), env)
    {
      var uploaded, threw := StoreFile(run, env);
      if uploaded {
        return None, true;
      }
      proceed := WriteFailure(run, env);
      return Some(Unstored(threw)), proceed;
    }

    /** From the claim to a stored file; `ended` tells how the run ended before that. */
    method Generate(run: RunId, env: Surroundings) returns (ended: Option<Ending>, proceed: bool)
      requires Ready(env) && Only(run) && run in system.s.runs && Current(run).phase.Working?
      modifies this`clock, system
      ensures Ready(env) && Extended(old(system.actions), old(system.states), old(clock))
      ensures ended.Some? ==> Free() && Trace() == Steps(old(Trace()), ended.value)
      ensures ended.Some? ==> ended.value.Lost? || ended.value.Unstored?
      ensures ended.Some? && ended.value.Unstored? ==> FailureReported(run, old(Current(run)), env)
      ensures ended == Some(Lost) ==> proceed && LostAt(system.states, |old(system.actions)|, old(Current(run)))
      ensures ended.None? ==> Only(run) && run in system.s.runs && Current(run).phase.Uploaded?
      ensures ended.None? ==> Trace() == Then(old(Trace()), Stored(true))
      ensures ended.None? ==> Current(run).job == old(Current(run)).job && Current(run).token == old(Current(run)).token
    {
      var stillRunning := ReadPages(run, env);
      if !stillRunning {
        ghost var k := |system.actions|;
        Act(StopRun(run), env);
        assert !Holds(system.states[k].jobs, old(Current(run)));
        return Some(Lost), true;
      }
      ended, proceed := StoreOrReport(run, env);
    }

    /** A commit without a reply is reported as a failure; otherwise the run is concluded. */
    method AfterCommit(run: RunId, replied: bool, env: Surroundings) returns (r: Ending, proceed: bool)
      requires Ready(env) && Only(run) && run in system.s.runs
      requires if replied then Current(run).phase.Committed? || Current(run).phase.Superseded?
               else Current(run).phase.Failing?
      modifies this`clock, system
      ensures Ready(env) && Extended(old(system.actions), old(system.states), old(clock)) && Free()
      ensures r == CommitFailed <==> !replied
      ensures replied ==> if old(Current(run)).phase.Committed? then r.Completed? else r.Overtaken?
      ensures Trace() == if replied then LastSteps(old(Trace()), r) else Then(old(Trace()), FailTried)
      ensures if ReportsFailure(r) then FailureReported(run, old(Current(run)), env) else proceed
    {
      if replied {
        r, proceed := Conclude(run, env);
      } else {
        proceed := WriteFailure(run, env);
        r := CommitFailed;
      }
    }

    /** From a stored file to the end: the commit decides what becomes of it. */
    method Deliver(run: RunId, env: Surroundings) returns (r: Ending, proceed: bool, ghost n: nat)
      requires Ready(env) && Only(run) && run in system.s.runs && Current(run).phase.Uploaded?
      modifies this`clock, system
      ensures Ready(env) && Extended(old(system.actions), old(system.states), old(clock)) && Free()
      ensures |old(system.actions)| <= n && (r.CommitFailed? || r.Completed? || r.Overtaken?)
      ensures Trace() == if r.CommitFailed? then Then(Then(old(Trace()), CommitTried(false)), FailTried)
                         else LastSteps(Then(old(Trace()), CommitTried(true)), r)
      ensures !r.CommitFailed? ==> CommitAt(system.states, system.actions, n, run, old(Current(run)), r.Completed?)
      ensures CommitTriedAt(system.states, system.actions, n, run, old(Current(run)))
      ensures if ReportsFailure(r) then FailureReported(run, old(Current(run)), env) else proceed
    {
      ghost var held := Current(run);
      var replied;
      replied, n := CommitFile(run, env);
      ghost var states, actions, completed := system.states, system.actions, Current(run).phase.Committed?;
      r, proceed := AfterCommit(run, replied, env);
      CommitStays(states, actions, system.states, system.actions, n, run, held, completed);
    }

    /**
     * Generates and stores one report, with exactly the steps its ending calls for. Afterwards the worker
     * holds no run, so no file of its own is left undecided.
     */
    method Process(run: RunId, env: Surroundings) returns (r: Ending, proceed: bool, ghost n: nat)
      requires Ready(env) && Only(run) && run in system.s.runs && Current(run).phase.Working?
      modifies this`clock, system
      ensures Ready(env) && Extended(old(system.actions), old(system.states), old(clock)) && Free()
      ensures Trace() == Steps(old(Trace()), r) && |old(system.actions)| <= n
      ensures r.Lost? ==> LostAt(system.states, |old(system.actions)|, old(Current(run)))
      ensures r.Completed? || r.Overtaken? ==>
                CommitAt(system.states, system.actions, n, run, old(Current(run)), r.Completed?)
      ensures r.CommitFailed? ==> CommitTriedAt(system.states, system.actions, n, run, old(Current(run)))
      // a reported failure leaves the job FAILED with its error exactly if the job still was this run's
      ensures if ReportsFailure(r) then FailureReported(run, old(Current(run)), env) else proceed
    {
      ghost var before := Trace();
      var ended;
      ended, proceed := Generate(run, env);
      if ended.Some? {
        return ended.value, proceed, |system.actions|;
      }
      r, proceed, n := Deliver(run, env);
    }

    /** The conditional claim of a claimable job; without a reply the job is claimed but nobody runs it. */
    method ClaimJob(id: JobId, staleBefore: int, fate: Fate, env: Surroundings) returns (run: RunId)
      requires Ready(env) && Free()
      requires id in system.s.jobs && Claimable(system.s.jobs[id], staleBefore) && staleBefore <= fate.now
      modifies this`serial, system
      ensures Ready(env) && Extended(old(system.actions), old(system.states), old(clock))
      ensures Trace() == Then(old(Trace()), ClaimTried)
      ensures system.s.jobs == old(system.s.jobs)[id :=
                old(system.s.jobs)[id].(status := Running, startedAt := Some(fate.now), updatedAt := fate.now)]
      ensures !fate.ok ==> Free()
      ensures fate.ok ==> Only(run) && run in system.s.runs && Current(run) == Run(id, fate.now, Working)
    {
      run := RunId(worker, serial);
      serial := serial + 1;
      ghost var mine := MyRuns(system.s, worker);
      assert run !in mine;
      MineAppend(system.actions, Claim(run, id, staleBefore, fate.now, fate.ok), worker);
      system.Do(Claim(run, id, staleBefore, fate.now, fate.ok));
      assert MyRuns(system.s, worker) == if fate.ok then mine[run := Run(id, fate.now, Working)] else mine;
    }

    /**
     * Claims one job if it still is claimable and processes it. `met` is the state the claim statement
     * met; the pass goes on unless a claim's or a failure report's reply did not arrive.
     */
    method RunJob(id: JobId, staleBefore: int, ghost k: nat, env: Surroundings)
      returns (r: Option<Ending>, proceed: bool, ghost tried: bool, ghost met: State)
      requires Ready(env) && Free()
      requires k <= clock && staleBefore == env.fate(k).now - STALE_RUN_MS
      modifies this`clock, this`serial, system
      ensures Ready(env) && Extended(old(system.actions), old(system.states), old(clock)) && Free()
      ensures Visited(system.states, |old(system.actions)|, met)
      ensures var fate := env.fate(old(clock) + 1);
              && tried == ((fate.ok || fate.applied) && id in met.jobs && Claimable(met.jobs[id], staleBefore))
              && r.Some? == (tried && fate.ok)
              && (!fate.ok ==> !proceed) && (fate.ok && !tried ==> proceed)
              && tried == ((fate.ok || fate.applied) && WaitsOrStale(met.jobs, id, env.fate(k).now - 15 * 60 * 1000))
      ensures Trace() == if !tried then old(Trace())
                         else if r.None? then Then(old(Trace()), ClaimTried)
                         else Steps(Then(old(Trace()), ClaimTried), r.value)
      ensures r.Some? && !ReportsFailure(r.value) ==> proceed
    {
      Interlude(env);
      var fate := env.fate(clock);
      met, tried := system.s, false;
      assert system.states[|system.actions|] == met;
      ghost var states := system.states;
      if (!fate.ok && !fate.applied) || id !in system.s.jobs || !Claimable(system.s.jobs[id], staleBefore) {
        return None, fate.ok, tried, met;
      }
      tried := true;
      var run := ClaimJob(id, staleBefore, fate, env);
      if !fate.ok {
        VisitedLater(states, system.states, |old(system.actions)|, met);
        return None, false, tried, met;
      }
      var ending, goOn, _ := Process(run, env);
      VisitedLater(states, system.states, |old(system.actions)|, met);
      return Some(ending), goOn, tried, met;
    }

    /** One step of one of this worker's expiries. */
    method ActExpiry(a: Action, env: Surroundings)
      requires Ready(env) && (a.ExpiryDelete? || a.ExpiryMark? || a.ExpiryStop?) && a.pass.worker == worker
      requires Enabled(system.s, a)
      modifies system
      ensures Ready(env) && Extended(old(system.actions), old(system.states), old(clock))
      ensures system.s == Apply(old(system.s), a) && Trace() == Then(old(Trace()), KindOf(a))
      ensures MyRuns(system.s, worker) == old(MyRuns(system.s, worker))
      ensures MyExpiries(system.s, worker) ==
                (if a.pass in system.s.expiries
                 then old(MyExpiries(system.s, worker))[a.pass := system.s.expiries[a.pass]]
                 else old(MyExpiries(system.s, worker)) - {a.pass})
      ensures system.actions == old(system.actions) + [a] && system.states == old(system.states) + [system.s]
    {
      ExpiryStep(system.s, a);
      MineAppend(system.actions, a, worker);
      ghost var before := MyExpiries(system.s, worker);
      system.Do(a);
      assert forall pass :: pass in MyExpiries(system.s, worker) ==> pass in before;
    }

    /** Deletes the file of one expired job; false when storage failed and the entry was dropped. */
    method DeleteFile(pass: RunId, env: Surroundings) returns (ok: bool)
      requires Ready(env) && MyRuns(system.s, worker) == map[]
      requires pass in MyExpiries(system.s, worker) && !system.s.expiries[pass].deleted
      modifies this`clock, system
      ensures Ready(env) && Extended(old(system.actions), old(system.states), old(clock))
      ensures MyRuns(system.s, worker) == map[] && Trace() == Then(old(Trace()), DeleteTried(ok))
      ensures MyExpiries(system.s, worker) - {pass} == old(MyExpiries(system.s, worker)) - {pass}
      ensures if ok then pass in MyExpiries(system.s, worker) && system.s.expiries[pass].deleted
              else pass !in MyExpiries(system.s, worker)
    {
      ghost var before := MyExpiries(system.s, worker);
      Interlude(env);
      assert pass in MyExpiries(system.s, worker) && system.s.expiries[pass] == before[pass];
      var fate := env.fate(clock);
      ok := fate.ok && (system.s.idempotentDelete || system.s.expiries[pass].path in system.s.files);
      ActExpiry(ExpiryDelete(pass, ok || fate.applied, ok), env);
    }

    /** Marks the job of a deleted file EXPIRED; false when the statement failed. */
    method MarkExpired(pass: RunId, env: Surroundings) returns (ok: bool)
      requires Ready(env) && MyRuns(system.s, worker) == map[]
      requires pass in MyExpiries(system.s, worker) && system.s.expiries[pass].deleted
      modifies this`clock, system
      ensures Ready(env) && Extended(old(system.actions), old(system.states), old(clock))
      ensures MyRuns(system.s, worker) == map[] && Trace() == Then(old(Trace()), MarkTried)
      ensures MyExpiries(system.s, worker) == old(MyExpiries(system.s, worker)) - {pass}
      ensures |system.actions| > 0 && |system.states| == |system.actions| + 1
      ensures var met, fate := system.states[|system.actions| - 1], env.fate(clock);
              MarksExpired(met.jobs, system.s.jobs, old(system.s.expiries[pass].job), fate.ok || fate.applied, fate.now)
    {
      ghost var before := MyExpiries(system.s, worker);
      Interlude(env);
      assert pass in MyExpiries(system.s, worker) && system.s.expiries[pass] == before[pass];
      var fate := env.fate(clock);
      MarkEffect(system.s, ExpiryMark(pass, fate.now, fate.ok || fate.applied));
      ActExpiry(ExpiryMark(pass, fate.now, fate.ok || fate.applied), env);
      ok := fate.ok;
    }

    /** Deletes one expired file, then marks its job. */
    method ExpireFile(pass: RunId, env: Surroundings) returns (ok: bool, ghost deleted: bool)
      requires Ready(env) && MyRuns(system.s, worker) == map[]
      requires pass in MyExpiries(system.s, worker) && !system.s.expiries[pass].deleted
      modifies this`clock, system
      ensures Ready(env) && Extended(old(system.actions), old(system.states), old(clock))
      ensures MyRuns(system.s, worker) == map[]
      ensures MyExpiries(system.s, worker) == old(MyExpiries(system.s, worker)) - {pass}
      ensures Trace() == if ok then Expirations(old(Trace()), 1) else Broken(old(Trace()), deleted)
    {
      ok := DeleteFile(pass, env);
      deleted := ok;
      if ok {
        ok := MarkExpired(pass, env);
      }
    }

    /** One row of the query for expired jobs: the job and the file it has now. */
    method NoteExpired(id: JobId, now: int, env: Surroundings) returns (pass: RunId)
      requires Ready(env) && id in system.s.jobs && DueToExpire(system.s.jobs[id], now)
      modifies this`serial, system
      ensures Ready(env) && Extended(old(system.actions), old(system.states), old(clock))
      ensures MyRuns(system.s, worker) == old(MyRuns(system.s, worker)) && system.s.jobs == old(system.s.jobs)
      ensures pass !in old(MyExpiries(system.s, worker))
      ensures MyExpiries(system.s, worker)
           == old(MyExpiries(system.s, worker))[pass := Expiry(id, old(system.s.jobs[id]).storagePath.value, false)]
      ensures Trace() == Then(old(Trace()), Noted)
    {
      pass := RunId(worker, serial);
      serial := serial + 1;
      assert pass !in MyExpiries(system.s, worker);
      ExpiryStep(system.s, ExpiryRead(pass, id, now));
      MineAppend(system.actions, ExpiryRead(pass, id, now), worker);
      system.Do(ExpiryRead(pass, id, now));
    }

    method NoteNext(passes: seq<RunId>, id: JobId, now: int, env: Surroundings) returns (passes': seq<RunId>)
      requires Ready(env) && id in system.s.jobs && DueToExpire(system.s.jobs[id], now)
      requires PendingIn(MyExpiries(system.s, worker), passes)
      modifies this`serial, system
      ensures Ready(env) && Extended(old(system.actions), old(system.states), old(clock))
      ensures MyRuns(system.s, worker) == old(MyRuns(system.s, worker)) && system.s.jobs == old(system.s.jobs)
      ensures PendingIn(MyExpiries(system.s, worker), passes') && |passes'| == |passes| + 1
      ensures Trace() == Then(old(Trace()), Noted)
    {
      ghost var before := MyExpiries(system.s, worker);
      var pass := NoteExpired(id, now, env);
      PendingMore(before, passes, pass, MyExpiries(system.s, worker));
      passes' := passes + [pass];
    }

    /** Notes the expired jobs of one query: up to `take` of them. */
    method ReadExpired(take: nat, env: Surroundings) returns (passes: seq<RunId>)
      requires Ready(env) && Free()
      modifies this`serial, system
      ensures Ready(env) && Extended(old(system.actions), old(system.states), old(clock))
      ensures MyRuns(system.s, worker) == map[] && Pending(passes, 0)
      ensures |passes| == Least(take, |Due(old(system.s), env.fate(old(clock)).now)|)
      ensures Trace() == Notes(old(Trace()), |passes|)
    {
      passes := [];
      var now := env.fate(clock).now;
      var ids := Due(system.s, now);
      ghost var due := |ids|;
      while ids != {} && |passes| < take
        invariant Ready(env) && Extended(old(system.actions), old(system.states), old(clock))
        invariant MyRuns(system.s, worker) == map[] && |passes| <= take
        invariant PendingIn(MyExpiries(system.s, worker), passes)
        invariant |passes| + |ids| == due && Trace() == Notes(old(Trace()), |passes|)
        invariant system.s.jobs == old(system.s.jobs)
        invariant forall id :: id in ids ==> id in system.s.jobs && DueToExpire(system.s.jobs[id], now)
        decreases |ids|
      {
        var id :| id in ids;
        passes := NoteNext(passes, id, now, env);
        ids := ids - {id};
      }
      assert passes[0..] == passes;
    }

    /** The passes from position `k` on are exactly this worker's open expiries, none deleted yet. */
    ghost predicate Pending(passes: seq<RunId>, k: nat)
      reads this, system
      requires k <= |passes|
    {
      PendingIn(MyExpiries(system.s, worker), passes[k..])
    }

    /** `expireFiles`: one query, then deletion and marking job by job; the first failure ends the pass. */
    method ExpireFiles(env: Surroundings) returns (ok: bool, ghost failure: Option<Failure>)
      requires Ready(env) && Free()
      modifies this`clock, this`serial, system
      ensures Ready(env) && Extended(old(system.actions), old(system.states), old(clock)) && Free()
      ensures ok <==> failure.None?
      ensures var n := Least(50, |Due(old(system.s), env.fate(old(clock)).now)|);
              (failure.Some? ==> failure.value.at < n) && Trace() == PassTrace(Notes(old(Trace()), n), n, failure)
      ensures forall id :: id in Due(old(system.s), env.fate(old(clock)).now) <==>
                PastItsDay(old(system.s.jobs), id, env.fate(old(clock)).now)
      ensures Claims(Trace()) == Claims(old(Trace()))
    {
      ghost var before := Trace();
      var passes := ReadExpired(50, env);
      NotesClaimNothing(before, |passes|);
      ghost var noted := Trace();
      ok, failure := true, None;
      for k := 0 to |passes|
        invariant Ready(env) && Extended(old(system.actions), old(system.states), old(clock))
        invariant MyRuns(system.s, worker) == map[] && Pending(passes, k)
        invariant (ok <==> failure.None?) && (failure.Some? ==> failure.value.at < k)
        invariant Trace() == PassTrace(noted, k, failure)
      {
        ghost var deleted;
        ghost var goOn := ok;
        ok, deleted := NextExpiry(passes, k, ok, env);
        failure := if goOn && !ok then Some(Failure(k, deleted)) else failure;
      }
      PassClaimsNothing(noted, |passes|, failure);
      NothingPending(passes);
    }

    lemma NothingPending(passes: seq<RunId>)
      requires Pending(passes, |passes|)
      ensures MyExpiries(system.s, worker) == map[]
    {
      assert passes[|passes|..] == [];
      assert forall pass :: pass !in MyExpiries(system.s, worker);
    }

    /** The next entry of the query: expired, or dropped once an earlier one has failed. */
    method NextExpiry(passes: seq<RunId>, k: nat, goOn: bool, env: Surroundings) returns (ok: bool, ghost deleted: bool)
      requires k < |passes| && Ready(env) && MyRuns(system.s, worker) == map[] && Pending(passes, k)
      modifies this`clock, system
      ensures Ready(env) && Extended(old(system.actions), old(system.states), old(clock))
      ensures MyRuns(system.s, worker) == map[] && Pending(passes, k + 1)
      ensures ok ==> goOn
      ensures Trace() == if !goOn then Then(old(Trace()), Dropped)
                         else if ok then Expirations(old(Trace()), 1) else Broken(old(Trace()), deleted)
    {
      assert passes[k..] == [passes[k]] + passes[k + 1..] && passes[k] in passes[k..];
      ghost var before := MyExpiries(system.s, worker);
      ok, deleted := goOn, false;
      if goOn {
        ok, deleted := ExpireFile(passes[k], env);
      } else {
        ActExpiry(ExpiryStop(passes[k]), env);
      }
      PendingLess(before, passes[k], passes[k + 1..]);
    }

    /** `purgeRecords`. */
    method PurgeRecords(cutoff: int, env: Surroundings)
      requires Ready(env) && Free()
      modifies this`clock, system
      ensures Ready(env) && Extended(old(system.actions), old(system.states), old(clock)) && Free()
      ensures Trace() == old(Trace()) && |system.actions| > 0
      ensures PurgesOld(system.states[|system.actions| - 1].jobs, system.s.jobs, cutoff)
    {
      Interlude(env);
      OthersKeepMine(system.s, Purge(cutoff), worker);
      MineAppend(system.actions, Purge(cutoff), worker);
      PurgeEffect(system.s, cutoff);
      system.Do(Purge(cutoff));
    }

    /**
     * One pass of the worker: expire files, purge records, then claim and process up to five of the jobs
     * that were claimable when asked for (`asked` is that state, `tried` the jobs taken up). Afterwards
     * this worker holds no run and no half-done expiry, whatever failed on the way.
     */
    method ProcessPending(retentionCutoff: int, env: Surroundings)
      returns (finished: bool, ghost asked: State, ghost staleBefore: int, ghost tried: set<JobId>)
      requires Ready(env) && Free()
      modifies this`clock, this`serial, system
      ensures Ready(env) && Extended(old(system.actions), old(system.states), old(clock)) && Free()
      ensures finished ==> Visited(system.states, |old(system.actions)|, asked)
      ensures finished ==> tried <= ClaimableJobs(asked, staleBefore)
      ensures finished ==> |tried| == Least(5, |ClaimableJobs(asked, staleBefore)|)
      // in terms of the columns: only waiting or stale jobs, and all of them if there are fewer than five
      ensures finished ==> |tried| <= 5 && forall id :: id in tried ==> WaitsOrStale(asked.jobs, id, staleBefore)
      ensures finished && |tried| < 5 ==>
                forall id :: WaitsOrStale(asked.jobs, id, staleBefore) ==> id in tried
      ensures finished ==> exists k: nat :: k <= clock && staleBefore == env.fate(k).now - 15 * 60 * 1000
      ensures Claims(Trace()) <= Claims(old(Trace())) + 5
      // whatever others did meanwhile, runs are fenced and every stored file has exactly one owner
      ensures ReportFiles.FileInv(system.s)
    {
      tried, asked, staleBefore := {}, system.s, 0;
      var ok, _ := ExpireFiles(env);
      if !ok {
        system.Safe();
        return false, asked, staleBefore, tried;
      }
      PurgeRecords(retentionCutoff, env);
      asked := system.s;
      assert system.states[|system.actions|] == asked;
      finished, staleBefore, tried := ProcessClaimable(env);
      if finished {
        TakenUp(asked, staleBefore, tried);
      }
      system.Safe();
      assert Visited(system.states, |old(system.actions)|, asked);
    }

    /** The claim loop: up to five of the jobs that are claimable now. */
    method ProcessClaimable(env: Surroundings) returns (finished: bool, ghost staleBefore: int, ghost tried: set<JobId>)
      requires Ready(env) && Free()
      modifies this`clock, this`serial, system
      ensures Ready(env) && Extended(old(system.actions), old(system.states), old(clock)) && Free()
      ensures tried <= ClaimableJobs(old(system.s), staleBefore)
      ensures finished ==> |tried| == Least(5, |ClaimableJobs(old(system.s), staleBefore)|)
      ensures staleBefore == env.fate(old(clock)).now - 15 * 60 * 1000
      ensures Claims(Trace()) <= Claims(old(Trace())) + 5
    {
      var before := env.fate(clock).now - STALE_RUN_MS;
      staleBefore, tried := before, {};
      var pending := ClaimableJobs(system.s, before);
      ghost var all := pending;
      var taken := 0;
      while pending != {} && taken < 5
        invariant Ready(env) && Extended(old(system.actions), old(system.states), old(clock)) && Free()
        invariant tried == all - pending && pending <= all && |tried| == taken <= 5
        invariant Claims(Trace()) <= Claims(old(Trace())) + taken
        decreases |pending|
      {
        var id :| id in pending;
        ghost var trace := Trace();
        var r, proceed, attempted, _ := RunJob(id, before, old(clock), env);
        StepsClaimNothing(Then(trace, ClaimTried), r);
        pending, taken := pending - {id}, taken + 1;
        tried := tried + {id};
        if !proceed {
          return false, staleBefore, tried;
        }
      }
      assert |all| == |tried| + |pending|;
      return true, staleBefore, tried;
    }
  }
}
