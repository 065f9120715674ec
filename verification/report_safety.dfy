/**
 * Fencing and file ownership of report jobs over all interleavings: start times identify claims, a
 * job is finished at most once and by its latest claim, and every stored file has exactly one owner.
 */
module ReportSafety {
  import opened Prelude
  import opened ReportProtocol

  // --------------------------------------------------------------------------- fencing

  ghost predicate JobShape(job: Job) {
    && (job.status.Pending? ==> job.startedAt.None?)
    && (job.status.Running? ==> job.startedAt.Some?)
    && (job.status.Completed? <==> job.storagePath.Some?)
    && (job.status.Completed? ==> job.expiresAt.Some?)
  }

  ghost predicate JobsOk(s: State) {
    forall id :: id in s.jobs ==> id in s.everJobs && JobShape(s.jobs[id])
  }

  /** A run's token is a start time its job has had; the job's current one is at least as late. */
  ghost predicate RunOk(s: State, r: Run) {
    && r.job in s.everJobs
    && (r.job in s.jobs ==> s.jobs[r.job].startedAt.Some? && r.token <= s.jobs[r.job].startedAt.value)
    && (r.phase.Committed? && r.job in s.jobs ==> s.jobs[r.job].status.Completed? || s.jobs[r.job].status.Expired?)
  }

  ghost predicate RunsOk(s: State) {
    forall run :: run in s.runs ==> RunOk(s, s.runs[run])
  }

  ghost predicate TokensDistinct(s: State) {
    forall a, b :: a in s.runs && b in s.runs && a != b && s.runs[a].job == s.runs[b].job && s.runs[a].job in s.jobs ==>
      s.runs[a].token != s.runs[b].token
  }

  ghost predicate Fenced(s: State) {
    JobsOk(s) && RunsOk(s) && TokensDistinct(s)
  }

  predicate Terminal(status: JobStatus) {
    !status.Pending? && !status.Running?
  }

  /** How one job may change in one step. */
  ghost predicate JobStep(before: Job, after: Job) {
    && (before.startedAt.Some? ==> after.startedAt.Some? && before.startedAt.value <= after.startedAt.value)
    && (Terminal(before.status) ==>
          (&& after.startedAt == before.startedAt
           && (after.status == before.status || (before.status.Completed? && after.status.Expired?))))
  }

  lemma JobsEvolve(s: State, a: Action, id: JobId)
    requires JobsOk(s) && Enabled(s, a) && id in s.jobs && id in Apply(s, a).jobs
    ensures JobStep(s.jobs[id], Apply(s, a).jobs[id])
  {
  }

  lemma JobsStayGone(s: State, a: Action, id: JobId)
    requires Enabled(s, a) && id in s.everJobs
    ensures id in Apply(s, a).everJobs
    ensures id in Apply(s, a).jobs ==> id in s.jobs
  {
  }

  lemma JobsOkKept(s: State, a: Action)
    requires JobsOk(s) && Enabled(s, a)
    ensures JobsOk(Apply(s, a))
  {
  }

  /** A run present before and after keeps its job and token. */
  lemma RunsKeepIdentity(s: State, a: Action, run: RunId)
    requires Enabled(s, a) && run in s.runs && run in Apply(s, a).runs
    ensures Apply(s, a).runs[run].job == s.runs[run].job && Apply(s, a).runs[run].token == s.runs[run].token
    ensures Apply(s, a).runs[run].phase.Committed? && !s.runs[run].phase.Committed? ==>
              s.runs[run].job in Apply(s, a).jobs && Apply(s, a).jobs[s.runs[run].job].status.Completed?
  {
  }

  lemma RunsAppearByClaim(s: State, a: Action, run: RunId)
    requires Enabled(s, a) && run !in s.runs && run in Apply(s, a).runs
    ensures a.Claim? && a.run == run && Apply(s, a).runs[run] == Run(a.id, a.startedAt, Working)
    ensures Apply(s, a).jobs[a.id].startedAt == Some(a.startedAt)
  {
  }

  /** Every claim writes a start time later than all tokens handed out for the job before. */
  lemma ClaimTokenIsFresh(s: State, a: Action, run: RunId)
    requires Fenced(s) && a.Claim? && Enabled(s, a) && run in s.runs && s.runs[run].job == a.id
    ensures s.runs[run].token < a.startedAt
  {
    assert RunOk(s, s.runs[run]);
  }

  lemma RunsOkKept(s: State, a: Action)
    requires Fenced(s) && Enabled(s, a)
    ensures RunsOk(Apply(s, a))
  {
    var t := Apply(s, a);
    forall run | run in t.runs
      ensures RunOk(t, t.runs[run])
    {
      var id := t.runs[run].job;
      if run in s.runs {
        RunsKeepIdentity(s, a, run);
        assert RunOk(s, s.runs[run]);
        JobsStayGone(s, a, id);
        if id in t.jobs {
          JobsEvolve(s, a, id);
        }
      } else {
        RunsAppearByClaim(s, a, run);
      }
    }
  }

  lemma TokensDistinctKept(s: State, a: Action)
    requires Fenced(s) && Enabled(s, a)
    ensures TokensDistinct(Apply(s, a))
  {
    var t := Apply(s, a);
    forall x, y | x in t.runs && y in t.runs && x != y && t.runs[x].job == t.runs[y].job && t.runs[x].job in t.jobs
      ensures t.runs[x].token != t.runs[y].token
    {
      if x in s.runs {
        RunsKeepIdentity(s, a, x);
        assert RunOk(s, s.runs[x]);
        JobsStayGone(s, a, t.runs[x].job);
      } else {
        RunsAppearByClaim(s, a, x);
      }
      if y in s.runs {
        RunsKeepIdentity(s, a, y);
      } else {
        RunsAppearByClaim(s, a, y);
      }
      if x !in s.runs && y in s.runs {
        ClaimTokenIsFresh(s, a, y);
      }
      if y !in s.runs && x in s.runs {
        ClaimTokenIsFresh(s, a, x);
      }
    }
  }

  lemma StepKeepsFence(s: State, a: Action)
    requires Fenced(s) && Enabled(s, a)
    ensures Fenced(Apply(s, a))
  {
    JobsOkKept(s, a);
    RunsOkKept(s, a);
    TokensDistinctKept(s, a);
  }

  lemma {:induction false} ReachableStatesAreFenced(ss: seq<State>, acts: seq<Action>, n: nat)
    requires IsRun(ss, acts) && Initial(ss[0]) && n < |ss|
    ensures Fenced(ss[n])
  {
    if n > 0 {
      ReachableStatesAreFenced(ss, acts, n - 1);
      assert Step(ss[n - 1], acts[n - 1], ss[n - 1 + 1]);
      StepKeepsFence(ss[n - 1], acts[n - 1]);
    }
  }

  // --------------------------------------------------------------- one job over a run

  /** A job seen at two moments was there in between, its start time only grew, and finality is kept. */
  lemma {:induction false} JobOverTime(ss: seq<State>, acts: seq<Action>, i: nat, j: nat, id: JobId)
    requires IsRun(ss, acts) && Initial(ss[0]) && i <= j < |ss| && id in ss[i].jobs && id in ss[j].jobs
    ensures JobStep(ss[i].jobs[id], ss[j].jobs[id])
    ensures forall k :: i <= k <= j ==> id in ss[k].jobs
    decreases j - i
  {
    if i < j {
      ReachableStatesAreFenced(ss, acts, j - 1);
      ReachableStatesAreFenced(ss, acts, i);
      assert Step(ss[j - 1], acts[j - 1], ss[j - 1 + 1]);
      EverJobsGrow(ss, acts, i, j - 1, id);
      JobsStayGone(ss[j - 1], acts[j - 1], id);
      JobOverTime(ss, acts, i, j - 1, id);
      JobsEvolve(ss[j - 1], acts[j - 1], id);
    }
  }

  lemma {:induction false} EverJobsGrow(ss: seq<State>, acts: seq<Action>, i: nat, j: nat, id: JobId)
    requires IsRun(ss, acts) && i <= j < |ss| && id in ss[i].everJobs
    ensures id in ss[j].everJobs
    decreases j - i
  {
    if i < j {
      EverJobsGrow(ss, acts, i, j - 1, id);
      assert Step(ss[j - 1], acts[j - 1], ss[j - 1 + 1]);
      JobsStayGone(ss[j - 1], acts[j - 1], id);
    }
  }

  /**
   * Each claim of a job writes a strictly larger start time than every earlier claim of it, whatever
   * the clocks of the claiming workers show relative to each other.
   */
  lemma ClaimTimesIncrease(ss: seq<State>, acts: seq<Action>, i: nat, j: nat)
    requires IsRun(ss, acts) && Initial(ss[0]) && i < j < |acts|
    requires acts[i].Claim? && acts[j].Claim? && acts[i].id == acts[j].id
    ensures acts[i].startedAt < acts[j].startedAt
  {
    var id := acts[i].id;
    assert Step(ss[i], acts[i], ss[i + 1]);
    assert Step(ss[j], acts[j], ss[j + 1]);
    ReachableStatesAreFenced(ss, acts, j);
    JobOverTime(ss, acts, i + 1, j, id);
  }

  /** Step i moves this job to COMPLETED or FAILED. */
  ghost predicate Finishes(ss: seq<State>, i: nat, id: JobId)
    requires i + 1 < |ss|
  {
    && id in ss[i].jobs && id in ss[i + 1].jobs && !Terminal(ss[i].jobs[id].status)
    && (ss[i + 1].jobs[id].status.Completed? || ss[i + 1].jobs[id].status.Failed?)
  }

  /** Over any run at most one step finishes a job. */
  lemma FinishedOnce(ss: seq<State>, acts: seq<Action>, i: nat, j: nat, id: JobId)
    requires IsRun(ss, acts) && Initial(ss[0]) && i < |acts| && j < |acts|
    requires Finishes(ss, i, id) && Finishes(ss, j, id)
    ensures i == j
  {
    if i < j {
      JobOverTime(ss, acts, i + 1, j, id);
    } else if j < i {
      JobOverTime(ss, acts, j + 1, i, id);
    }
  }

  /** The finishing run is the latest claimant: every claim of the job precedes it, and none is newer than its token. */
  lemma LatestClaimFinishes(ss: seq<State>, acts: seq<Action>, i: nat, k: nat, id: JobId)
    requires IsRun(ss, acts) && Initial(ss[0]) && i < |acts| && k < |acts|
    requires Finishes(ss, i, id) && acts[k].Claim? && acts[k].id == id
    ensures k < i
    ensures (acts[i].Commit? || acts[i].FailWrite?) && acts[i].run in ss[i].runs && ss[i].runs[acts[i].run].job == id
    ensures acts[k].startedAt <= ss[i].runs[acts[i].run].token
  {
    assert Step(ss[i], acts[i], ss[i + 1]);
    assert Step(ss[k], acts[k], ss[k + 1]);
    if k > i {
      JobOverTime(ss, acts, i + 1, k, id);
    } else {
      JobOverTime(ss, acts, k + 1, i, id);
    }
  }

  /** A cancelled job stays cancelled until its record is purged. */
  lemma CancelledIsFinal(ss: seq<State>, acts: seq<Action>, i: nat, j: nat, id: JobId)
    requires IsRun(ss, acts) && Initial(ss[0]) && i <= j < |ss|
    requires id in ss[i].jobs && ss[i].jobs[id].status.Cancelled? && id in ss[j].jobs
    ensures ss[j].jobs[id].status.Cancelled?
  {
    JobOverTime(ss, acts, i, j, id);
  }

  // ------------------------------------------------------ which step gives a job its status

  /** The job is running for this run, column by column. */
  predicate InHand(jobs: map<JobId, Job>, r: Run) {
    r.job in jobs && jobs[r.job].status == Running && jobs[r.job].startedAt == Some(r.token)
  }

  /** Step `k` gives the job the status it has afterwards, and is the only kind of step that may. */
  ghost predicate Sets(ss: seq<State>, acts: seq<Action>, k: nat, id: JobId)
    requires k < |acts| && k + 1 < |ss| && id in ss[k + 1].jobs
  {
    var a, s, job := acts[k], ss[k], ss[k + 1].jobs[id];
    match job.status
    case Pending => a.Create? && a.id == id && id !in s.jobs
    case Running => a.Claim? && a.id == id && job.startedAt == Some(a.startedAt)
    case Completed =>
      a.Commit? && a.applied && a.run in s.runs && s.runs[a.run].job == id && InHand(s.jobs, s.runs[a.run])
    case Failed =>
      && a.FailWrite? && a.applied && a.run in s.runs && s.runs[a.run].job == id && InHand(s.jobs, s.runs[a.run])
      && job.error == Some(a.error)
    case Cancelled => a.Cancel? && a.id == id && id in s.jobs && s.jobs[id].status in {Pending, Running}
    case Expired => a.ExpiryMark? && a.applied && a.pass in s.expiries && s.expiries[a.pass].job == id
                    && id in s.jobs && s.jobs[id].status == Completed
  }

  lemma StatusSet(ss: seq<State>, acts: seq<Action>, k: nat, id: JobId)
    requires IsRun(ss, acts) && k < |acts| && id in ss[k + 1].jobs && JobsOk(ss[k])
    requires id in ss[k].jobs ==> ss[k].jobs[id].status != ss[k + 1].jobs[id].status
    ensures Sets(ss, acts, k, id)
  {
    assert Step(ss[k], acts[k], ss[k + 1]);
  }

  /**
   * Where a status comes from, over any run: only a cancel request makes a job CANCELLED, only the failure report of
   * the run that holds it FAILED, only that run's commit COMPLETED, only an expiry pass over a COMPLETED job EXPIRED.
   */
  lemma {:induction false} StatusOrigin(ss: seq<State>, acts: seq<Action>, n: nat, id: JobId) returns (k: nat)
    requires IsRun(ss, acts) && Initial(ss[0]) && n < |ss| && id in ss[n].jobs
    ensures k < n && id in ss[k + 1].jobs && ss[k + 1].jobs[id].status == ss[n].jobs[id].status
    ensures Sets(ss, acts, k, id)
    ensures forall m :: k < m <= n ==> id in ss[m].jobs && ss[m].jobs[id].status == ss[n].jobs[id].status
  {
    assert n > 0;
    if id in ss[n - 1].jobs && ss[n - 1].jobs[id].status == ss[n].jobs[id].status {
      k := StatusOrigin(ss, acts, n - 1, id);
    } else {
      k := n - 1;
      ReachableStatesAreFenced(ss, acts, k);
      StatusSet(ss, acts, k, id);
    }
  }
}
