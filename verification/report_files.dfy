/**
 * Who owns each stored report file. A file belongs to one COMPLETED job, to one live run, or it was
 * lost by a run that stopped between storing it and committing or deleting it.
 */
module ReportFiles {
  import opened Prelude
  import opened ReportProtocol
  import opened ReportSafety

  datatype Owner = OfJob(job: JobId) | OfRun(run: RunId) | Lost

  predicate Owns(s: State, o: Owner, path: Path) {
    match o
    case OfJob(id) => id in s.jobs && s.jobs[id].status.Completed? && s.jobs[id].storagePath == Some(path)
    case OfRun(run) => run in s.runs && path in HeldPath(s.runs[run].phase)
    case Lost => path in s.lost
  }

  /** No path has two owners, and owned paths were handed out by storage. */
  ghost predicate OneOwner(s: State) {
    && (forall o, path :: Owns(s, o, path) ==> path in s.everPaths)
    && (forall o, o', path :: Owns(s, o, path) && Owns(s, o', path) ==> o == o')
  }

  /** Stored files have an owner; what a run holds or has lost is stored. */
  ghost predicate FilesOwned(s: State) {
    && (forall path :: path in s.files ==> exists o :: Owns(s, o, path))
    && (forall o, path :: Owns(s, o, path) && !o.OfJob? ==> path in s.files)
  }

  /** While an expiry is under way its file has no owner but the job. */
  ghost predicate ExpiryOwned(s: State, e: Expiry) {
    forall o :: Owns(s, o, e.path) ==> o == OfJob(e.job)
  }

  /** Until it is marked, the job still names the file and its expiry time has been seen. */
  ghost predicate ExpiryNamed(s: State, e: Expiry) {
    e.job in s.jobs && !s.jobs[e.job].status.Expired? ==>
      s.jobs[e.job].status.Completed? && s.jobs[e.job].storagePath == Some(e.path) && SeenExpired(s, s.jobs[e.job])
  }

  ghost predicate ExpiryOk(s: State, e: Expiry) {
    && e.job in s.everJobs && e.path in s.everPaths && ExpiryOwned(s, e) && ExpiryNamed(s, e)
    && (e.deleted ==> e.path !in s.files)
  }

  ghost predicate ExpiriesOk(s: State) {
    forall pass :: pass in s.expiries ==> ExpiryOk(s, s.expiries[pass])
  }

  /** Some expiry pass has read a clock at or after this job's expiry time. */
  ghost predicate SeenExpired(s: State, job: Job) {
    job.expiresAt.Some? && s.lastExpiryReading.Some? && job.expiresAt.value <= s.lastExpiryReading.value
  }

  ghost predicate DownloadsStored(s: State) {
    forall id :: id in s.jobs && s.jobs[id].status.Completed? && !SeenExpired(s, s.jobs[id]) ==>
      s.jobs[id].storagePath.Some? && s.jobs[id].storagePath.value in s.files
  }

  ghost predicate FileInv(s: State) {
    Fenced(s) && OneOwner(s) && FilesOwned(s) && ExpiriesOk(s) && DownloadsStored(s)
  }

  // --------------------------------------------------------------- how ownership moves

  /** How a path can get an owner it did not have: it is uploaded, or handed over. */
  predicate Acquires(s: State, a: Action, o: Owner, path: Path)
    requires Enabled(s, a)
  {
    || (a.Upload? && a.path == path && o == (if a.replied then OfRun(a.run) else Lost))
    || (a.StopRun? && o == Lost && Owns(s, OfRun(a.run), path))
    || (a.Commit? && Owns(s, OfRun(a.run), path) && !Owns(Apply(s, a), OfRun(a.run), path)
          && o == (if a.applied && Holds(s.jobs, s.runs[a.run]) then OfJob(s.runs[a.run].job) else Lost))
    || (a.Discard? && o == Lost && !a.removed && Owns(s, OfRun(a.run), path))
  }

  lemma JobOwnsAfter(s: State, a: Action, id: JobId, path: Path)
    requires Fenced(s) && Enabled(s, a) && Owns(Apply(s, a), OfJob(id), path)
    ensures Owns(s, OfJob(id), path) || Acquires(s, a, OfJob(id), path)
  {
  }

  lemma RunOwnsAfter(s: State, a: Action, run: RunId, path: Path)
    requires Enabled(s, a) && Owns(Apply(s, a), OfRun(run), path)
    ensures Owns(s, OfRun(run), path) || Acquires(s, a, OfRun(run), path)
  {
  }

  /** Ownership after a step, for a path the step does not create: as before, or handed over. */
  lemma OwnersAfter(s: State, a: Action, o: Owner, path: Path)
    requires Fenced(s) && Enabled(s, a) && Owns(Apply(s, a), o, path)
    ensures Owns(s, o, path) || Acquires(s, a, o, path)
  {
    match o
    case OfJob(id) => JobOwnsAfter(s, a, id, path);
    case OfRun(run) => RunOwnsAfter(s, a, run, path);
    case Lost =>
  }

  /** Ownership handed over leaves the previous owner. */
  lemma RunsLetGo(s: State, a: Action, path: Path)
    requires Enabled(s, a) && (a.StopRun? || a.Discard?) && Owns(s, OfRun(a.run), path)
    ensures !Owns(Apply(s, a), OfRun(a.run), path)
  {
  }

  lemma OneOwnerKept(s: State, a: Action)
    requires Fenced(s) && OneOwner(s) && Enabled(s, a)
    ensures OneOwner(Apply(s, a))
  {
    var t := Apply(s, a);
    forall o, path | Owns(t, o, path)
      ensures path in t.everPaths
    {
      OwnersAfter(s, a, o, path);
    }
    forall o, o', path | Owns(t, o, path) && Owns(t, o', path)
      ensures o == o'
    {
      OwnersAfter(s, a, o, path);
      OwnersAfter(s, a, o', path);
      if (a.StopRun? || a.Discard?) && Owns(s, OfRun(a.run), path) {
        RunsLetGo(s, a, path);
      }
    }
  }

  /** The next owner of a file its run no longer holds. */
  lemma HandedOver(s: State, a: Action, path: Path)
    requires Enabled(s, a) && (a.StopRun? || a.Commit? || a.Discard?)
    requires Owns(s, OfRun(a.run), path) && path in Apply(s, a).files && !Owns(Apply(s, a), OfRun(a.run), path)
    ensures a.Commit? && a.applied && Holds(s.jobs, s.runs[a.run]) ==> Owns(Apply(s, a), OfJob(s.runs[a.run].job), path)
    ensures !(a.Commit? && a.applied && Holds(s.jobs, s.runs[a.run])) ==> Owns(Apply(s, a), Lost, path)
  {
  }

  /** An owner that stops owning either handed the path over or the file is gone. */
  lemma OwnersBefore(s: State, a: Action, o: Owner, path: Path)
    requires Fenced(s) && ExpiriesOk(s) && Enabled(s, a) && Owns(s, o, path) && path in Apply(s, a).files
    ensures exists o' :: Owns(Apply(s, a), o', path)
  {
    if (a.StopRun? || a.Commit? || a.Discard?) && o == OfRun(a.run) && !Owns(Apply(s, a), o, path) {
      HandedOver(s, a, path);
    } else {
      OwnerStays(s, a, o, path);
    }
  }

  /** Nobody else gives a stored file up. */
  lemma OwnerStays(s: State, a: Action, o: Owner, path: Path)
    requires Fenced(s) && ExpiriesOk(s) && Enabled(s, a) && Owns(s, o, path) && path in Apply(s, a).files
    requires !((a.StopRun? || a.Commit? || a.Discard?) && o == OfRun(a.run) && !Owns(Apply(s, a), o, path))
    ensures Owns(Apply(s, a), o, path)
  {
    match o
    case OfJob(id) => JobOwnerStays(s, a, id, path);
    case OfRun(run) =>
    case Lost =>
  }

  lemma JobOwnerStays(s: State, a: Action, id: JobId, path: Path)
    requires Fenced(s) && ExpiriesOk(s) && Enabled(s, a) && Owns(s, OfJob(id), path) && path in Apply(s, a).files
    ensures Owns(Apply(s, a), OfJob(id), path)
  {
    if a.ExpiryMark? {
      assert ExpiryOk(s, s.expiries[a.pass]);
    }
  }

  lemma FilesOwnedKept(s: State, a: Action)
    requires Fenced(s) && OneOwner(s) && FilesOwned(s) && ExpiriesOk(s) && Enabled(s, a)
    ensures FilesOwned(Apply(s, a))
  {
    var t := Apply(s, a);
    forall path | path in t.files
      ensures exists o :: Owns(t, o, path)
    {
      if path in s.files {
        var o :| Owns(s, o, path);
        OwnersBefore(s, a, o, path);
      } else {
        assert Owns(t, if a.replied then OfRun(a.run) else Lost, path);
      }
    }
    forall o, path | Owns(t, o, path) && !o.OfJob?
      ensures path in t.files
    {
      OwnersAfter(s, a, o, path);
      if Owns(s, o, path) {
        OwnedFileStays(s, a, o, path);
      } else if !a.Upload? {
        assert path in s.files;
        OwnedFileMoves(s, a, path);
      }
    }
  }

  lemma OwnedFileMoves(s: State, a: Action, path: Path)
    requires Enabled(s, a) && (a.StopRun? || a.Commit? || (a.Discard? && !a.removed)) && path in s.files
    ensures path in Apply(s, a).files
  {
  }

  /** A file is never removed while a run or the lost set owns it, unless that run discards it. */
  lemma OwnedFileStays(s: State, a: Action, o: Owner, path: Path)
    requires OneOwner(s) && ExpiriesOk(s) && Enabled(s, a) && !o.OfJob?
    requires Owns(s, o, path) && path in s.files && Owns(Apply(s, a), o, path)
    ensures path in Apply(s, a).files
  {
    if a.Discard? && s.runs[a.run].phase.path == path {
      assert Owns(s, OfRun(a.run), path);
      RunsLetGo(s, a, path);
    }
    if a.ExpiryDelete? {
      assert ExpiryOk(s, s.expiries[a.pass]);
    }
  }

  lemma ExpiriesOkKept(s: State, a: Action)
    requires Fenced(s) && OneOwner(s) && ExpiriesOk(s) && Enabled(s, a)
    ensures ExpiriesOk(Apply(s, a))
  {
    var t := Apply(s, a);
    forall pass | pass in t.expiries
      ensures ExpiryOk(t, t.expiries[pass])
    {
      var e := t.expiries[pass];
      if pass in s.expiries {
        OldExpiryOk(s, a, pass);
      } else {
        NewExpiryOk(s, a);
      }
    }
  }

  lemma NewExpiryOk(s: State, a: Action)
    requires Fenced(s) && OneOwner(s) && a.ExpiryRead? && Enabled(s, a)
    ensures ExpiryOk(Apply(s, a), Apply(s, a).expiries[a.pass])
  {
    var t := Apply(s, a);
    var e := t.expiries[a.pass];
    assert Owns(s, OfJob(a.id), e.path);
    forall o | Owns(t, o, e.path)
      ensures o == OfJob(a.id)
    {
      assert Owns(s, o, e.path);
    }
  }

  lemma OldExpiryOk(s: State, a: Action, pass: RunId)
    requires Fenced(s) && OneOwner(s) && ExpiriesOk(s) && Enabled(s, a)
    requires pass in s.expiries && pass in Apply(s, a).expiries
    ensures ExpiryOk(Apply(s, a), Apply(s, a).expiries[pass])
  {
    var e, e' := s.expiries[pass], Apply(s, a).expiries[pass];
    assert ExpiryOk(s, e);
    ExpirySteps(s, a, pass);
    ExpiryOwnedKept(s, a, e);
    ExpiryNamedKept(s, a, e);
    assert ExpiryOwned(Apply(s, a), e') && ExpiryNamed(Apply(s, a), e');
  }

  /** An expiry keeps its job and file; once it has deleted the file nothing stores it again. */
  lemma ExpirySteps(s: State, a: Action, pass: RunId)
    requires Enabled(s, a) && pass in s.expiries && pass in Apply(s, a).expiries
    requires s.expiries[pass].job in s.everJobs && s.expiries[pass].path in s.everPaths
    requires s.expiries[pass].deleted ==> s.expiries[pass].path !in s.files
    ensures var e, e' := s.expiries[pass], Apply(s, a).expiries[pass];
            && e'.job == e.job && e'.path == e.path && e.job in Apply(s, a).everJobs && e.path in Apply(s, a).everPaths
            && (e'.deleted ==> e.path !in Apply(s, a).files)
  {
  }

  lemma ExpiryOwnedKept(s: State, a: Action, e: Expiry)
    requires Fenced(s) && Enabled(s, a) && ExpiryOwned(s, e) && e.path in s.everPaths
    ensures ExpiryOwned(Apply(s, a), e)
  {
    forall o | Owns(Apply(s, a), o, e.path)
      ensures o == OfJob(e.job)
    {
      OwnersAfter(s, a, o, e.path);
    }
  }

  lemma ExpiryNamedKept(s: State, a: Action, e: Expiry)
    requires JobsOk(s) && Enabled(s, a) && e.job in s.everJobs && ExpiryNamed(s, e)
    ensures ExpiryNamed(Apply(s, a), e)
  {
    JobsStayGone(s, a, e.job);
    if e.job in Apply(s, a).jobs {
      JobsEvolve(s, a, e.job);
      if !s.jobs[e.job].status.Expired? {
        CompletedJobStays(s, a, e.job);
      }
    }
  }

  /** A COMPLETED job keeps its file name and expiry time until it is EXPIRED. */
  lemma CompletedJobStays(s: State, a: Action, id: JobId)
    requires Enabled(s, a) && id in s.jobs && id in Apply(s, a).jobs && id in s.everJobs && s.jobs[id].status.Completed?
    ensures Apply(s, a).jobs[id] == s.jobs[id] || Apply(s, a).jobs[id].status.Expired?
    ensures SeenExpired(s, s.jobs[id]) ==> SeenExpired(Apply(s, a), s.jobs[id])
  {
  }

  lemma DownloadsStoredKept(s: State, a: Action)
    requires FileInv(s) && Enabled(s, a)
    ensures DownloadsStored(Apply(s, a))
  {
    var t := Apply(s, a);
    JobsOkKept(s, a);
    forall id | id in t.jobs && t.jobs[id].status.Completed? && !SeenExpired(t, t.jobs[id])
      ensures t.jobs[id].storagePath.Some? && t.jobs[id].storagePath.value in t.files
    {
      assert JobShape(t.jobs[id]);
      DownloadStored(s, a, id, t.jobs[id].storagePath.value);
    }
  }

  lemma DownloadStored(s: State, a: Action, id: JobId, path: Path)
    requires FileInv(s) && Enabled(s, a) && Owns(Apply(s, a), OfJob(id), path)
    requires !SeenExpired(Apply(s, a), Apply(s, a).jobs[id])
    ensures path in Apply(s, a).files
  {
    JobOwnsAfter(s, a, id, path);
    assert path in s.files;
    if a.Discard? {
      assert Owns(s, OfRun(a.run), s.runs[a.run].phase.path);
    }
    if a.ExpiryDelete? {
      assert ExpiryOk(s, s.expiries[a.pass]);
    }
  }

  // ------------------------------------------------------------------------ main results

  lemma StepKeepsFileInv(s: State, a: Action)
    requires FileInv(s) && Enabled(s, a)
    ensures FileInv(Apply(s, a))
  {
    StepKeepsFence(s, a);
    OneOwnerKept(s, a);
    FilesOwnedKept(s, a);
    ExpiriesOkKept(s, a);
    DownloadsStoredKept(s, a);
  }

  lemma {:induction false} ReachableFileInv(ss: seq<State>, acts: seq<Action>, n: nat)
    requires IsRun(ss, acts) && Initial(ss[0]) && n < |ss|
    ensures FileInv(ss[n])
  {
    if n > 0 {
      ReachableFileInv(ss, acts, n - 1);
      assert Step(ss[n - 1], acts[n - 1], ss[n - 1 + 1]);
      StepKeepsFileInv(ss[n - 1], acts[n - 1]);
    }
  }

  /** Every stored file has exactly one owner, in every reachable state. */
  lemma EveryFileHasOneOwner(ss: seq<State>, acts: seq<Action>, n: nat, path: Path)
    requires IsRun(ss, acts) && Initial(ss[0]) && n < |ss| && path in ss[n].files
    ensures exists o :: Owns(ss[n], o, path) && forall o' :: Owns(ss[n], o', path) ==> o' == o
  {
    ReachableFileInv(ss, acts, n);
    var o :| Owns(ss[n], o, path);
    assert forall o' :: Owns(ss[n], o', path) ==> o' == o;
  }

  /** A COMPLETED job whose expiry no pass has seen yet still has its file. */
  lemma UnexpiredReportsAreStored(ss: seq<State>, acts: seq<Action>, n: nat, id: JobId)
    requires IsRun(ss, acts) && Initial(ss[0]) && n < |ss|
    requires id in ss[n].jobs && ss[n].jobs[id].status.Completed? && !SeenExpired(ss[n], ss[n].jobs[id])
    ensures ss[n].jobs[id].storagePath.Some? && ss[n].jobs[id].storagePath.value in ss[n].files
  {
    ReachableFileInv(ss, acts, n);
  }

  /** The steps at which a file is lost: a run stops while it holds one, or a storage or commit reply fails. */
  predicate LosesFile(s: State, a: Action)
    requires Enabled(s, a)
  {
    match a
    case StopRun(run) => HeldPath(s.runs[run].phase) != {}
    case Upload(_, _, replied) => !replied
    case Commit(run, _, _, applied, replied) => !replied && !(applied && Holds(s.jobs, s.runs[run]))
    case Discard(_, removed, _) => !removed
    case _ => false
  }

  /**
   * If every run that stores a file reaches its commit-or-delete step with an answer, nothing is lost:
   * each stored file belongs to one COMPLETED job or one live run.
   */
  lemma {:induction false} NothingLost(ss: seq<State>, acts: seq<Action>, n: nat)
    requires IsRun(ss, acts) && Initial(ss[0]) && n < |ss|
    requires forall i :: 0 <= i < n ==> Step(ss[i], acts[i], ss[i + 1]) && !LosesFile(ss[i], acts[i])
    ensures ss[n].lost == {}
    ensures forall path :: path in ss[n].files ==> exists o: Owner :: !o.Lost? && Owns(ss[n], o, path)
  {
    ReachableFileInv(ss, acts, n);
    if n > 0 {
      NothingLost(ss, acts, n - 1);
      assert Step(ss[n - 1], acts[n - 1], ss[n - 1 + 1]);
    }
    forall path | path in ss[n].files
      ensures exists o: Owner :: !o.Lost? && Owns(ss[n], o, path)
    {
      var o :| Owns(ss[n], o, path);
    }
  }

  // ----------------------------------------------------- storage that rejects a second delete

  /** An expired job whose file is already gone and that no pass is about to mark. */
  ghost predicate Stuck(s: State, id: JobId) {
    && !s.idempotentDelete && id in s.everJobs && id in s.jobs && s.jobs[id].status.Completed?
    && s.jobs[id].storagePath.Some? && s.jobs[id].storagePath.value in s.everPaths
    && s.jobs[id].storagePath.value !in s.files
    && forall pass :: pass in s.expiries && s.expiries[pass].job == id ==>
         !s.expiries[pass].deleted && s.expiries[pass].path == s.jobs[id].storagePath.value
  }

  /**
   * With storage that fails when asked to delete a missing file (local disk), a pass that deletes a
   * file and stops before marking its job leaves the job COMPLETED for good: no later pass gets past
   * the deletion.
   */
  lemma {:induction false} StuckForever(ss: seq<State>, acts: seq<Action>, n: nat, id: JobId)
    requires IsRun(ss, acts) && Stuck(ss[0], id) && n < |ss|
    ensures Stuck(ss[n], id)
  {
    if n > 0 {
      StuckForever(ss, acts, n - 1, id);
      assert Step(ss[n - 1], acts[n - 1], ss[n - 1 + 1]);
      StuckStep(ss[n - 1], acts[n - 1], id);
    }
  }

  lemma StuckStep(s: State, a: Action, id: JobId)
    requires Stuck(s, id) && Enabled(s, a)
    ensures Stuck(Apply(s, a), id)
  {
  }

  predicate IsExpired(s: State, id: JobId) {
    id in s.jobs && s.jobs[id].status.Expired?
  }

  /** Some continuation marks the job EXPIRED. */
  ghost predicate CanExpire(s: State, id: JobId) {
    exists ss: seq<State>, acts: seq<Action> :: IsRun(ss, acts) && ss[0] == s && IsExpired(ss[|acts|], id)
  }

  /** A pass has deleted the job's file and not marked the job yet. */
  ghost predicate DeletedFor(s: State, id: JobId) {
    exists pass :: pass in s.expiries && s.expiries[pass].job == id && s.expiries[pass].deleted
  }

  /**
   * A COMPLETED job can still become EXPIRED exactly when a pass is about to mark it, its file is still
   * stored, or deleting a missing file succeeds.
   */
  lemma CanExpireIff(s: State, id: JobId)
    requires FileInv(s) && id in s.jobs && s.jobs[id].status.Completed?
    ensures CanExpire(s, id) <==> DeletedFor(s, id) || s.jobs[id].storagePath.value in s.files || s.idempotentDelete
  {
    assert JobShape(s.jobs[id]);
    if DeletedFor(s, id) {
      var pass :| pass in s.expiries && s.expiries[pass].job == id && s.expiries[pass].deleted;
      MarkNow([s], [], pass, id);
    } else if s.jobs[id].storagePath.value in s.files || s.idempotentDelete {
      ExpireNow(s, id);
    } else {
      assert Owns(s, OfJob(id), s.jobs[id].storagePath.value);
      assert forall pass :: pass in s.expiries && s.expiries[pass].job == id ==> ExpiryOk(s, s.expiries[pass]);
      assert Stuck(s, id);
      forall ss: seq<State>, acts: seq<Action> | IsRun(ss, acts) && ss[0] == s
        ensures !IsExpired(ss[|acts|], id)
      {
        StuckForever(ss, acts, |acts|, id);
      }
    }
  }

  /** After any run, a pass that has deleted the file can mark the job. */
  lemma MarkNow(ss: seq<State>, acts: seq<Action>, pass: RunId, id: JobId)
    requires IsRun(ss, acts) && pass in ss[|acts|].expiries
    requires ss[|acts|].expiries[pass].deleted && ss[|acts|].expiries[pass].job == id
    requires id in ss[|acts|].jobs && ss[|acts|].jobs[id].status.Completed?
    ensures CanExpire(ss[0], id)
  {
    var mark := ExpiryMark(pass, 0, true);
    AppendStep(ss, acts, mark);
    var ss' := ss + [Apply(ss[|acts|], mark)];
    var acts' := acts + [mark];
    assert IsRun(ss', acts') && ss'[0] == ss[0] && IsExpired(ss'[|acts'|], id);
  }

  /** A new pass reads the job, deletes its file and marks it. */
  lemma ExpireNow(s: State, id: JobId)
    requires id in s.jobs && s.jobs[id].status.Completed? && JobShape(s.jobs[id])
    requires s.jobs[id].storagePath.value in s.files || s.idempotentDelete
    ensures CanExpire(s, id)
  {
    var pass := FreshPass(s.expiries.Keys);
    var read := ExpiryRead(pass, id, s.jobs[id].expiresAt.value);
    AppendStep([s], [], read);
    var mid := Apply(s, read);
    var delete := ExpiryDelete(pass, true, true);
    assert mid.expiries[pass] == Expiry(id, s.jobs[id].storagePath.value, false);
    AppendStep([s] + [mid], [] + [read], delete);
    var ss, acts := [s] + [mid] + [Apply(mid, delete)], [] + [read] + [delete];
    assert ss[|acts|] == Apply(mid, delete) && ss[0] == s;
    MarkNow(ss, acts, pass, id);
  }

  lemma FreshPass(used: set<RunId>) returns (pass: RunId)
    ensures pass !in used
    ensures forall other :: other in used ==> other.n < pass.n
    decreases |used|
  {
    if used == {} {
      pass := RunId("", 0);
    } else {
      var other :| other in used;
      var later := FreshPass(used - {other});
      pass := RunId("", later.n + other.n + 1);
    }
  }

  /**
   * When a pass that deleted a file stops before marking the job, the job can still become EXPIRED exactly
   * when deleting a missing file succeeds.
   */
  lemma StoppedPassBlocksUnlessIdempotent(s: State, pass: RunId)
    requires FileInv(s) && pass in s.expiries && s.expiries[pass].deleted
    requires s.expiries[pass].job in s.jobs && s.jobs[s.expiries[pass].job].status.Completed?
    requires forall p :: p in s.expiries && p != pass && s.expiries[p].job == s.expiries[pass].job ==>
               !s.expiries[p].deleted
    ensures CanExpire(Apply(s, ExpiryStop(pass)), s.expiries[pass].job) <==> s.idempotentDelete
  {
    assert ExpiryOk(s, s.expiries[pass]);
    StepKeepsFileInv(s, ExpiryStop(pass));
    CanExpireIff(Apply(s, ExpiryStop(pass)), s.expiries[pass].job);
  }

  // -------------------------------------------------- a run in which an expired job gets stuck

  const RUN := RunId("worker", 0)
  const PASS := RunId("worker", 1)

  /** A report is made; after its lifetime a pass deletes its file and stops. */
  function StoppedPass(): seq<Action> {
    [ Create("job", 0), Claim(RUN, "job", 0, 0, true), Upload(RUN, "file", true), Commit(RUN, 0, 0, true, true),
      Audit(RUN, true), ExpiryRead(PASS, "job", REPORT_LIFETIME_MS), ExpiryDelete(PASS, true, true), ExpiryStop(PASS) ]
  }

  const REPORT := Job(Completed, Some(0), Some("file"), Some(0), None, Some(REPORT_LIFETIME_MS), 0)

  /** The stopped pass after each of its steps, on storage that fails to delete a missing file. */
  function StoppedPassState(k: nat): State {
    var job := if k <= 1 then Job(Pending, None, None, None, None, None, 0)
               else if k <= 3 then Job(Running, Some(0), None, None, None, None, 0) else REPORT;
    var phase := if k == 2 then Working else if k == 3 then Uploaded("file") else Committed;
    State(false, if k == 0 then map[] else map["job" := job], if k == 0 then {} else {"job"},
          if 3 <= k <= 6 then {"file"} else {}, if k < 3 then {} else {"file"}, {},
          if 2 <= k <= 4 then map[RUN := Run("job", 0, phase)] else map[],
          if 6 <= k <= 7 then map[PASS := Expiry("job", "file", k == 7)] else map[],
          if k < 6 then None else Some(REPORT_LIFETIME_MS))
  }

  lemma ReportIsRunning()
    ensures forall k :: 0 <= k < 3 ==> Step(StoppedPassState(k), StoppedPass()[k], StoppedPassState(k + 1))
  {
    var acts := StoppedPass();
    assert Apply(StoppedPassState(0), acts[0]) == StoppedPassState(1);
    assert Apply(StoppedPassState(1), acts[1]) == StoppedPassState(2);
    assert Apply(StoppedPassState(2), acts[2]) == StoppedPassState(3);
  }

  lemma ReportIsMade()
    ensures forall k :: 3 <= k < 5 ==> Step(StoppedPassState(k), StoppedPass()[k], StoppedPassState(k + 1))
  {
    var acts := StoppedPass();
    assert Apply(StoppedPassState(3), acts[3]) == StoppedPassState(4);
    assert Apply(StoppedPassState(4), acts[4]) == StoppedPassState(5);
  }

  lemma FileIsDeleted()
    ensures forall k :: 5 <= k < 7 ==> Step(StoppedPassState(k), StoppedPass()[k], StoppedPassState(k + 1))
  {
    var acts := StoppedPass();
    assert Apply(StoppedPassState(5), acts[5]) == StoppedPassState(6);
    assert Apply(StoppedPassState(6), acts[6]) == StoppedPassState(7);
  }

  lemma PassStops()
    ensures Step(StoppedPassState(7), StoppedPass()[7], StoppedPassState(8))
  {
    assert Apply(StoppedPassState(7), StoppedPass()[7]) == StoppedPassState(8);
  }

  /** From an empty store, a stopped pass leads to a COMPLETED job that no continuation ever expires. */
  lemma StoppedPassIsReached()
    ensures exists ss: seq<State> ::
              && IsRun(ss, StoppedPass()) && Initial(ss[0])
              && "job" in ss[8].jobs && ss[8].jobs["job"].status.Completed? && !CanExpire(ss[8], "job")
  {
    ReportIsRunning();
    ReportIsMade();
    FileIsDeleted();
    PassStops();
    var ss := seq(9, k requires k >= 0 => StoppedPassState(k));
    forall k | 0 <= k < 8
      ensures Step(ss[k], StoppedPass()[k], ss[k + 1])
    {
      assert ss[k] == StoppedPassState(k) && ss[k + 1] == StoppedPassState(k + 1);
    }
    assert IsRun(ss, StoppedPass()) && ss[0] == StoppedPassState(0) && ss[8] == StoppedPassState(8);
    ReachableFileInv(ss, StoppedPass(), 8);
    CanExpireIff(ss[8], "job");
  }
}
