/**
 * How often and when a row is claimed: the attempt limit and exactly when it is exceeded, the count
 * of claims, the distance between two claims under a lease, and the backoff between attempts.
 */
module OutboxBounds {
  import opened Prelude
  import opened RetryBackoff
  import opened OutboxRows
  import opened OutboxProtocol
  import opened OutboxSafety

  // --------------------------------------------------------------- the attempt limit

  ghost predicate WithinLimit(row: Row) {
    && row.attempts <= row.maxAttempts
    && (row.status.Pending? || row.status.Failed? ==> row.attempts < row.maxAttempts)
  }

  ghost predicate Bounded(rows: Table) {
    forall id :: id in rows ==> WithinLimit(rows[id])
  }

  /**
   * What a caller can check before the step: a claim picks no row whose attempts are used up, and an
   * operator's retry is based on a read that leaves room for another attempt.
   */
  predicate Exact(s: State, a: Action)
    requires Enabled(s, a)
  {
    match a
    case Work(w, Claim(_, _, _, chosen, _)) =>
      forall id :: id in chosen ==> s.rows[id].attempts < s.rows[id].maxAttempts
    case RetryWrite(operator, grant, _) =>
      var (id, readAttempts) := s.pendingReads[operator];
      id in s.rows && Retryable(s.rows[id].status) ==> s.rows[id].attempts < readAttempts + grant
    case _ => true
  }

  lemma ClaimBound(rows: Table, chosen: seq<RowId>, w: WorkerId, now: int)
    requires Bounded(rows) && forall id :: id in chosen ==> id in rows
    ensures Bounded(ClaimRows(rows, chosen, w, now)) <==>
            forall id :: id in chosen ==> rows[id].attempts < rows[id].maxAttempts
  {
    var rows' := ClaimRows(rows, chosen, w, now);
    forall id | id in chosen
      ensures WithinLimit(rows'[id]) <==> rows[id].attempts < rows[id].maxAttempts
    {
    }
    if Bounded(rows') {
      forall id | id in chosen
        ensures rows[id].attempts < rows[id].maxAttempts
      {
        assert WithinLimit(rows'[id]);
      }
    }
  }

  lemma RetryBound(rows: Table, id: RowId, readAttempts: nat, grant: int, now: int)
    requires Bounded(rows)
    ensures Bounded(Retry(rows, id, readAttempts, grant, now)) <==>
            (id in rows && Retryable(rows[id].status) ==> rows[id].attempts < readAttempts + grant)
  {
    var rows' := Retry(rows, id, readAttempts, grant, now);
    if id in rows && Retryable(rows[id].status) {
      assert WithinLimit(rows'[id]) <==> rows[id].attempts < readAttempts + grant;
    }
  }

  lemma {:induction false} InsertMissingBound(rows: Table, batch: seq<(RowId, Event)>, now: int)
    requires Bounded(rows)
    ensures Bounded(InsertMissing(rows, batch, now))
    decreases |batch|
  {
    if batch != [] {
      var (id, event) := batch[0];
      var rows' := if id in rows || EventStored(rows, event.eventId) then rows
                   else rows[id := NewRow(event, DEFAULT_MAX_ATTEMPTS, None, now)];
      InsertMissingBound(rows', batch[1..], now);
    }
  }

  lemma FailBound(s: State, w: WorkerId, error: string, now: int)
    requires Agreement(s) && Bounded(s.rows)
    requires WorkerOf(s, w).Busy? && |WorkerOf(s, w).records| > 0
    ensures Bounded(MarkFailed(s.rows, WorkerOf(s, w).records[0], w, error, now))
  {
    assert CopyAgrees(s.rows, w, WorkerOf(s, w).records[0]);
  }

  /** One step keeps every row within its limit exactly when the step is exact. */
  lemma BoundKeptIffExact(s: State, a: Action)
    requires Agreement(s) && Bounded(s.rows) && Enabled(s, a)
    ensures Bounded(Apply(s, a).rows) <==> Exact(s, a)
  {
    match a
    case Work(w, Claim(now, _, _, chosen, _)) => ClaimBound(s.rows, chosen, w, now);
    case Work(w, Fail(error, now, _, _)) => FailBound(s, w, error, now);
    case Enqueue(batch, now) => InsertMissingBound(s.rows, batch, now);
    case RetryWrite(o, grant, now) => RetryBound(s.rows, s.pendingReads[o].0, s.pendingReads[o].1, grant, now);
    case _ =>
  }

  /** Over any run whose steps are exact, no row ever exceeds its limit. */
  lemma {:induction false} ExactRunsStayBounded(ss: seq<State>, acts: seq<Action>, n: nat)
    requires IsRun(ss, acts) && Inv(ss[0]) && Bounded(ss[0].rows) && n < |ss|
    requires forall i :: 0 <= i < n ==> Step(ss[i], acts[i], ss[i + 1]) && Exact(ss[i], acts[i])
    ensures Bounded(ss[n].rows)
  {
    if n > 0 {
      ExactRunsStayBounded(ss, acts, n - 1);
      RunKeepsInv(ss, acts, n - 1);
      assert Step(ss[n - 1], acts[n - 1], ss[n - 1 + 1]);
      BoundKeptIffExact(ss[n - 1], acts[n - 1]);
    }
  }

  /** A claim whose two statements read the same clock, with nothing between them, is exact. */
  lemma SweptClaimIsExact(rows: Table, now: int, leaseMs: int, skipLocked: set<RowId>, n: nat, chosen: seq<RowId>)
    requires Bounded(rows)
    requires var swept := SweepExhausted(rows, now, leaseMs);
             IsEarliest(swept, Candidates(swept, now, leaseMs, skipLocked), n, chosen)
    ensures var swept := SweepExhausted(rows, now, leaseMs);
            Bounded(swept) && forall id :: id in chosen ==> swept[id].attempts < swept[id].maxAttempts
  {
  }

  function SweptThenClaimed(rows: Table, sweepNow: int, claimNow: int, leaseMs: int, chosen: seq<RowId>, w: WorkerId)
    : Table
  {
    ClaimRows(SweepExhausted(rows, sweepNow, leaseMs), chosen, w, claimNow)
  }

  predicate LegalChoice(rows: Table, sweepNow: int, claimNow: int, leaseMs: int, skipLocked: set<RowId>, n: nat,
                        chosen: seq<RowId>)
  {
    var swept := SweepExhausted(rows, sweepNow, leaseMs);
    IsEarliest(swept, Candidates(swept, claimNow, leaseMs, skipLocked), n, chosen)
  }

  /** With these clock readings the two statements of a claim keep the limits of every table. */
  ghost predicate ReadingsSafe(sweepNow: int, claimNow: int, leaseMs: int, w: WorkerId) {
    forall rows: Table, skipLocked, n, chosen ::
      Bounded(rows) && LegalChoice(rows, sweepNow, claimNow, leaseMs, skipLocked, n, chosen)
      ==> Bounded(SweptThenClaimed(rows, sweepNow, claimNow, leaseMs, chosen, w))
  }

  /** A claim is safe whatever the table holds exactly when its second statement reads no later time than its first. */
  lemma ReadingsSafeIff(sweepNow: int, claimNow: int, leaseMs: int, w: WorkerId)
    ensures ReadingsSafe(sweepNow, claimNow, leaseMs, w) <==> claimNow <= sweepNow
  {
    if claimNow <= sweepNow {
      forall rows: Table, skipLocked, n, chosen |
        Bounded(rows) && LegalChoice(rows, sweepNow, claimNow, leaseMs, skipLocked, n, chosen)
        ensures Bounded(SweptThenClaimed(rows, sweepNow, claimNow, leaseMs, chosen, w))
      {
        ClaimBound(SweepExhausted(rows, sweepNow, leaseMs), chosen, w, claimNow);
      }
    } else {
      // claimed for the last time exactly one lease before the sweep reads the clock
      var row := NewRow(Event("event", "type", 0, ""), 1, None, 0).(
        status := Processing, attempts := 1, lockedAt := Some(sweepNow - leaseMs), lockedBy := Some(w));
      var rows: Table := map["row" := row];
      assert SweepExhausted(rows, sweepNow, leaseMs) == rows;
      assert Candidates(rows, claimNow, leaseMs, {}) == {"row"};
      assert LegalChoice(rows, sweepNow, claimNow, leaseMs, {}, 1, ["row"]);
      ClaimBound(rows, ["row"], w, claimNow);
    }
  }

  /** A retry that uses the row's current attempt count is exact. */
  lemma FreshRetryIsExact(s: State, operator: string, grant: int, now: int)
    requires Enabled(s, RetryWrite(operator, grant, now))
    requires var (id, n) := s.pendingReads[operator]; id in s.rows ==> s.rows[id].attempts == n
    ensures Exact(s, RetryWrite(operator, grant, now))
  {
  }

  /**
   * Both statements of every claim read one clock with nothing between them, and so do an operator's read and
   * write.
   */
  ghost predicate Paired(acts: seq<Action>) {
    forall i :: 0 <= i < |acts| ==> PairedAt(acts, i)
  }

  predicate PairedAt(acts: seq<Action>, i: nat)
    requires i < |acts|
  {
    && (acts[i].Work? && acts[i].step.Claim? ==> i > 0 && SweptJustBefore(acts[i - 1], acts[i]))
    && (acts[i].RetryWrite? ==> i > 0 && acts[i - 1].RetryRead? && acts[i - 1].operator == acts[i].operator)
  }

  predicate SweptJustBefore(sweep: Action, claim: Action)
    requires claim.Work? && claim.step.Claim?
  {
    sweep.Work? && sweep.step.Sweep? && sweep.worker == claim.worker && sweep.step.now == claim.step.now
  }

  lemma PairedClaimIsExact(s: State, sweep: Action, claim: Action)
    requires Bounded(s.rows) && claim.Work? && claim.step.Claim? && SweptJustBefore(sweep, claim)
    requires Enabled(s, sweep) && Enabled(Apply(s, sweep), claim)
    ensures Exact(Apply(s, sweep), claim)
  {
    var c := claim.step;
    SweptClaimIsExact(s.rows, c.now, sweep.step.leaseMs, c.skipLocked, c.size, c.chosen);
  }

  lemma PairedStepIsExact(ss: seq<State>, acts: seq<Action>, m: nat)
    requires IsRun(ss, acts) && Paired(acts) && m < |acts| && (m > 0 ==> Bounded(ss[m - 1].rows))
    ensures Step(ss[m], acts[m], ss[m + 1]) && Exact(ss[m], acts[m])
  {
    assert Step(ss[m], acts[m], ss[m + 1]) && PairedAt(acts, m);
    if m > 0 {
      assert Step(ss[m - 1], acts[m - 1], ss[m - 1 + 1]);
      if acts[m].Work? && acts[m].step.Claim? {
        PairedClaimIsExact(ss[m - 1], acts[m - 1], acts[m]);
      } else if acts[m].RetryWrite? {
        FreshRetryIsExact(ss[m], acts[m].operator, acts[m].grant, acts[m].now);
      }
    }
  }

  /** In every run from an empty table whose claims and retries are paired, every step is exact. */
  lemma {:induction false} PairedRunsAreExact(ss: seq<State>, acts: seq<Action>, n: nat)
    requires IsRun(ss, acts) && Initial(ss[0]) && Paired(acts) && n < |ss|
    ensures forall k :: 0 <= k <= n ==> Bounded(ss[k].rows)
    ensures forall i :: 0 <= i < n ==> Step(ss[i], acts[i], ss[i + 1]) && Exact(ss[i], acts[i])
  {
    if n > 0 {
      var m := n - 1;
      PairedRunsAreExact(ss, acts, m);
      PairedStepIsExact(ss, acts, m);
      assert Agreement(ss[m]) by {
        ReachableStatesAreSafe(ss, acts, m);
      }
      BoundKeptIffExact(ss[m], acts[m]);
    }
  }

  // ------------------------------------------------------------- counting the claims

  predicate Claims(a: Action, id: RowId) {
    a.Work? && a.step.Claim? && id in a.step.chosen
  }

  function ClaimCount(acts: seq<Action>, id: RowId): nat {
    if acts == [] then 0
    else ClaimCount(acts[..|acts| - 1], id) + (if Claims(acts[|acts| - 1], id) then 1 else 0)
  }

  /** The write of an operator's retry of this row. */
  predicate Retries(s: State, a: Action, id: RowId) {
    a.RetryWrite? && a.operator in s.pendingReads && s.pendingReads[a.operator].0 == id
  }

  /** What one step does to the counters of one row that survives it. */
  lemma CountersAfterStep(s: State, a: Action, id: RowId)
    requires Enabled(s, a) && id in s.rows && id in RowsAfter(s, a)
    ensures RowsAfter(s, a)[id].attempts == s.rows[id].attempts + (if Claims(a, id) then 1 else 0)
    ensures !Retries(s, a, id) ==> RowsAfter(s, a)[id].maxAttempts == s.rows[id].maxAttempts
  {
    match a
    case Enqueue(batch, now) => InsertedStay(s.rows, batch, now);
    case _ =>
  }

  /** Conservation: a row's attempt counter advances by exactly the number of claims it received. */
  lemma {:induction false} AttemptsCountClaims(ss: seq<State>, acts: seq<Action>, n: nat, id: RowId)
    requires IsRun(ss, acts) && n < |ss|
    requires forall k :: 0 <= k <= n ==> id in ss[k].rows
    ensures ss[n].rows[id].attempts == ss[0].rows[id].attempts + ClaimCount(acts[..n], id)
    ensures (forall k :: 0 <= k < n ==> !Retries(ss[k], acts[k], id)) ==>
              ss[n].rows[id].maxAttempts == ss[0].rows[id].maxAttempts
  {
    if n > 0 {
      AttemptsCountClaims(ss, acts, n - 1, id);
      assert Step(ss[n - 1], acts[n - 1], ss[n - 1 + 1]);
      CountersAfterStep(ss[n - 1], acts[n - 1], id);
      assert acts[..n][..n - 1] == acts[..n - 1];
    }
  }

  /** Without operator retries of it a row is claimed at most as often as its remaining attempts allow. */
  lemma ClaimsPerRowBounded(ss: seq<State>, acts: seq<Action>, n: nat, id: RowId)
    requires IsRun(ss, acts) && Inv(ss[0]) && Bounded(ss[0].rows) && n < |ss|
    requires forall i :: 0 <= i < n ==> Step(ss[i], acts[i], ss[i + 1]) && Exact(ss[i], acts[i])
    requires forall k :: 0 <= k < n ==> !Retries(ss[k], acts[k], id)
    requires forall k :: 0 <= k <= n ==> id in ss[k].rows
    ensures ClaimCount(acts[..n], id) <= ss[0].rows[id].maxAttempts - ss[0].rows[id].attempts
  {
    ExactRunsStayBounded(ss, acts, n);
    AttemptsCountClaims(ss, acts, n, id);
    assert WithinLimit(ss[n].rows[id]);
  }

  // ------------------------------------------------------- when an operator's read is too old

  lemma AttemptsBetween(ss: seq<State>, acts: seq<Action>, i: nat, j: nat, id: RowId)
    requires IsRun(ss, acts) && i <= j < |ss| && forall k :: i <= k <= j ==> id in ss[k].rows
    ensures ss[j].rows[id].attempts == ss[i].rows[id].attempts + ClaimCount(acts[i..j], id)
  {
    var attempts := seq(|ss|, k requires 0 <= k < |ss| => if id in ss[k].rows then ss[k].rows[id].attempts else 0);
    forall k | i <= k < j
      ensures attempts[k + 1] == attempts[k] + (if Claims(acts[k], id) then 1 else 0)
    {
      AttemptsInStep(ss, acts, k, id);
    }
    ClaimCountSums(attempts, acts, i, j, id);
  }

  lemma {:induction false} ClaimCountSums(attempts: seq<nat>, acts: seq<Action>, i: nat, j: nat, id: RowId)
    requires i <= j < |attempts| && j <= |acts|
    requires forall k :: i <= k < j ==> attempts[k + 1] == attempts[k] + (if Claims(acts[k], id) then 1 else 0)
    ensures attempts[j] == attempts[i] + ClaimCount(acts[i..j], id)
    decreases j - i
  {
    if i < j {
      ClaimCountSums(attempts, acts, i, j - 1, id);
      ClaimCountTo(acts, i, j, id);
      assert attempts[j - 1 + 1] == attempts[j - 1] + (if Claims(acts[j - 1], id) then 1 else 0);
    }
  }

  lemma AttemptsInStep(ss: seq<State>, acts: seq<Action>, k: nat, id: RowId)
    requires IsRun(ss, acts) && k < |acts| && id in ss[k].rows && id in ss[k + 1].rows
    ensures ss[k + 1].rows[id].attempts == ss[k].rows[id].attempts + (if Claims(acts[k], id) then 1 else 0)
  {
    assert Step(ss[k], acts[k], ss[k + 1]);
    CountersAfterStep(ss[k], acts[k], id);
  }

  lemma ClaimCountTo(acts: seq<Action>, i: nat, j: nat, id: RowId)
    requires i < j <= |acts|
    ensures ClaimCount(acts[i..j], id) == ClaimCount(acts[i..j - 1], id) + (if Claims(acts[j - 1], id) then 1 else 0)
  {
    assert acts[i..j][..j - 1 - i] == acts[i..j - 1];
  }

  /** Between its read and its write the operator neither reads nor writes again. */
  ghost predicate ReadKept(acts: seq<Action>, i: nat, j: nat, operator: string)
    requires i < j <= |acts|
  {
    forall k :: i < k < j ==>
      !(acts[k].RetryRead? && acts[k].operator == operator) && !(acts[k].RetryWrite? && acts[k].operator == operator)
  }

  lemma {:induction false} PendingReadStays(ss: seq<State>, acts: seq<Action>, i: nat, j: nat)
    requires IsRun(ss, acts) && i < j < |ss| && acts[i].RetryRead? && ReadKept(acts, i, j, acts[i].operator)
    ensures acts[i].id in ss[i].rows
    ensures acts[i].operator in ss[j].pendingReads
    ensures ss[j].pendingReads[acts[i].operator] == (acts[i].id, ss[i].rows[acts[i].id].attempts)
    decreases j - i
  {
    assert Step(ss[i], acts[i], ss[i + 1]);
    if i + 1 < j {
      PendingReadStays(ss, acts, i, j - 1);
      assert Step(ss[j - 1], acts[j - 1], ss[j - 1 + 1]);
    }
  }

  /**
   * The write of a retry leaves its row an attempt exactly when fewer claims of the row than granted attempts
   * came between the operator's read and write.
   */
  lemma RetryExactIff(ss: seq<State>, acts: seq<Action>, i: nat, j: nat, id: RowId)
    requires IsRun(ss, acts) && i < j < |acts| && acts[i].RetryRead? && acts[i].id == id
    requires acts[j].RetryWrite? && acts[j].operator == acts[i].operator && ReadKept(acts, i, j, acts[i].operator)
    requires forall k :: i <= k <= j ==> id in ss[k].rows
    requires Retryable(ss[j].rows[id].status)
    ensures Step(ss[j], acts[j], ss[j + 1])
    ensures Exact(ss[j], acts[j]) <==> ClaimCount(acts[i..j], id) < acts[j].grant
    ensures WithinLimit(ss[j + 1].rows[id]) <==> ClaimCount(acts[i..j], id) < acts[j].grant
  {
    assert Step(ss[j], acts[j], ss[j + 1]);
    PendingReadStays(ss, acts, i, j);
    AttemptsBetween(ss, acts, i, j, id);
  }

  function Measure(row: Row): int {
    2 * (row.maxAttempts - row.attempts) + (if row.status.Processing? then 1 else 0)
  }

  /** Every worker statement that touches a row lowers its measure, which stays non-negative. */
  lemma WorkerStepsLowerMeasure(s: State, a: Action, id: RowId)
    requires Inv(s) && Bounded(s.rows) && Enabled(s, a) && Exact(s, a) && a.Work?
    requires id in s.rows && RowsAfter(s, a)[id] != s.rows[id]
    ensures 0 <= Measure(RowsAfter(s, a)[id]) < Measure(s.rows[id])
  {
    BoundKeptIffExact(s, a);
    assert WithinLimit(RowsAfter(s, a)[id]);
    assert WithinLimit(s.rows[id]);
    CountersAfterStep(s, a, id);
  }

  // ------------------------------------------------------------------ leases in time

  /** No operator statement touches a row a worker holds. */
  lemma OperatorsLeaveHeldRows(s: State, a: Action, id: RowId)
    requires Enabled(s, a) && !a.Work? && id in s.rows && s.rows[id].status.Processing?
    ensures id in RowsAfter(s, a) && RowsAfter(s, a)[id] == s.rows[id]
  {
    match a
    case Enqueue(batch, now) => InsertedStay(s.rows, batch, now);
    case _ =>
  }

  lemma HeldRowKeepsLockTime(s: State, a: Action, id: RowId)
    requires Enabled(s, a) && id in s.rows && s.rows[id].status.Processing?
    requires id in RowsAfter(s, a) && RowsAfter(s, a)[id].status.Processing? && !Claims(a, id)
    ensures RowsAfter(s, a)[id].lockedAt == s.rows[id].lockedAt
  {
    if !a.Work? {
      OperatorsLeaveHeldRows(s, a, id);
    }
  }

  ghost predicate HeldThroughout(ss: seq<State>, id: RowId, lo: nat, hi: nat)
    requires hi < |ss|
  {
    forall k :: lo <= k <= hi ==> id in ss[k].rows && ss[k].rows[id].status.Processing?
  }

  lemma {:induction false} LockTimeIsClaimTime(ss: seq<State>, acts: seq<Action>, i: nat, k: nat, id: RowId)
    requires IsRun(ss, acts) && i < k < |ss| && Claims(acts[i], id)
    requires HeldThroughout(ss, id, i + 1, k)
    requires forall m :: i < m < k ==> !Claims(acts[m], id)
    ensures ss[k].rows[id].lockedAt == Some(acts[i].step.now)
  {
    assert Step(ss[k - 1], acts[k - 1], ss[k - 1 + 1]);
    if k > i + 1 {
      LockTimeIsClaimTime(ss, acts, i, k - 1, id);
      HeldRowKeepsLockTime(ss[k - 1], acts[k - 1], id);
    }
  }

  /**
   * Two consecutive claims of a row that was neither acknowledged nor dead-lettered in between are
   * more than the (second claim's) lease apart, by the database clock.
   */
  lemma ClaimsAreALeaseApart(ss: seq<State>, acts: seq<Action>, i: nat, j: nat, id: RowId)
    requires IsRun(ss, acts) && i < j < |acts| && Claims(acts[i], id) && Claims(acts[j], id)
    requires HeldThroughout(ss, id, i + 1, j)
    requires forall m :: i < m < j ==> !Claims(acts[m], id)
    ensures Enabled(ss[j], acts[j]) && WorkerOf(ss[j], acts[j].worker).Claiming?
    ensures acts[j].step.now - acts[i].step.now > WorkerOf(ss[j], acts[j].worker).leaseMs
  {
    LockTimeIsClaimTime(ss, acts, i, j, id);
    assert Step(ss[j], acts[j], ss[j + 1]);
    assert id in acts[j].step.chosen;
  }

  /** A lease is recorded exactly on PROCESSING rows, in every reachable state. */
  lemma LeaseIffProcessing(ss: seq<State>, acts: seq<Action>, n: nat, id: RowId)
    requires IsRun(ss, acts) && Initial(ss[0]) && n < |ss| && id in ss[n].rows
    ensures ss[n].rows[id].lockedBy.Some? <==> ss[n].rows[id].status.Processing?
    ensures ss[n].rows[id].lockedAt.Some? <==> ss[n].rows[id].status.Processing?
  {
    ReachableStatesAreSafe(ss, acts, n);
  }

  lemma FailedRowIsFrozen(s: State, a: Action, id: RowId)
    requires Enabled(s, a) && id in s.rows && s.rows[id].status.Failed?
    requires id in RowsAfter(s, a) && RowsAfter(s, a)[id].status.Failed?
    ensures RowsAfter(s, a)[id] == s.rows[id]
  {
    match a
    case Enqueue(batch, now) => InsertedStay(s.rows, batch, now);
    case _ =>
  }

  /** The row stays FAILED in every state from `lo` to `hi` (no operator intervened). */
  ghost predicate FailedThroughout(ss: seq<State>, id: RowId, lo: nat, hi: nat)
    requires hi < |ss|
  {
    forall k :: lo <= k <= hi ==> id in ss[k].rows && ss[k].rows[id].status.Failed?
  }

  lemma {:induction false} FailedRowUnchanged(ss: seq<State>, acts: seq<Action>, i: nat, k: nat, id: RowId)
    requires IsRun(ss, acts) && i <= k < |ss| && FailedThroughout(ss, id, i, k)
    ensures ss[k].rows[id] == ss[i].rows[id]
  {
    if k > i {
      FailedRowUnchanged(ss, acts, i, k - 1, id);
      assert Step(ss[k - 1], acts[k - 1], ss[k - 1 + 1]);
      FailedRowIsFrozen(ss[k - 1], acts[k - 1], id);
    }
  }

  /**
   * Backoff is honoured: after a failure report at time t for attempt number n, the next claim of a
   * row no operator touched happens no earlier than t plus the delay for attempt n.
   */
  lemma BackoffIsHonoured(ss: seq<State>, acts: seq<Action>, i: nat, j: nat, id: RowId)
    requires IsRun(ss, acts) && Initial(ss[0]) && i < j < |acts|
    requires acts[i].Work? && acts[i].step.Fail? && id in ss[i].rows && ss[i].rows[id].status.Processing?
    requires FailedThroughout(ss, id, i + 1, j) && Claims(acts[j], id)
    ensures acts[j].step.now >= acts[i].step.now + RetryDelayMs(ss[i].rows[id].attempts)
  {
    assert Step(ss[i], acts[i], ss[i + 1]);
    assert Step(ss[j], acts[j], ss[j + 1]);
    ReportsActOnCurrentClaim(ss, acts, i);
    FailedRowUnchanged(ss, acts, i + 1, j, id);
    assert id in acts[j].step.chosen;
  }

  /**
   * The backoff is exact: after a failure report at time t for attempt number n, a claim with room left and no lock
   * in its way takes the row that no operator touched if and only if t plus the delay for attempt n has come.
   */
  lemma BackoffEnds(ss: seq<State>, acts: seq<Action>, i: nat, j: nat, id: RowId)
    requires IsRun(ss, acts) && Initial(ss[0]) && i < j < |acts|
    requires acts[i].Work? && acts[i].step.Fail? && id in ss[i].rows && ss[i].rows[id].status.Processing?
    requires FailedThroughout(ss, id, i + 1, j)
    requires acts[j].Work? && acts[j].step.Claim? && |acts[j].step.chosen| < acts[j].step.size
    requires id !in acts[j].step.skipLocked
    ensures id in acts[j].step.chosen <==>
            acts[j].step.now >= acts[i].step.now + RetryDelayMs(ss[i].rows[id].attempts)
    ensures id in acts[j].step.chosen ==> id in ss[j + 1].rows && ss[j + 1].rows[id].lockedBy == Some(acts[j].worker)
  {
    assert Step(ss[i], acts[i], ss[i + 1]);
    assert Step(ss[j], acts[j], ss[j + 1]);
    ReportsActOnCurrentClaim(ss, acts, i);
    FailedRowUnchanged(ss, acts, i + 1, j, id);
  }

  /** PROCESSED and CANCELLED are final: such a row is never changed, only deleted. */
  lemma FinishedRowsAreFinal(s: State, a: Action, id: RowId)
    requires Enabled(s, a) && id in s.rows && (s.rows[id].status.Processed? || s.rows[id].status.Cancelled?)
    requires id in RowsAfter(s, a)
    ensures RowsAfter(s, a)[id] == s.rows[id]
  {
    match a
    case Enqueue(batch, now) => InsertedStay(s.rows, batch, now);
    case _ =>
  }
}
