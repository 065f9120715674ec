/** Runs from the empty table in which two promises of the outbox fail. */
module OutboxExamples {
  import opened Prelude
  import opened OutboxRows
  import opened RetryBackoff
  import opened OutboxProtocol
  import opened OutboxBounds
  import opened OutboxBudget
  import opened OutboxOverlap

  function Empty(handlers: map<string, nat>): State {
    State(handlers, map[], map[], map[], {}, multiset{}, multiset{}, multiset{})
  }

  lemma Assemble(acts: seq<Action>, f: nat -> State) returns (ss: seq<State>)
    requires forall k :: 0 <= k < |acts| ==> Step(f(k), acts[k], f(k + 1))
    ensures IsRun(ss, acts) && forall k :: 0 <= k <= |acts| ==> ss[k] == f(k)
  {
    ss := seq(|acts| + 1, k requires 0 <= k <= |acts| => f(k));
    forall k | 0 <= k < |acts|
      ensures Step(ss[k], acts[k], ss[k + 1])
    {
      assert ss[k] == f(k) && ss[k + 1] == f(k + 1);
    }
  }

  // ------------------------------------------------------------------ overlapping deliveries

  /** Two workers deliver one event: the first one's lease runs out while its handler is running. */
  function Overlap(): seq<Action> {
    [ Enqueue([("row", EXAMPLE)], 0),
      Work("a", Sweep(0, LEASE)), Work("a", Claim(0, {}, 1, ["row"], true)),
      Work("a", Begin), Work("a", Check(0, true)),
      Work("b", Sweep(LEASE + 1, LEASE)), Work("b", Claim(LEASE + 1, {}, 1, ["row"], true)),
      Work("b", Begin), Work("b", Check(0, true)),
      Work("a", Run(0, true)), Work("b", Run(0, true)) ]
  }

  const HANDLER := HandlerRun("event-1", "TICKET_CREATED", 0)

  function Copy(attempts: nat): Record {
    Record("row", EXAMPLE, attempts, DEFAULT_MAX_ATTEMPTS)
  }

  function Claimed(worker: WorkerId, attempts: nat, now: int): Row {
    NewRow(EXAMPLE, DEFAULT_MAX_ATTEMPTS, None, 0).(
      status := Processing, attempts := attempts, lockedAt := Some(now), lockedBy := Some(worker), updatedAt := now)
  }

  /** A worker `k` steps into its claim and delivery. */
  function Delivery(k: nat, attempts: nat, completed: bool): Worker {
    if k == 0 then Claiming(LEASE)
    else
      Busy([Copy(attempts)],
           if k == 1 then Ready else Publishing([if k == 2 then Queued else if completed then Ran else Running]))
  }

  function OverlapState(k: nat): State {
    var row := if k <= 2 then NewRow(EXAMPLE, DEFAULT_MAX_ATTEMPTS, None, 0)
               else if k <= 6 then Claimed("a", 1, 0) else Claimed("b", 2, LEASE + 1);
    var runs := if k < 10 then multiset{} else if k == 10 then multiset{HANDLER} else multiset{HANDLER, HANDLER};
    Empty(map["TICKET_CREATED" := 1]).(
      rows := if k == 0 then map[] else map["row" := row],
      workers := if k <= 1 then map[]
                 else if k <= 5 then map["a" := Delivery(k - 2, 1, false)]
                 else map["a" := Delivery(3, 1, k >= 10), "b" := Delivery(k - 6, 2, k >= 11)],
      completed := runs)
  }

  lemma Enqueued()
    ensures forall k :: 0 <= k < 1 ==> Step(OverlapState(k), Overlap()[k], OverlapState(k + 1))
  {
    assert InsertMissing(OverlapState(1).rows, [], 0) == OverlapState(1).rows;
    assert InsertMissing(map[], [("row", EXAMPLE)], 0) == OverlapState(1).rows;
    assert Apply(OverlapState(0), Overlap()[0]).rows == OverlapState(1).rows;
  }

  /** A worker step leads to a state that agrees with its effects. */
  lemma WorkerStepLeads(s: State, a: Action, t: State, next: Worker)
    requires a.Work? && Enabled(s, a)
    requires WorkerNext(s, a.worker, a.step) == next && WorkerRows(s, a.worker, a.step) == t.rows
    requires s.workers[a.worker := next] == t.workers
    requires WorkerEffects(s, a.worker, a.step) == Effects(t.ledger, t.completed, t.unmarked, t.marked)
    requires t.handlers == s.handlers && t.pendingReads == s.pendingReads
    ensures Step(s, a, t)
  {
  }

  lemma FirstSweep()
    ensures Step(OverlapState(1), Overlap()[1], OverlapState(2))
  {
    var s, t := OverlapState(1), OverlapState(2);
    assert SweepExhausted(s.rows, 0, LEASE) == t.rows && s.workers["a" := Claiming(LEASE)] == t.workers;
    WorkerStepLeads(s, Overlap()[1], t, Claiming(LEASE));
  }

  lemma FirstClaim()
    ensures Step(OverlapState(2), Overlap()[2], OverlapState(3))
  {
    var s, t := OverlapState(2), OverlapState(3);
    assert Candidates(s.rows, 0, LEASE, {}) == {"row"};
    assert ClaimRows(s.rows, ["row"], "a", 0) == t.rows;
    assert RecordsOf(t.rows, ["row"]) == [Copy(1)];
    assert s.workers["a" := Delivery(1, 1, false)] == t.workers;
    WorkerStepLeads(s, Overlap()[2], t, Delivery(1, 1, false));
  }

  lemma FirstBegin()
    ensures Step(OverlapState(3), Overlap()[3], OverlapState(4))
  {
    var s, t := OverlapState(3), OverlapState(4);
    assert WorkerNext(s, "a", Begin).phase.hs == [Queued];
    assert s.workers["a" := Delivery(2, 1, false)] == t.workers;
    WorkerStepLeads(s, Overlap()[3], t, Delivery(2, 1, false));
  }

  lemma FirstCheck()
    ensures Step(OverlapState(4), Overlap()[4], OverlapState(5))
  {
    var s, t := OverlapState(4), OverlapState(5);
    assert WorkerNext(s, "a", Check(0, true)).phase.hs == [Running];
    assert s.workers["a" := Delivery(3, 1, false)] == t.workers;
    WorkerStepLeads(s, Overlap()[4], t, Delivery(3, 1, false));
  }

  lemma SecondSweep()
    ensures Step(OverlapState(5), Overlap()[5], OverlapState(6))
  {
    var s, t := OverlapState(5), OverlapState(6);
    assert SweepExhausted(s.rows, LEASE + 1, LEASE) == t.rows && s.workers["b" := Claiming(LEASE)] == t.workers;
    WorkerStepLeads(s, Overlap()[5], t, Claiming(LEASE));
  }

  lemma SecondClaim()
    ensures Step(OverlapState(6), Overlap()[6], OverlapState(7))
  {
    var s, t := OverlapState(6), OverlapState(7);
    assert Candidates(s.rows, LEASE + 1, LEASE, {}) == {"row"};
    assert ClaimRows(s.rows, ["row"], "b", LEASE + 1) == t.rows;
    assert RecordsOf(t.rows, ["row"]) == [Copy(2)];
    assert s.workers["b" := Delivery(1, 2, false)] == t.workers;
    WorkerStepLeads(s, Overlap()[6], t, Delivery(1, 2, false));
  }

  lemma SecondBegin()
    ensures Step(OverlapState(7), Overlap()[7], OverlapState(8))
  {
    var s, t := OverlapState(7), OverlapState(8);
    assert WorkerNext(s, "b", Begin).phase.hs == [Queued];
    assert s.workers["b" := Delivery(2, 2, false)] == t.workers;
    WorkerStepLeads(s, Overlap()[7], t, Delivery(2, 2, false));
  }

  lemma SecondCheck()
    ensures Step(OverlapState(8), Overlap()[8], OverlapState(9))
  {
    var s, t := OverlapState(8), OverlapState(9);
    assert WorkerNext(s, "b", Check(0, true)).phase.hs == [Running];
    assert s.workers["b" := Delivery(3, 2, false)] == t.workers;
    WorkerStepLeads(s, Overlap()[8], t, Delivery(3, 2, false));
  }

  lemma FirstCompletes()
    ensures Step(OverlapState(9), Overlap()[9], OverlapState(10))
  {
    var s, t := OverlapState(9), OverlapState(10);
    assert WorkerNext(s, "a", Run(0, true)).phase.hs == [Ran];
    assert s.workers["a" := Delivery(3, 1, true)] == t.workers;
    assert s.completed + multiset{HANDLER} == t.completed;
    WorkerStepLeads(s, Overlap()[9], t, Delivery(3, 1, true));
  }

  lemma SecondCompletes()
    ensures Step(OverlapState(10), Overlap()[10], OverlapState(11))
  {
    var s, t := OverlapState(10), OverlapState(11);
    assert WorkerNext(s, "b", Run(0, true)).phase.hs == [Ran];
    assert s.workers["b" := Delivery(3, 2, true)] == t.workers;
    assert s.completed + multiset{HANDLER} == t.completed;
    WorkerStepLeads(s, Overlap()[10], t, Delivery(3, 2, true));
  }

  lemma OverlapSteps(k: nat)
    requires k < 11
    ensures Step(OverlapState(k), Overlap()[k], OverlapState(k + 1))
  {
    if k == 0 {
      Enqueued();
    } else if k == 1 {
      FirstSweep();
    } else if k == 2 {
      FirstClaim();
    } else if k == 3 {
      FirstBegin();
    } else if k == 4 {
      FirstCheck();
    } else if k == 5 {
      SecondSweep();
    } else if k == 6 {
      SecondClaim();
    } else if k == 7 {
      SecondBegin();
    } else if k == 8 {
      SecondCheck();
    } else if k == 9 {
      FirstCompletes();
    } else {
      SecondCompletes();
    }
  }

  lemma OverlapEnds()
    ensures |Overlap()| == 11 && Initial(OverlapState(0))
    ensures var s := OverlapState(11);
            s.completed[HANDLER] == 2 && s.unmarked == multiset{} && !Within(s, HANDLER)
  {
  }

  /** In a run from the empty table a handler completes one event twice although no recording failed. */
  lemma OverlappingDeliveriesRepeatHandler()
    ensures exists ss: seq<State> ::
              && IsRun(ss, Overlap()) && Initial(ss[0]) && |ss| == 12
              && ss[11].completed[HANDLER] == 2 && ss[11].unmarked == multiset{} && !Within(ss[11], HANDLER)
  {
    OverlapEnds();
    forall k | 0 <= k < |Overlap()|
      ensures Step(OverlapState(k), Overlap()[k], OverlapState(k + 1))
    {
      OverlapSteps(k);
    }
    var ss := Assemble(Overlap(), OverlapState);
    assert ss[0] == OverlapState(0) && ss[11] == OverlapState(11);
  }

  // ------------------------------------------------------------------------- a stale retry

  /** An operator reads a new row; it is claimed and fails once; the operator then grants one attempt. */
  function StaleRetry(): seq<Action> {
    [ Enqueue([("row", EXAMPLE)], 0), RetryRead("operator", "row"),
      Work("a", Sweep(0, LEASE)), Work("a", Claim(0, {}, 1, ["row"], true)), Work("a", Begin), Work("a", Settle),
      Work("a", Ack(0, false, false)), Work("a", Fail("unreachable", 0, true, true)), RetryWrite("operator", 1, 0) ]
  }

  const FAILED_ONCE: Row := NewRow(EXAMPLE, DEFAULT_MAX_ATTEMPTS, None, 0).(
    status := Failed, attempts := 1, failedAt := Some(0), availableAt := RetryDelayMs(1))

  function StaleState(k: nat): State {
    var row := if k <= 3 then NewRow(EXAMPLE, DEFAULT_MAX_ATTEMPTS, None, 0) else if k <= 7 then Claimed("a", 1, 0)
               else if k == 8 then FAILED_ONCE
               else FAILED_ONCE.(status := Pending, availableAt := 0, maxAttempts := 1, deadLetterReason := None,
                                 failedAt := None);
    var phase := if k == 5 then Publishing([]) else if k == 6 then Delivered else if k == 7 then Undelivered else Ready;
    Empty(map[]).(
      rows := if k == 0 then map[] else map["row" := row],
      pendingReads := if 2 <= k <= 8 then map["operator" := ("row", 0)] else map[],
      workers := if k <= 2 then map[]
                 else map["a" := if k == 3 then Claiming(LEASE) else Busy(if k <= 7 then [Copy(1)] else [], phase)])
  }

  lemma StaleReadAndSweep()
    ensures forall k :: 0 <= k < 3 ==> Step(StaleState(k), StaleRetry()[k], StaleState(k + 1))
  {
    var acts := StaleRetry();
    assert InsertMissing(StaleState(1).rows, [], 0) == StaleState(1).rows;
    assert InsertMissing(map[], [("row", EXAMPLE)], 0) == StaleState(1).rows;
    assert Apply(StaleState(0), acts[0]).rows == StaleState(1).rows;
    assert Apply(StaleState(1), acts[1]).pendingReads == StaleState(2).pendingReads;
    assert SweepExhausted(StaleState(2).rows, 0, LEASE) == StaleState(3).rows;
    WorkerStepLeads(StaleState(2), acts[2], StaleState(3), Claiming(LEASE));
  }

  lemma StaleClaim()
    ensures Step(StaleState(3), StaleRetry()[3], StaleState(4))
  {
    var s, t := StaleState(3), StaleState(4);
    assert Candidates(s.rows, 0, LEASE, {}) == {"row"};
    assert ClaimRows(s.rows, ["row"], "a", 0) == t.rows;
    assert RecordsOf(t.rows, ["row"]) == [Copy(1)];
    WorkerStepLeads(s, StaleRetry()[3], t, Busy([Copy(1)], Ready));
  }

  lemma StaleDelivery()
    ensures forall k :: 4 <= k < 7 ==> Step(StaleState(k), StaleRetry()[k], StaleState(k + 1))
  {
    var acts := StaleRetry();
    assert WorkerNext(StaleState(4), "a", Begin).phase.hs == [];
    WorkerStepLeads(StaleState(4), acts[4], StaleState(5), Busy([Copy(1)], Publishing([])));
    WorkerStepLeads(StaleState(5), acts[5], StaleState(6), Busy([Copy(1)], Delivered));
    WorkerStepLeads(StaleState(6), acts[6], StaleState(7), Busy([Copy(1)], Undelivered));
  }

  lemma StaleFailure()
    ensures Step(StaleState(7), StaleRetry()[7], StaleState(8))
  {
    var s, t := StaleState(7), StaleState(8);
    assert MarkFailed(s.rows, Copy(1), "a", "unreachable", 0) == t.rows;
    WorkerStepLeads(s, StaleRetry()[7], t, Busy([], Ready));
  }

  lemma StaleGrant()
    ensures Step(StaleState(8), StaleRetry()[8], StaleState(9))
  {
    var s, t := StaleState(8), StaleState(9);
    assert Retry(s.rows, "row", 0, 1, 0) == t.rows;
    assert s.pendingReads - {"operator"} == t.pendingReads;
  }

  /** In a run from the empty table a retry leaves a PENDING row without an attempt. */
  lemma StaleRetryIsReached()
    ensures exists ss: seq<State> ::
              && IsRun(ss, StaleRetry()) && Initial(ss[0]) && |ss| == 10
              && "row" in ss[9].rows && ss[9].rows["row"].status.Pending? && !WithinLimit(ss[9].rows["row"])
  {
    StaleReadAndSweep();
    StaleClaim();
    StaleDelivery();
    StaleFailure();
    StaleGrant();
    StaleAssembles();
  }

  lemma StaleAssembles()
    requires forall k :: 0 <= k < 9 ==> Step(StaleState(k), StaleRetry()[k], StaleState(k + 1))
    ensures exists ss: seq<State> ::
              && IsRun(ss, StaleRetry()) && Initial(ss[0]) && |ss| == 10
              && "row" in ss[9].rows && ss[9].rows["row"].status.Pending? && !WithinLimit(ss[9].rows["row"])
  {
    var ss := Assemble(StaleRetry(), StaleState);
    assert ss[0] == StaleState(0) && ss[9] == StaleState(9);
  }
}
