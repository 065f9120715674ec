/**
 * What every interleaving of the outbox keeps: a worker's copy agrees with the row it holds, only
 * PROCESSING rows carry a lease, and a row is PROCESSED only after all its handlers completed.
 */
module OutboxSafety {
  import opened Prelude
  import opened OutboxRows
  import opened HandlerKeys
  import opened OutboxProtocol

  // -------------------------------------------------------------------- invariants

  ghost predicate RowShape(row: Row) {
    && (row.status.Processing? <==> row.lockedBy.Some?)
    && (row.status.Processing? <==> row.lockedAt.Some?)
    && (row.status.Processed? ==> row.processedAt.Some?)
  }

  ghost predicate RowsShaped(rows: Table) {
    forall id :: id in rows ==> RowShape(rows[id])
  }

  ghost predicate EventIdsUnique(rows: Table) {
    forall a, b :: a in rows && b in rows && rows[a].event.eventId == rows[b].event.eventId ==> a == b
  }

  /** If `w` holds the row of this copy, the copy is the row's current content. */
  ghost predicate CopyAgrees(rows: Table, w: WorkerId, copy: Record) {
    HoldsLease(rows, copy.id, w) ==> copy == RecordOf(copy.id, rows[copy.id])
  }

  ghost predicate CopiesAgree(rows: Table, w: WorkerId, wk: Worker) {
    wk.Busy? ==> forall i :: 0 <= i < |wk.records| ==> CopyAgrees(rows, w, wk.records[i])
  }

  ghost predicate Agreement(s: State) {
    forall w :: w in s.workers ==> CopiesAgree(s.rows, w, s.workers[w])
  }

  ghost predicate HandlersNamed(s: State) {
    forall t :: t in s.handlers ==> ColonFree(t)
  }

  /** Every recorded completion really happened. */
  ghost predicate LedgerSound(s: State) {
    forall r: HandlerRun :: r.eventType in s.handlers && KeyOf(r) in s.ledger ==> r in s.completed
  }

  ghost predicate AllHandlersCompleted(s: State, event: Event) {
    forall i: nat :: i < HandlerCount(s.handlers, event.eventType) ==> RunOf(event, i) in s.completed
  }

  ghost predicate PhaseSound(s: State, event: Event, phase: Phase) {
    && (phase.Publishing? ==>
          && |phase.hs| == HandlerCount(s.handlers, event.eventType)
          && forall i :: 0 <= i < |phase.hs| && (phase.hs[i].Ran? || phase.hs[i].Fulfilled?) ==>
               RunOf(event, i) in s.completed)
    && (phase.Delivered? ==> AllHandlersCompleted(s, event))
  }

  ghost predicate WorkerSound(s: State, wk: Worker) {
    wk.Busy? ==>
      && (|wk.records| > 0 ==> PhaseSound(s, wk.records[0].event, wk.phase))
      && (|wk.records| == 0 ==> wk.phase.Ready?)
  }

  ghost predicate DeliveriesSound(s: State) {
    forall w :: w in s.workers ==> WorkerSound(s, s.workers[w])
  }

  ghost predicate ProcessedSound(s: State) {
    forall id :: id in s.rows && s.rows[id].status.Processed? ==> AllHandlersCompleted(s, s.rows[id].event)
  }

  ghost predicate Inv(s: State) {
    && RowsShaped(s.rows) && EventIdsUnique(s.rows) && Agreement(s)
    && HandlersNamed(s) && LedgerSound(s) && DeliveriesSound(s) && ProcessedSound(s)
  }

  // ------------------------------------------------- what each statement does to rows

  /** No row enters PROCESSING or changes hands, and leased rows keep what copies show. */
  ghost predicate Quiet(rows: Table, rows': Table) {
    forall id :: id in rows' && rows'[id].status.Processing? ==>
      && id in rows && rows[id].status.Processing?
      && rows'[id].lockedBy == rows[id].lockedBy
      && RecordOf(id, rows'[id]) == RecordOf(id, rows[id])
  }

  /** Rows that are PROCESSED afterwards already were, with the same event. */
  ghost predicate NoneCompleted(rows: Table, rows': Table) {
    forall id :: id in rows' && rows'[id].status.Processed? ==>
      id in rows && rows[id].status.Processed? && rows'[id].event == rows[id].event
  }

  ghost predicate EventsKept(rows: Table, rows': Table) {
    forall id :: id in rows && id in rows' ==> rows'[id].event == rows[id].event
  }

  ghost predicate RowsKept(rows: Table, rows': Table) {
    RowsShaped(rows') && EventIdsUnique(rows') && EventsKept(rows, rows')
  }

  lemma InsertionKeeps(rows: Table, id: RowId, row: Row)
    requires RowsShaped(rows) && EventIdsUnique(rows)
    requires id !in rows && !EventStored(rows, row.event.eventId) && row.status.Pending? && RowShape(row)
    ensures RowsKept(rows, rows[id := row]) && Quiet(rows, rows[id := row]) && NoneCompleted(rows, rows[id := row])
  {
  }

  lemma {:induction false} InsertMissingKeeps(rows: Table, batch: seq<(RowId, Event)>, now: int)
    requires RowsShaped(rows) && EventIdsUnique(rows)
    ensures RowsKept(rows, InsertMissing(rows, batch, now))
    ensures Quiet(rows, InsertMissing(rows, batch, now)) && NoneCompleted(rows, InsertMissing(rows, batch, now))
    decreases |batch|
  {
    if batch != [] {
      var (id, event) := batch[0];
      if id in rows || EventStored(rows, event.eventId) {
        InsertMissingKeeps(rows, batch[1..], now);
      } else {
        var rows' := rows[id := NewRow(event, DEFAULT_MAX_ATTEMPTS, None, now)];
        InsertionKeeps(rows, id, rows'[id]);
        InsertMissingKeeps(rows', batch[1..], now);
        InsertedStay(rows', batch[1..], now);
      }
    }
  }

  /** Enqueueing never touches a stored row. */
  lemma {:induction false} InsertedStay(rows: Table, batch: seq<(RowId, Event)>, now: int)
    ensures forall id :: id in rows ==>
              id in InsertMissing(rows, batch, now) && InsertMissing(rows, batch, now)[id] == rows[id]
    decreases |batch|
  {
    if batch != [] {
      var (id, event) := batch[0];
      var rows' := if id in rows || EventStored(rows, event.eventId) then rows
                   else rows[id := NewRow(event, DEFAULT_MAX_ATTEMPTS, None, now)];
      InsertedStay(rows', batch[1..], now);
    }
  }

  lemma SweepKeeps(rows: Table, now: int, leaseMs: int)
    requires RowsShaped(rows) && EventIdsUnique(rows)
    ensures RowsKept(rows, SweepExhausted(rows, now, leaseMs))
    ensures Quiet(rows, SweepExhausted(rows, now, leaseMs)) && NoneCompleted(rows, SweepExhausted(rows, now, leaseMs))
  {
  }

  lemma RetryKeeps(rows: Table, id: RowId, readAttempts: nat, grant: int, now: int)
    requires RowsShaped(rows) && EventIdsUnique(rows)
    ensures RowsKept(rows, Retry(rows, id, readAttempts, grant, now))
    ensures Quiet(rows, Retry(rows, id, readAttempts, grant, now))
    ensures NoneCompleted(rows, Retry(rows, id, readAttempts, grant, now))
  {
  }

  lemma CancelKeeps(rows: Table, id: RowId, now: int)
    requires RowsShaped(rows) && EventIdsUnique(rows)
    ensures RowsKept(rows, Cancel(rows, id, now))
    ensures Quiet(rows, Cancel(rows, id, now)) && NoneCompleted(rows, Cancel(rows, id, now))
  {
  }

  lemma ReplayKeeps(rows: Table, id: RowId, newId: RowId, newEventId: string, grant: int, now: int)
    requires RowsShaped(rows) && EventIdsUnique(rows)
    requires id in rows && newId !in rows && !EventStored(rows, newEventId)
    ensures RowsKept(rows, Replay(rows, id, newId, newEventId, grant, now))
    ensures Quiet(rows, Replay(rows, id, newId, newEventId, grant, now))
    ensures NoneCompleted(rows, Replay(rows, id, newId, newEventId, grant, now))
  {
  }

  lemma DeletionKeeps(rows: Table, rows': Table)
    requires RowsShaped(rows) && EventIdsUnique(rows)
    requires forall id :: id in rows' ==> id in rows && rows'[id] == rows[id]
    ensures RowsKept(rows, rows') && Quiet(rows, rows') && NoneCompleted(rows, rows')
  {
  }

  /** Everything but a claim and an acknowledgement leaves leases and completions alone. */
  lemma OtherStatementsKeep(s: State, a: Action)
    requires RowsShaped(s.rows) && EventIdsUnique(s.rows)
    requires Enabled(s, a)
    requires a.Work? ==> !a.step.Claim? && !a.step.Ack? && !a.step.Fail?
    ensures RowsKept(s.rows, RowsAfter(s, a))
    ensures Quiet(s.rows, RowsAfter(s, a)) && NoneCompleted(s.rows, RowsAfter(s, a))
  {
    match a
    case Work(w, Sweep(now, leaseMs)) => SweepKeeps(s.rows, now, leaseMs);
    case Enqueue(batch, now) => InsertMissingKeeps(s.rows, batch, now);
    case RetryWrite(o, grant, now) => RetryKeeps(s.rows, s.pendingReads[o].0, s.pendingReads[o].1, grant, now);
    case CancelRow(id, now) => CancelKeeps(s.rows, id, now);
    case ReplayRow(id, newId, newEventId, grant, now) => ReplayKeeps(s.rows, id, newId, newEventId, grant, now);
    case PurgeRows(cutoff) => DeletionKeeps(s.rows, Purge(s.rows, cutoff));
    case DeleteProcessed(ids) => DeletionKeeps(s.rows, DeleteRows(s.rows, ids));
    case _ => DeletionKeeps(s.rows, s.rows);
  }

  lemma ClaimKeeps(rows: Table, chosen: seq<RowId>, w: WorkerId, now: int)
    requires RowsShaped(rows) && EventIdsUnique(rows)
    ensures RowsKept(rows, ClaimRows(rows, chosen, w, now))
    ensures NoneCompleted(rows, ClaimRows(rows, chosen, w, now))
  {
  }

  lemma AckKeeps(rows: Table, id: RowId, w: WorkerId, now: int)
    requires RowsShaped(rows) && EventIdsUnique(rows)
    ensures RowsKept(rows, MarkProcessed(rows, id, w, now)) && Quiet(rows, MarkProcessed(rows, id, w, now))
  {
  }

  lemma FailKeeps(rows: Table, copy: Record, w: WorkerId, error: string, now: int)
    requires RowsShaped(rows) && EventIdsUnique(rows)
    ensures RowsKept(rows, MarkFailed(rows, copy, w, error, now))
    ensures Quiet(rows, MarkFailed(rows, copy, w, error, now))
    ensures NoneCompleted(rows, MarkFailed(rows, copy, w, error, now))
  {
  }

  // ------------------------------------------------------------ preservation: copies

  lemma QuietKeepsCopies(rows: Table, rows': Table, w: WorkerId, wk: Worker)
    requires Quiet(rows, rows') && CopiesAgree(rows, w, wk)
    ensures CopiesAgree(rows', w, wk)
  {
  }

  /** A claim hands its rows over: nobody else's copy can act on them, and the claimer's are exact. */
  lemma ClaimKeepsCopies(rows: Table, chosen: seq<RowId>, w: WorkerId, now: int, other: WorkerId, wk: Worker)
    requires CopiesAgree(rows, other, wk) && other != w
    ensures CopiesAgree(ClaimRows(rows, chosen, w, now), other, wk)
  {
  }

  lemma DroppingHeadKeepsCopies(rows: Table, w: WorkerId, records: seq<Record>, p: Phase, q: Phase)
    requires CopiesAgree(rows, w, Busy(records, p))
    ensures CopiesAgree(rows, w, Busy(records, q))
    ensures |records| > 0 ==> CopiesAgree(rows, w, Busy(records[1..], q))
  {
  }

  /** The worker's own copies after its step, judged against the table it left behind. */
  lemma OwnCopiesAgree(s: State, w: WorkerId, step: WorkerStep)
    requires WorkerEnabled(s, w, step)
    requires CopiesAgree(s.rows, w, WorkerOf(s, w))
    requires !step.Claim? ==> Quiet(s.rows, WorkerRows(s, w, step))
    ensures CopiesAgree(WorkerRows(s, w, step), w, WorkerNext(s, w, step))
  {
    var wk := WorkerOf(s, w);
    if step.Claim? || step.Sweep? || step.Finish? || step.Abandon? {
    } else {
      var rows' := WorkerRows(s, w, step);
      QuietKeepsCopies(s.rows, rows', w, wk);
      DroppingHeadKeepsCopies(rows', w, wk.records, wk.phase, Ready);
      DroppingHeadKeepsCopies(rows', w, wk.records, wk.phase, WorkerNextPhase(s, w, step));
    }
  }

  function WorkerNextPhase(s: State, w: WorkerId, step: WorkerStep): Phase
    requires WorkerEnabled(s, w, step)
  {
    var next := WorkerNext(s, w, step);
    if next.Busy? then next.phase else Ready
  }

  lemma RowEffects(s: State, a: Action)
    requires RowsShaped(s.rows) && EventIdsUnique(s.rows) && Enabled(s, a)
    ensures RowsKept(s.rows, RowsAfter(s, a))
    ensures !(a.Work? && a.step.Claim?) ==> Quiet(s.rows, RowsAfter(s, a))
    ensures !(a.Work? && a.step.Ack?) ==> NoneCompleted(s.rows, RowsAfter(s, a))
  {
    match a
    case Work(w, Claim(now, _, _, chosen, _)) => ClaimKeeps(s.rows, chosen, w, now);
    case Work(w, Ack(now, applied, _)) =>
      AckKeeps(s.rows, WorkerOf(s, w).records[0].id, w, now);
      DeletionKeeps(s.rows, s.rows);
    case Work(w, Fail(error, now, applied, _)) =>
      FailKeeps(s.rows, WorkerOf(s, w).records[0], w, error, now);
      DeletionKeeps(s.rows, s.rows);
    case _ => OtherStatementsKeep(s, a);
  }

  lemma AgreementKept(s: State, a: Action)
    requires RowsShaped(s.rows) && EventIdsUnique(s.rows) && Agreement(s) && Enabled(s, a)
    ensures Agreement(Apply(s, a))
  {
    RowEffects(s, a);
    var t := Apply(s, a);
    forall w | w in t.workers
      ensures CopiesAgree(t.rows, w, t.workers[w])
    {
      if a.Work? && a.worker == w {
        assert CopiesAgree(s.rows, w, WorkerOf(s, w));
        OwnCopiesAgree(s, w, a.step);
      } else if a.Work? && a.step.Claim? {
        ClaimKeepsCopies(s.rows, a.step.chosen, a.worker, a.step.now, w, s.workers[w]);
      } else {
        QuietKeepsCopies(s.rows, t.rows, w, s.workers[w]);
      }
    }
  }

  // ------------------------------------------------------ preservation: deliveries

  /** Completions are never forgotten. */
  ghost predicate HistoryGrows(s: State, t: State) {
    t.handlers == s.handlers && forall r: HandlerRun :: r in s.completed ==> r in t.completed
  }

  lemma LaterHistoryKeeps(s: State, t: State, event: Event, phase: Phase)
    requires HistoryGrows(s, t)
    ensures PhaseSound(s, event, phase) ==> PhaseSound(t, event, phase)
    ensures AllHandlersCompleted(s, event) ==> AllHandlersCompleted(t, event)
  {
  }

  lemma HistoryOnlyGrows(s: State, a: Action)
    requires Enabled(s, a)
    ensures HistoryGrows(s, Apply(s, a))
  {
  }

  /** A key enters the ledger only for a handler that just completed. */
  lemma LedgerSoundKept(s: State, a: Action)
    requires HandlersNamed(s) && LedgerSound(s) && DeliveriesSound(s) && Enabled(s, a)
    ensures LedgerSound(Apply(s, a))
  {
    HistoryOnlyGrows(s, a);
    var t := Apply(s, a);
    forall r: HandlerRun | r.eventType in t.handlers && KeyOf(r) in t.ledger
      ensures r in t.completed
    {
      if KeyOf(r) !in s.ledger {
        var wk := WorkerOf(s, a.worker);
        var marked := RunOf(wk.records[0].event, a.step.index);
        assert WorkerSound(s, wk);
        HandlerKeyInjective(r.eventId, r.eventType, r.index, marked.eventId, marked.eventType, marked.index);
      }
    }
  }

  lemma SetHandlerSound(s: State, t: State, wk: Worker, i: nat, h: HandlerState)
    requires HistoryGrows(s, t) && WorkerSound(s, wk) && Publishes(wk, i)
    requires h.Ran? || h.Fulfilled? ==> RunOf(wk.records[0].event, i) in t.completed
    ensures WorkerSound(t, SetHandler(wk, i, h))
  {
    LaterHistoryKeeps(s, t, wk.records[0].event, wk.phase);
  }

  lemma CheckSound(s: State, t: State, w: WorkerId, i: nat, replied: bool)
    requires HistoryGrows(s, t) && LedgerSound(s) && WorkerSound(s, WorkerOf(s, w))
    requires WorkerEnabled(s, w, Check(i, replied))
    ensures WorkerSound(t, WorkerNext(s, w, Check(i, replied)))
  {
    var wk := WorkerOf(s, w);
    var r := RunOf(wk.records[0].event, i);
    if replied && KeyOf(r) in s.ledger {
      assert r.eventType in s.handlers;
      SetHandlerSound(s, t, wk, i, Fulfilled);
    } else {
      SetHandlerSound(s, t, wk, i, if replied then Running else Rejected);
    }
  }

  /** Publish returns normally only when every subscribed handler completed for this event. */
  lemma SettleSound(s: State, t: State, w: WorkerId)
    requires HistoryGrows(s, t) && WorkerSound(s, WorkerOf(s, w)) && WorkerEnabled(s, w, Settle)
    ensures WorkerSound(t, WorkerNext(s, w, Settle))
  {
    var wk := WorkerOf(s, w);
    LaterHistoryKeeps(s, t, wk.records[0].event, wk.phase);
    if Rejected !in wk.phase.hs {
      forall i: nat | i < HandlerCount(t.handlers, wk.records[0].event.eventType)
        ensures RunOf(wk.records[0].event, i) in t.completed
      {
        assert wk.phase.hs[i] in wk.phase.hs;
      }
    }
  }

  lemma OwnDeliverySound(s: State, w: WorkerId, step: WorkerStep)
    requires LedgerSound(s) && WorkerSound(s, WorkerOf(s, w)) && WorkerEnabled(s, w, step)
    ensures WorkerSound(Apply(s, Work(w, step)), WorkerNext(s, w, step))
  {
    var t := Apply(s, Work(w, step));
    var wk := WorkerOf(s, w);
    HistoryOnlyGrows(s, Work(w, step));
    match step
    case Check(i, replied) => CheckSound(s, t, w, i, replied);
    case Run(i, ok) => SetHandlerSound(s, t, wk, i, if ok then Ran else Rejected);
    case Mark(i, ok, stored) => SetHandlerSound(s, t, wk, i, if ok then Fulfilled else Rejected);
    case Settle => SettleSound(s, t, w);
    case _ =>
  }

  lemma DeliveriesSoundKept(s: State, a: Action)
    requires LedgerSound(s) && DeliveriesSound(s) && Enabled(s, a)
    ensures DeliveriesSound(Apply(s, a))
  {
    HistoryOnlyGrows(s, a);
    var t := Apply(s, a);
    forall w | w in t.workers
      ensures WorkerSound(t, t.workers[w])
    {
      if a.Work? && a.worker == w {
        assert WorkerSound(s, WorkerOf(s, w));
        OwnDeliverySound(s, w, a.step);
      } else {
        var wk := s.workers[w];
        if wk.Busy? && |wk.records| > 0 {
          LaterHistoryKeeps(s, t, wk.records[0].event, wk.phase);
        }
      }
    }
  }

  /** A row becomes PROCESSED only from a copy that agrees with it, after its delivery succeeded. */
  lemma ProcessedSoundKept(s: State, a: Action)
    requires Inv(s) && Enabled(s, a)
    ensures ProcessedSound(Apply(s, a))
  {
    RowEffects(s, a);
    HistoryOnlyGrows(s, a);
    var t := Apply(s, a);
    forall id | id in t.rows && t.rows[id].status.Processed?
      ensures AllHandlersCompleted(t, t.rows[id].event)
    {
      if a.Work? && a.step.Ack? {
        var copy := WorkerOf(s, a.worker).records[0];
        assert CopyAgrees(s.rows, a.worker, copy);
        assert WorkerSound(s, WorkerOf(s, a.worker));
        LaterHistoryKeeps(s, t, copy.event, Ready);
      }
      LaterHistoryKeeps(s, t, t.rows[id].event, Ready);
    }
  }

  // ------------------------------------------------------------------ main results

  lemma StepKeepsInv(s: State, a: Action)
    requires Inv(s) && Enabled(s, a)
    ensures Inv(Apply(s, a))
  {
    RowEffects(s, a);
    AgreementKept(s, a);
    LedgerSoundKept(s, a);
    DeliveriesSoundKept(s, a);
    ProcessedSoundKept(s, a);
    HistoryOnlyGrows(s, a);
  }

  lemma {:induction false} RunKeepsInv(ss: seq<State>, acts: seq<Action>, n: nat)
    requires IsRun(ss, acts) && Inv(ss[0]) && n < |ss|
    ensures Inv(ss[n])
  {
    if n > 0 {
      RunKeepsInv(ss, acts, n - 1);
      assert Step(ss[n - 1], acts[n - 1], ss[n - 1 + 1]);
      StepKeepsInv(ss[n - 1], acts[n - 1]);
    }
  }

  lemma {:induction false} CompletionsKept(ss: seq<State>, acts: seq<Action>, i: nat, j: nat)
    requires IsRun(ss, acts) && i <= j < |ss|
    ensures HistoryGrows(ss[i], ss[j])
    decreases j - i
  {
    if i < j {
      CompletionsKept(ss, acts, i, j - 1);
      assert Step(ss[j - 1], acts[j - 1], ss[j - 1 + 1]);
      HistoryOnlyGrows(ss[j - 1], acts[j - 1]);
    }
  }

  /** The reachable states: every state of every run from an empty table satisfies the invariant. */
  lemma ReachableStatesAreSafe(ss: seq<State>, acts: seq<Action>, n: nat)
    requires IsRun(ss, acts) && Initial(ss[0]) && n < |ss|
    ensures Inv(ss[n])
  {
    assert LedgerSound(ss[0]);
    RunKeepsInv(ss, acts, n);
  }

  /**
   * Agreement: in every reachable state, a copy whose row is still leased to its worker shows the
   * row's current attempts, limit and event.
   */
  lemma CopyMatchesHeldRow(ss: seq<State>, acts: seq<Action>, n: nat, w: WorkerId, i: nat)
    requires IsRun(ss, acts) && Initial(ss[0]) && n < |ss|
    requires w in ss[n].workers && ss[n].workers[w].Busy? && i < |ss[n].workers[w].records|
    requires HoldsLease(ss[n].rows, ss[n].workers[w].records[i].id, w)
    ensures var copy := ss[n].workers[w].records[i]; var row := ss[n].rows[copy.id];
            copy.attempts == row.attempts && copy.maxAttempts == row.maxAttempts && copy.event == row.event
  {
    ReachableStatesAreSafe(ss, acts, n);
    assert CopyAgrees(ss[n].rows, w, ss[n].workers[w].records[i]);
  }

  /**
   * An acknowledgement or failure report changes the table only for the claim that currently holds
   * the row (same attempt number), and then the dead-letter decision taken from the copy is the one
   * the stored row calls for.
   */
  lemma ReportsActOnCurrentClaim(ss: seq<State>, acts: seq<Action>, n: nat)
    requires IsRun(ss, acts) && Initial(ss[0]) && n < |acts|
    requires acts[n].Work? && (acts[n].step.Ack? || acts[n].step.Fail?)
    requires ss[n + 1].rows != ss[n].rows
    ensures var copy := WorkerOf(ss[n], acts[n].worker).records[0];
            && copy.id in ss[n].rows && copy.id in ss[n + 1].rows
            && var row := ss[n].rows[copy.id]; var row' := ss[n + 1].rows[copy.id];
            && row.status.Processing? && row.lockedBy == Some(acts[n].worker)
            && row.attempts == copy.attempts
            && ss[n + 1].rows == ss[n].rows[copy.id := row']
            && (acts[n].step.Ack? ==> row'.status.Processed?)
            && (acts[n].step.Fail? ==>
                  row'.status == if row.attempts >= row.maxAttempts then DeadLetter else Failed)
  {
    ReachableStatesAreSafe(ss, acts, n);
    var w := acts[n].worker;
    assert CopiesAgree(ss[n].rows, w, WorkerOf(ss[n], w));
    assert CopyAgrees(ss[n].rows, w, WorkerOf(ss[n], w).records[0]);
  }

  /** No event is PROCESSED unless every subscribed handler completed for it, now or earlier. */
  lemma ProcessedMeansAllHandlersRan(ss: seq<State>, acts: seq<Action>, n: nat, id: RowId, i: nat)
    requires IsRun(ss, acts) && Initial(ss[0]) && n < |ss|
    requires id in ss[n].rows && ss[n].rows[id].status.Processed?
    requires i < HandlerCount(ss[n].handlers, ss[n].rows[id].event.eventType)
    ensures RunOf(ss[n].rows[id].event, i) in ss[n].completed
  {
    ReachableStatesAreSafe(ss, acts, n);
  }

  /**
   * Why a worker must not overlap its own batches: the lease names the worker, not the claim. If the
   * worker claims a row again while an older batch still holds a copy of it, that copy keeps its
   * right to acknowledge although it no longer describes the row.
   */
  lemma OverlappingClaimBreaksAgreement(rows: Table, copy: Record, w: WorkerId, chosen: seq<RowId>, now: int)
    requires HoldsLease(rows, copy.id, w) && CopyAgrees(rows, w, copy) && copy.id in chosen
    ensures HoldsLease(ClaimRows(rows, chosen, w, now), copy.id, w)
    ensures !CopyAgrees(ClaimRows(rows, chosen, w, now), w, copy)
    ensures MarkProcessed(ClaimRows(rows, chosen, w, now), copy.id, w, now)[copy.id].status.Processed?
  {
  }
}
