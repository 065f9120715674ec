/**
 * The transactional outbox as a step system. Any number of workers sweep, claim, deliver and
 * acknowledge rows while operators enqueue, retry, cancel, replay and purge them. Each step is one
 * database statement, one ledger access, one handler completion or one in-memory transition, so a
 * run of the system is an arbitrary interleaving at that grain. A crash, a lost reply or a failing
 * statement may happen at every step.
 */
module OutboxProtocol {
  import opened Prelude
  import opened OutboxRows
  import opened HandlerKeys

  /** Progress of one handler inside one delivery (`runOnce`). */
  datatype HandlerState =
    | Queued     // the ledger has not been asked yet
    | Running    // not recorded as done: the handler was started
    | Ran        // the handler completed, its completion is not recorded yet
    | Fulfilled
    | Rejected

  datatype Phase =
    | Ready                                // about to publish the head record
    | Publishing(hs: seq<HandlerState>)    // one entry per subscribed handler
    | Delivered                            // publish returned: the row is acknowledged next
    | Undelivered                          // publish or the acknowledgement threw: the row is failed next

  /** A worker id's in-memory state; `records` are the copies not acknowledged yet, head first. */
  datatype Worker =
    | Idle
    | Claiming(leaseMs: int)
    | Busy(records: seq<Record>, phase: Phase)

  /** One handler's processing of one event. */
  datatype HandlerRun = HandlerRun(eventId: string, eventType: string, index: nat)

  datatype State = State(
    handlers: map<string, nat>,             // handlers per event type, fixed at startup
    rows: Table,
    workers: map<WorkerId, Worker>,
    pendingReads: map<string, (RowId, nat)>,  // operator reads of (row, attempts) not yet used
    ledger: set<string>,                    // keys of handlers recorded as done
    completed: multiset<HandlerRun>,        // history: handler completions
    unmarked: multiset<HandlerRun>,         // history: completions whose recording did not succeed
    marked: multiset<HandlerRun>)           // history: completions whose recording succeeded

  datatype WorkerStep =
    | Sweep(now: int, leaseMs: int)
    | Claim(now: int, skipLocked: set<RowId>, size: nat, chosen: seq<RowId>, replied: bool)
    | Begin
    | Check(index: nat, replied: bool)
    | Run(index: nat, ok: bool)
    | Mark(index: nat, ok: bool, stored: bool)
    | Settle
    | Ack(now: int, applied: bool, ok: bool)
    | Fail(error: string, now: int, applied: bool, ok: bool)
    | Finish
    | Abandon

  datatype Action =
    | Work(worker: WorkerId, step: WorkerStep)
    | Enqueue(batch: seq<(RowId, Event)>, now: int)
    | RetryRead(operator: string, id: RowId)
    | RetryWrite(operator: string, grant: int, now: int)
    | CancelRow(id: RowId, now: int)
    | ReplayRow(id: RowId, newId: RowId, newEventId: string, grant: int, now: int)
    | PurgeRows(cutoff: int)
    | DeleteProcessed(ids: set<RowId>)
    | ForgetKey(key: string)

  function WorkerOf(s: State, w: WorkerId): Worker {
    if w in s.workers then s.workers[w] else Idle
  }

  function HandlerCount(handlers: map<string, nat>, eventType: string): nat {
    if eventType in handlers then handlers[eventType] else 0
  }

  function RunOf(event: Event, index: nat): HandlerRun {
    HandlerRun(event.eventId, event.eventType, index)
  }

  function KeyOf(r: HandlerRun): string {
    HandlerKey(r.eventId, r.eventType, r.index)
  }

  predicate Publishes(wk: Worker, index: nat) {
    wk.Busy? && |wk.records| > 0 && wk.phase.Publishing? && index < |wk.phase.hs|
  }

  predicate InHandlerState(wk: Worker, index: nat, h: HandlerState) {
    Publishes(wk, index) && wk.phase.hs[index] == h
  }

  function SetHandler(wk: Worker, index: nat, h: HandlerState): Worker
    requires Publishes(wk, index)
  {
    Busy(wk.records, Publishing(wk.phase.hs[index := h]))
  }

  /** Completions of a delivery that are not recorded yet; lost if the worker stops here. */
  function UnrecordedRuns(event: Event, hs: seq<HandlerState>): multiset<HandlerRun> {
    if hs == [] then multiset{}
    else
      var last := |hs| - 1;
      UnrecordedRuns(event, hs[..last]) + (if hs[last].Ran? then multiset{RunOf(event, last)} else multiset{})
  }

  function LostCompletions(wk: Worker): multiset<HandlerRun> {
    if Publishes(wk, 0) then UnrecordedRuns(wk.records[0].event, wk.phase.hs) else multiset{}
  }

  /** When a worker may take a step, as far as its own memory is concerned. */
  predicate LocalEnabled(wk: Worker, step: WorkerStep) {
    match step
    // `tick` starts nothing while a batch of this worker is in flight
    case Sweep(now, leaseMs) => wk.Idle?
    case Claim(now, skipLocked, size, chosen, replied) => wk.Claiming?
    case Begin => wk.Busy? && |wk.records| > 0 && wk.phase.Ready?
    case Check(i, replied) => InHandlerState(wk, i, Queued)
    case Run(i, ok) => InHandlerState(wk, i, Running)
    case Mark(i, ok, stored) => InHandlerState(wk, i, Ran) && (ok ==> stored)
    case Settle =>
      wk.Busy? && |wk.records| > 0 && wk.phase.Publishing? &&
      forall h :: h in wk.phase.hs ==> h.Fulfilled? || h.Rejected?
    case Ack(now, applied, ok) => wk.Busy? && |wk.records| > 0 && wk.phase.Delivered? && (ok ==> applied)
    case Fail(error, now, applied, ok) => wk.Busy? && |wk.records| > 0 && wk.phase.Undelivered? && (ok ==> applied)
    case Finish => wk == Busy([], Ready)
    case Abandon => true
  }

  predicate WorkerEnabled(s: State, w: WorkerId, step: WorkerStep) {
    var wk := WorkerOf(s, w);
    && LocalEnabled(wk, step)
    && (step.Claim? ==>
          IsEarliest(s.rows, Candidates(s.rows, step.now, wk.leaseMs, step.skipLocked), step.size, step.chosen))
  }

  function WorkerRows(s: State, w: WorkerId, step: WorkerStep): Table
    requires WorkerEnabled(s, w, step)
  {
    match step
    case Sweep(now, leaseMs) => SweepExhausted(s.rows, now, leaseMs)
    case Claim(now, _, _, chosen, _) => ClaimRows(s.rows, chosen, w, now)
    case Ack(now, applied, _) => if applied then MarkProcessed(s.rows, WorkerOf(s, w).records[0].id, w, now) else s.rows
    case Fail(error, now, applied, _) =>
      if applied then MarkFailed(s.rows, WorkerOf(s, w).records[0], w, error, now) else s.rows
    case _ => s.rows
  }

  /** The worker's memory after a step other than a claim. */
  function LocalNext(wk: Worker, handlers: map<string, nat>, ledger: set<string>, step: WorkerStep): Worker
    requires LocalEnabled(wk, step) && !step.Claim?
  {
    match step
    case Sweep(_, leaseMs) => Claiming(leaseMs)
    case Begin =>
      Busy(wk.records, Publishing(seq(HandlerCount(handlers, wk.records[0].event.eventType), _ => Queued)))
    case Check(i, replied) =>
      SetHandler(wk, i, if !replied then Rejected
                        else if KeyOf(RunOf(wk.records[0].event, i)) in ledger then Fulfilled else Running)
    case Run(i, ok) => SetHandler(wk, i, if ok then Ran else Rejected)
    case Mark(i, ok, _) => SetHandler(wk, i, if ok then Fulfilled else Rejected)
    case Settle => Busy(wk.records, if Rejected in wk.phase.hs then Undelivered else Delivered)
    case Ack(_, _, ok) => if ok then Busy(wk.records[1..], Ready) else Busy(wk.records, Undelivered)
    case Fail(_, _, _, ok) => if ok then Busy(wk.records[1..], Ready) else Idle
    case Finish => Idle
    case Abandon => Idle
  }

  function WorkerNext(s: State, w: WorkerId, step: WorkerStep): Worker
    requires WorkerEnabled(s, w, step)
  {
    if !step.Claim? then LocalNext(WorkerOf(s, w), s.handlers, s.ledger, step)
    else if step.replied then Busy(RecordsOf(ClaimRows(s.rows, step.chosen, w, step.now), step.chosen), Ready)
    else Idle
  }

  /** The ledger and the completion history. */
  datatype Effects = Effects(
    ledger: set<string>, completed: multiset<HandlerRun>, unmarked: multiset<HandlerRun>, marked: multiset<HandlerRun>)

  function WorkerEffects(s: State, w: WorkerId, step: WorkerStep): Effects
    requires WorkerEnabled(s, w, step)
  {
    var wk := WorkerOf(s, w);
    var before := Effects(s.ledger, s.completed, s.unmarked, s.marked);
    match step
    case Run(i, ok) =>
      if ok then before.(completed := s.completed + multiset{RunOf(wk.records[0].event, i)}) else before
    case Mark(i, ok, stored) =>
      var r := RunOf(wk.records[0].event, i);
      Effects(if stored then s.ledger + {KeyOf(r)} else s.ledger, s.completed,
              if ok then s.unmarked else s.unmarked + multiset{r}, if ok then s.marked + multiset{r} else s.marked)
    case Abandon => before.(unmarked := s.unmarked + LostCompletions(wk))
    case _ => before
  }

  predicate Enabled(s: State, a: Action) {
    match a
    case Work(w, step) => WorkerEnabled(s, w, step)
    case Enqueue(batch, now) => true
    case RetryRead(operator, id) => id in s.rows
    case RetryWrite(operator, grant, now) =>
      operator in s.pendingReads && grant >= 1 && !RetryRefused(s.rows, s.pendingReads[operator].0)
    case CancelRow(id, now) => true
    case ReplayRow(id, newId, newEventId, grant, now) =>
      && id in s.rows && Replayable(s.rows[id].status)
      && newId !in s.rows && !EventStored(s.rows, newEventId) && !ReplayTaken(s.rows, Some(id), newId) && grant >= 1
    case PurgeRows(cutoff) => true
    case DeleteProcessed(ids) => forall id :: id in ids ==> id in s.rows && s.rows[id].status.Processed?
    case ForgetKey(key) => true
  }

  /** The table after an action. */
  function RowsAfter(s: State, a: Action): Table
    requires Enabled(s, a)
  {
    match a
    case Work(w, step) => WorkerRows(s, w, step)
    case Enqueue(batch, now) => InsertMissing(s.rows, batch, now)
    case RetryWrite(operator, grant, now) =>
      Retry(s.rows, s.pendingReads[operator].0, s.pendingReads[operator].1, grant, now)
    case CancelRow(id, now) => Cancel(s.rows, id, now)
    case ReplayRow(id, newId, newEventId, grant, now) => Replay(s.rows, id, newId, newEventId, grant, now)
    case PurgeRows(cutoff) => Purge(s.rows, cutoff)
    case DeleteProcessed(ids) => DeleteRows(s.rows, ids)
    case RetryRead(_, _) => s.rows
    case ForgetKey(_) => s.rows
  }

  function Apply(s: State, a: Action): State
    requires Enabled(s, a)
  {
    var rows := RowsAfter(s, a);
    match a
    case Work(w, step) =>
      var e := WorkerEffects(s, w, step);
      State(s.handlers, rows, s.workers[w := WorkerNext(s, w, step)], s.pendingReads,
            e.ledger, e.completed, e.unmarked, e.marked)
    case RetryRead(operator, id) => s.(pendingReads := s.pendingReads[operator := (id, s.rows[id].attempts)])
    case RetryWrite(operator, _, _) => s.(rows := rows, pendingReads := s.pendingReads - {operator})
    case ForgetKey(key) => s.(ledger := s.ledger - {key})
    case _ => s.(rows := rows)
  }

  predicate Initial(s: State) {
    && (forall t :: t in s.handlers ==> ColonFree(t))
    && s.rows == map[] && s.workers == map[] && s.pendingReads == map[]
    && s.ledger == {} && s.completed == multiset{} && s.unmarked == multiset{} && s.marked == multiset{}
  }

  ghost predicate Step(s: State, a: Action, t: State) {
    Enabled(s, a) && t == Apply(s, a)
  }

  /** `ss[0]` evolves into `ss[|acts|]` by taking `acts` one after the other. */
  ghost predicate IsRun(ss: seq<State>, acts: seq<Action>) {
    && |ss| == |acts| + 1
    && forall i :: 0 <= i < |acts| ==> Step(ss[i], acts[i], ss[i + 1])
  }

  lemma AppendStep(ss: seq<State>, acts: seq<Action>, a: Action)
    requires IsRun(ss, acts) && Enabled(ss[|acts|], a)
    ensures IsRun(ss + [Apply(ss[|acts|], a)], acts + [a])
  {
    var ss', acts' := ss + [Apply(ss[|acts|], a)], acts + [a];
    forall i | 0 <= i < |acts'|
      ensures Step(ss'[i], acts'[i], ss'[i + 1])
    {
      if i < |acts| {
        assert Step(ss[i], acts[i], ss[i + 1]);
      }
    }
  }

  /** Steps are deterministic: two runs with the same start and the same first actions pass the same states. */
  lemma {:induction false} SameStates(ss: seq<State>, acts: seq<Action>, ss': seq<State>, acts': seq<Action>, n: nat)
    requires IsRun(ss, acts) && IsRun(ss', acts') && ss[0] == ss'[0] && Extends(acts, acts') && n < |ss|
    ensures forall k :: 0 <= k <= n ==> ss'[k] == ss[k]
  {
    if n > 0 {
      SameStates(ss, acts, ss', acts', n - 1);
      assert Step(ss[n - 1], acts[n - 1], ss[n - 1 + 1]) && Step(ss'[n - 1], acts'[n - 1], ss'[n - 1 + 1]);
    }
  }
}
