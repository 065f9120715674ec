/**
 * The batch loop and the polling worker as imperative code over the shared system. Between any two
 * of its own steps other workers and operators act as a script dictates; whatever happens is
 * appended to one run of the protocol, so every property of runs applies to what these methods do.
 */
module OutboxProcessing {
  import opened Prelude
  import opened OutboxRows
  import opened OutboxStore
  import opened OutboxProtocol
  import opened OutboxSafety

  predicate By(a: Action, w: WorkerId) {
    a.Work? && a.worker == w
  }

  /**
   * What a worker did in a run: sweeps and claim statements, records claimed, deliveries acknowledged, failures
   * reported.
   */
  datatype Tally = Tally(sweeps: int, claims: int, claimed: int, acked: int, failed: int)

  const NOTHING: Tally := Tally(0, 0, 0, 0, 0)

  function StepTally(step: WorkerStep): Tally {
    match step
    case Sweep(_, _) => NOTHING.(sweeps := 1)
    case Claim(_, _, _, chosen, _) => NOTHING.(claims := 1, claimed := |chosen|)
    case Ack(_, _, ok) => NOTHING.(acked := if ok then 1 else 0)
    case Fail(_, _, _, ok) => NOTHING.(failed := if ok then 1 else 0)
    case _ => NOTHING
  }

  function Plus(a: Tally, b: Tally): Tally {
    Tally(a.sweeps + b.sweeps, a.claims + b.claims, a.claimed + b.claimed, a.acked + b.acked, a.failed + b.failed)
  }

  function TallyOf(acts: seq<Action>, w: WorkerId): Tally {
    if acts == [] then NOTHING
    else
      var a := acts[|acts| - 1];
      Plus(TallyOf(acts[..|acts| - 1], w), if By(a, w) then StepTally(a.step) else NOTHING)
  }

  lemma TallyAppend(acts: seq<Action>, a: Action, w: WorkerId)
    ensures TallyOf(acts + [a], w) == Plus(TallyOf(acts, w), if By(a, w) then StepTally(a.step) else NOTHING)
  {
    assert (acts + [a])[..|acts|] == acts;
  }

  /** A step changes only the in-memory state of the worker that takes it. */
  lemma StepOwners(s: State, a: Action, w: WorkerId)
    requires Enabled(s, a)
    ensures Apply(s, a).handlers == s.handlers
    ensures WorkerOf(Apply(s, a), w) == if By(a, w) then WorkerNext(s, w, a.step) else WorkerOf(s, w)
  {
  }

  function Taken(step: WorkerStep): seq<RowId> {
    if step.Claim? then step.chosen else []
  }

  /** What a claim statement, or its absence, does to the table and, with its reply, to the worker's memory. */
  lemma ClaimEffect(s: State, w: WorkerId, step: WorkerStep)
    requires (step.Claim? || step.Abandon?) && Enabled(s, Work(w, step))
    ensures var t := Apply(s, Work(w, step));
            if step.Claim?
            then TakesDueRows(s.rows, t.rows, step.chosen, w, step.now, WorkerOf(s, w).leaseMs, step.skipLocked,
                              step.size)
            else t.rows == s.rows
    ensures var t := Apply(s, Work(w, step));
            if step.Claim? && step.replied
            then (&& WorkerOf(t, w).Busy? && WorkerOf(t, w).phase.Ready?
                  && Delivers(t.rows, step.chosen, WorkerOf(t, w).records))
            else WorkerOf(t, w).Idle?
  {
    if step.Claim? {
      var leaseMs := WorkerOf(s, w).leaseMs;
      var from := Candidates(s.rows, step.now, leaseMs, step.skipLocked);
      ClaimTakesDueRows(s.rows, step.chosen, w, step.now, leaseMs, step.skipLocked, step.size);
      ClaimDelivers(s.rows, from, step.size, step.chosen, w, step.now);
    }
  }

  lemma StepOfAnother(s: State, a: Action, w: WorkerId)
    requires Enabled(s, a) && !By(a, w)
    ensures Apply(s, a).handlers == s.handlers && WorkerOf(Apply(s, a), w) == WorkerOf(s, w)
  {
    StepOwners(s, a, w);
  }

  lemma TallyOfAnother(acts: seq<Action>, a: Action, w: WorkerId)
    requires !By(a, w)
    ensures TallyOf(acts + [a], w) == TallyOf(acts, w)
  {
    TallyAppend(acts, a, w);
  }

  /** The shared database, ledger and workers, with the run that led here. */
  class OutboxSystem {
    ghost const initial: State
    var s: State
    ghost var states: seq<State>
    ghost var actions: seq<Action>

    ghost predicate Valid()
      reads this
    {
      IsRun(states, actions) && states[0] == initial && Initial(initial) && states[|actions|] == s
    }

    constructor (initial: State)
      requires Initial(initial)
      ensures Valid() && this.initial == initial && s == initial && states == [initial] && actions == []
    {
      this.initial, s := initial, initial;
      states, actions := [initial], [];
    }

    /** Whatever happened so far, the invariant of the protocol holds. */
    lemma Safe()
      requires Valid()
      ensures Inv(s)
    {
      ReachableStatesAreSafe(states, actions, |actions|);
    }

    /** Takes one step. */
    method Do(a: Action)
      requires Valid() && Enabled(s, a)
      modifies this
      ensures Valid() && s == Apply(old(s), a)
      ensures states == old(states) + [s] && actions == old(actions) + [a]
    {
      AppendStep(states, actions, a);
      s := Apply(s, a);
      states, actions := states + [s], actions + [a];
    }

    /** Everyone but `w` acts: each scripted action is taken if it is possible at that moment. */
    method Others(w: WorkerId, script: seq<Action>)
      requires Valid() && forall a :: a in script ==> !By(a, w)
      modifies this
      ensures Valid() && WorkerOf(s, w) == old(WorkerOf(s, w)) && s.handlers == old(s.handlers)
      ensures Extends(old(actions), actions) && TallyOf(actions, w) == TallyOf(old(actions), w)
    {
      for k := 0 to |script|
        invariant Valid() && WorkerOf(s, w) == old(WorkerOf(s, w)) && s.handlers == old(s.handlers)
        invariant Extends(old(actions), actions) && TallyOf(actions, w) == TallyOf(old(actions), w)
      {
        assert !By(script[k], w);
        if Enabled(s, script[k]) {
          DoOther(w, script[k]);
        }
      }
    }

    /** A step of somebody else leaves this worker's memory and tally alone. */
    method DoOther(w: WorkerId, a: Action)
      requires Valid() && Enabled(s, a) && !By(a, w)
      modifies this
      ensures Valid() && WorkerOf(s, w) == old(WorkerOf(s, w)) && s.handlers == old(s.handlers)
      ensures Extends(old(actions), actions) && TallyOf(actions, w) == TallyOf(old(actions), w)
    {
      StepOfAnother(s, a, w);
      TallyOfAnother(actions, a, w);
      Do(a);
    }
  }

  /** The fate of one step of the worker: clock reading, and which replies arrive. */
  datatype Fate = Fate(now: int, ok: bool, applied: bool, recorded: bool, error: string, skipLocked: set<RowId>)

  /** What the surroundings do before and at the k-th step of the worker. */
  datatype Surroundings = Surroundings(others: nat -> seq<Action>, fate: nat -> Fate)

  ghost predicate Foreign(env: Surroundings, w: WorkerId) {
    forall k: nat, a :: a in env.others(k) ==> !By(a, w)
  }

  datatype HeadFate = Acknowledged | Reported | Abandoned

  function HeadTally(fate: HeadFate): Tally {
    match fate
    case Acknowledged => NOTHING.(acked := 1)
    case Reported => NOTHING.(failed := 1)
    case Abandoned => NOTHING
  }

  class OutboxProcessor {
    const system: OutboxSystem
    const workerId: WorkerId
    const leaseMs: int
    var clock: nat   // steps taken so far; indexes the surroundings

    constructor (system: OutboxSystem, workerId: WorkerId, leaseMs: int := 300_000)
      ensures this.system == system && this.workerId == workerId && this.leaseMs == leaseMs
    {
      this.system, this.workerId, this.leaseMs, clock := system, workerId, leaseMs, 0;
    }

    /** The worker's own state. */
    function Me(): Worker
      reads this, system
    {
      WorkerOf(system.s, workerId)
    }

    ghost predicate Ready(env: Surroundings)
      reads this, system
    {
      system.Valid() && Foreign(env, workerId)
    }

    ghost function Mine(): Tally
      reads this, system
    {
      TallyOf(system.actions, workerId)
    }

    /** Lets the others act, then takes one step of this worker. */
    method Step(step: WorkerStep, env: Surroundings)
      requires Ready(env) && LocalEnabled(Me(), step) && !step.Claim?
      modifies this`clock, system
      ensures Ready(env) && Extends(old(system.actions), system.actions)
      ensures system.s.handlers == old(system.s.handlers)
      ensures exists ledger :: Me() == LocalNext(old(Me()), old(system.s.handlers), ledger, step)
      ensures Mine() == Plus(old(Mine()), StepTally(step))
    {
      clock := clock + 1;
      system.Others(workerId, env.others(clock));
      StepOwners(system.s, Work(workerId, step), workerId);
      TallyAppend(system.actions, Work(workerId, step), workerId);
      system.Do(Work(workerId, step));
    }

    /** One of the steps of `runOnce` for handler `i`. */
    method StepHandler(i: nat, env: Surroundings, ghost from: HandlerState)
      requires Ready(env) && InHandlerState(Me(), i, from) && (from.Queued? || from.Running? || from.Ran?)
      modifies this`clock, system
      ensures Ready(env) && Extends(old(system.actions), system.actions)
      ensures system.s.handlers == old(system.s.handlers) && Mine() == old(Mine())
      ensures exists h :: Me() == SetHandler(old(Me()), i, h) && Follows(from, h)
    {
      var fate := env.fate(clock);
      ghost var wk := Me();
      match Me().phase.hs[i] {
        case Queued =>
          Step(Check(i, fate.ok), env);
          assert Me() == SetHandler(wk, i, Me().phase.hs[i]);
        case Running =>
          Step(Run(i, fate.ok), env);
          assert Me() == SetHandler(wk, i, Me().phase.hs[i]);
        case Ran =>
          Step(Mark(i, fate.ok, fate.ok || fate.recorded), env);
          assert Me() == SetHandler(wk, i, Me().phase.hs[i]);
      }
    }

    /** `runOnce` for handler `i` of the head record: ask the ledger, run, record. */
    method RunOnce(i: nat, env: Surroundings)
      requires Ready(env) && InHandlerState(Me(), i, Queued)
      modifies this`clock, system
      ensures Ready(env) && Extends(old(system.actions), system.actions)
      ensures system.s.handlers == old(system.s.handlers) && Mine() == old(Mine())
      ensures exists h :: Me() == SetHandler(old(Me()), i, h) && Settled(h)
    {
      ghost var wk := Me();
      StepHandler(i, env, Queued);
      if InHandlerState(Me(), i, Running) {
        StepHandler(i, env, Running);
        if InHandlerState(Me(), i, Ran) {
          StepHandler(i, env, Ran);
        }
      }
      assert Me().records == wk.records && Me().phase.hs == wk.phase.hs[i := Me().phase.hs[i]];
      assert Me() == SetHandler(wk, i, Me().phase.hs[i]);
    }

    /**
     * `publish` for the head record: every handler settles before the outcome is known, and the delivery
     * succeeds exactly if none of them rejected.
     */
    method Publish(env: Surroundings) returns (ghost settled: seq<HandlerState>)
      requires Ready(env) && Me().Busy? && |Me().records| > 0 && Me().phase.Ready?
      modifies this`clock, system
      ensures Ready(env) && Extends(old(system.actions), system.actions) && Mine() == old(Mine())
      ensures Me() == Busy(old(Me()).records, if Rejected in settled then Undelivered else Delivered)
      ensures system.s.handlers == old(system.s.handlers)
      ensures |settled| == HandlerCount(system.s.handlers, old(Me()).records[0].event.eventType)
      ensures AllSettled(settled)
    {
      ghost var records := Me().records;
      var n := HandlerCount(system.s.handlers, Me().records[0].event.eventType);
      Step(Begin, env);
      for i := 0 to n
        invariant Ready(env) && Extends(old(system.actions), system.actions) && Mine() == old(Mine())
        invariant system.s.handlers == old(system.s.handlers)
        invariant Me().Busy? && Me().records == records && Me().phase.Publishing? && |Me().phase.hs| == n
        invariant forall j :: 0 <= j < i ==> Settled(Me().phase.hs[j])
        invariant forall j :: i <= j < n ==> Me().phase.hs[j].Queued?
      {
        RunOnce(i, env);
      }
      settled := Me().phase.hs;
      Step(Settle, env);
    }

    /** Acknowledges the delivered head record; false when the statement failed. */
    method Acknowledge(env: Surroundings) returns (ok: bool)
      requires Ready(env) && Me().Busy? && |Me().records| > 0 && Me().phase.Delivered?
      modifies this`clock, system
      ensures Ready(env) && Extends(old(system.actions), system.actions)
      ensures Mine() == Plus(old(Mine()), NOTHING.(acked := if ok then 1 else 0))
      ensures Me() == if ok then Busy(old(Me()).records[1..], Phase.Ready) else Busy(old(Me()).records, Undelivered)
    {
      var fate := env.fate(clock);
      Step(Ack(fate.now, fate.ok || fate.applied, fate.ok), env);
      return fate.ok;
    }

    /** Reports the head record failed; false when that statement failed too. */
    method ReportFailure(env: Surroundings) returns (ok: bool)
      requires Ready(env) && Me().Busy? && |Me().records| > 0 && Me().phase.Undelivered?
      modifies this`clock, system
      ensures Ready(env) && Extends(old(system.actions), system.actions)
      ensures Mine() == Plus(old(Mine()), NOTHING.(failed := if ok then 1 else 0))
      ensures Me() == if ok then Busy(old(Me()).records[1..], Phase.Ready) else Idle
    {
      var fate := env.fate(clock);
      Step(Fail(fate.error, fate.now, fate.ok || fate.applied, fate.ok), env);
      return fate.ok;
    }

    /** First statement of the claim. */
    method SweepTable(env: Surroundings)
      requires Ready(env) && Me().Idle?
      modifies this`clock, system
      ensures Ready(env) && Extends(old(system.actions), system.actions)
      ensures Me() == Claiming(leaseMs) && Mine() == Plus(old(Mine()), NOTHING.(sweeps := 1))
    {
      Step(Sweep(env.fate(clock).now, leaseMs), env);
    }

    /** Time passes before the next step. */
    method LetOthersAct(env: Surroundings)
      requires Ready(env)
      modifies this`clock, system
      ensures Ready(env) && Extends(old(system.actions), system.actions)
      ensures Me() == old(Me()) && Mine() == old(Mine())
    {
      clock := clock + 1;
      system.Others(workerId, env.others(clock));
    }

    /**
     * Second statement of the claim; false when it fails or its reply is lost. A statement that takes effect takes
     * due rows of the table it meets, all of them unless the batch is full; the reply hands over their copies.
     */
    method ClaimRows(batchSize: nat, env: Surroundings)
      returns (claimed: bool, ghost issued: nat, ghost chosen: seq<RowId>)
      requires Ready(env) && Me() == Claiming(leaseMs)
      modifies this`clock, system
      ensures Ready(env) && Extends(old(system.actions), system.actions)
      ensures Mine() == Plus(old(Mine()), NOTHING.(claims := issued, claimed := |chosen|)) && |chosen| <= batchSize
      ensures issued == if env.fate(clock).applied then 1 else 0
      ensures claimed <==> env.fate(clock).applied && env.fate(clock).ok
      ensures |system.actions| > 0
      ensures var met, fate := system.states[|system.actions| - 1].rows, env.fate(clock);
              if fate.applied
              then TakesDueRows(met, system.s.rows, chosen, workerId, fate.now, leaseMs, fate.skipLocked, batchSize)
              else chosen == [] && system.s.rows == met
      ensures if claimed then Me().Busy? && Me().phase.Ready? && Delivers(system.s.rows, chosen, Me().records)
              else Me().Idle?
    {
      LetOthersAct(env);
      var fate := env.fate(clock);
      issued, chosen := ClaimStatement(batchSize, fate);
      return fate.applied && fate.ok, issued, chosen;
    }

    method ClaimStatement(batchSize: nat, fate: Fate) returns (ghost issued: nat, ghost chosen: seq<RowId>)
      requires system.Valid() && Me() == Claiming(leaseMs)
      modifies system
      ensures system.Valid() && Extends(old(system.actions), system.actions)
      ensures Mine() == Plus(old(Mine()), NOTHING.(claims := issued, claimed := |chosen|)) && |chosen| <= batchSize
      ensures issued == if fate.applied then 1 else 0
      ensures |system.actions| > 0 && system.states[|system.actions| - 1] == old(system.s)
      ensures fate.applied ==>
                TakesDueRows(old(system.s.rows), system.s.rows, chosen, workerId, fate.now, leaseMs, fate.skipLocked,
                             batchSize)
      ensures !fate.applied ==> chosen == [] && system.s.rows == old(system.s.rows)
      ensures if fate.applied && fate.ok
              then Me().Busy? && Me().phase.Ready? && Delivers(system.s.rows, chosen, Me().records)
              else Me().Idle?
    {
      var step := ChooseStatement(batchSize, fate);
      ClaimEffect(system.s, workerId, step);
      TallyAppend(system.actions, Work(workerId, step), workerId);
      system.Do(Work(workerId, step));
      issued, chosen := StepTally(step).claims, Taken(step);
    }

    /** The claim of the earliest due rows, or nothing when the statement does not run. */
    method ChooseStatement(batchSize: nat, fate: Fate) returns (step: WorkerStep)
      requires system.Valid() && Me() == Claiming(leaseMs)
      ensures Enabled(system.s, Work(workerId, step))
      ensures if fate.applied
              then (&& step == Claim(fate.now, fate.skipLocked, batchSize, Taken(step), fate.ok)
                    && |Taken(step)| <= batchSize)
              else step == Abandon
    {
      if !fate.applied {
        return Abandon;
      }
      var from := Candidates(system.s.rows, fate.now, leaseMs, fate.skipLocked);
      var picked := SelectEarliest(system.s.rows, from, batchSize);
      return Claim(fate.now, fate.skipLocked, batchSize, picked, fate.ok);
    }

    /**
     * Delivers the head record and acknowledges it, or else reports it failed, or else gives the batch up.
     * Only a delivery in which every handler settled without rejecting is acknowledged, and then every handler
     * of the event has completed.
     */
    method DeliverHead(env: Surroundings) returns (fate: HeadFate, ghost settled: seq<HandlerState>)
      requires Ready(env) && Me().Busy? && |Me().records| > 0 && Me().phase.Ready?
      modifies this`clock, system
      ensures Ready(env) && Extends(old(system.actions), system.actions)
      ensures Mine() == Plus(old(Mine()), HeadTally(fate))
      ensures Me() == if fate.Abandoned? then Idle else Busy(old(Me()).records[1..], Phase.Ready)
      ensures |settled| == HandlerCount(old(system.s.handlers), old(Me()).records[0].event.eventType)
      ensures AllSettled(settled)
      ensures fate.Acknowledged? ==>
                Rejected !in settled && AllHandlersCompleted(system.s, old(Me()).records[0].event)
    {
      settled := Publish(env);
      if Me().phase.Delivered? {
        ghost var states, actions, event := system.states, system.actions, Me().records[0].event;
        DeliveredIsComplete();
        var acknowledged := Acknowledge(env);
        if acknowledged {
          CompletedStays(states, actions, event);
          return Acknowledged, settled;
        }
      }
      var reported := ReportFailure(env);
      return if reported then Reported else Abandoned, settled;
    }

    lemma DeliveredIsComplete()
      requires system.Valid() && Me().Busy? && |Me().records| > 0 && Me().phase.Delivered?
      ensures AllHandlersCompleted(system.s, Me().records[0].event)
    {
      system.Safe();
      assert WorkerSound(system.s, system.s.workers[workerId]);
    }

    /** What had completed in an earlier state of the run has completed now. */
    lemma CompletedStays(states: seq<State>, actions: seq<Action>, event: Event)
      requires system.Valid() && IsRun(states, actions) && states[0] == system.initial
      requires Extends(actions, system.actions) && AllHandlersCompleted(states[|actions|], event)
      ensures AllHandlersCompleted(system.s, event)
    {
      SameStates(states, actions, system.states, system.actions, |actions|);
      CompletionsKept(system.states, system.actions, |actions|, |system.actions|);
    }

    /**
     * One batch: claim, then deliver and acknowledge each record in turn. A rejected delivery or a
     * failing acknowledgement is reported as a failure; a failing report abandons the rest. Whatever others did
     * meanwhile, a PROCESSED row has had all its handlers completed, and copies agree with the rows they hold.
     */
    method ProcessBatch(batchSize: nat := 100, env: Surroundings) returns (processed: nat, finished: bool)
      requires Ready(env) && Me().Idle?
      modifies this`clock, system
      ensures Ready(env) && Extends(old(system.actions), system.actions) && Me().Idle?
      ensures Extends(old(system.states), system.states) && Agreement(system.s) && ProcessedSound(system.s)
      ensures Mine().acked == old(Mine()).acked + processed && Mine().sweeps == old(Mine()).sweeps + 1
      ensures old(Mine()).claims <= Mine().claims <= old(Mine()).claims + 1
      ensures finished ==> Mine().claims == old(Mine()).claims + 1
      // every claimed record was acknowledged or reported failed, unless the batch was abandoned
      ensures var claimed := Mine().claimed - old(Mine()).claimed;
              var failed := Mine().failed - old(Mine()).failed;
              claimed >= processed + failed && (finished ==> claimed == processed + failed)
    {
      ghost var states, actions := system.states, system.actions;
      SweepTable(env);
      var claimed, _, _ := ClaimRows(batchSize, env);
      processed, finished := 0, false;
      if claimed {
        ghost var failed;
        processed, finished, failed := DeliverAll(env);
      }
      SameStates(states, actions, system.states, system.actions, |actions|);
      system.Safe();
    }

    /** The delivery loop over the claimed records; false when it was abandoned. */
    method DeliverAll(env: Surroundings) returns (processed: nat, finished: bool, ghost failed: nat)
      requires Ready(env) && Me().Busy? && Me().phase.Ready?
      modifies this`clock, system
      ensures Ready(env) && Extends(old(system.actions), system.actions) && Me().Idle?
      ensures Mine() == Plus(old(Mine()), NOTHING.(acked := processed, failed := failed))
      ensures processed + failed <= |old(Me()).records|
      ensures finished ==> processed + failed == |old(Me()).records|
    {
      processed, failed := 0, 0;
      ghost var tally, n := Mine(), |Me().records|;
      while |Me().records| > 0
        invariant Ready(env) && Extends(old(system.actions), system.actions)
        invariant Me().Busy? && Me().phase.Ready? && processed + failed + |Me().records| == n
        invariant Mine() == Plus(tally, NOTHING.(acked := processed, failed := failed))
        decreases |Me().records|
      {
        var fate, _ := DeliverHead(env);
        match fate {
          case Acknowledged => processed := processed + 1;
          case Reported => failed := failed + 1;
          case Abandoned => return processed, false, failed;
        }
      }
      EndBatch(env);
      return processed, true, failed;
    }

    method EndBatch(env: Surroundings)
      requires Ready(env) && Me().Busy? && Me().phase.Ready? && |Me().records| == 0
      modifies this`clock, system
      ensures Ready(env) && Extends(old(system.actions), system.actions) && Me().Idle? && Mine() == old(Mine())
    {
      assert Me() == Busy([], Phase.Ready);
      Step(Finish, env);
    }
  }

  predicate Settled(h: HandlerState) { h.Fulfilled? || h.Rejected? }

  predicate AllSettled(hs: seq<HandlerState>) { forall h :: h in hs ==> Settled(h) }

  /** The states one step of `runOnce` can lead to. */
  predicate Follows(from: HandlerState, h: HandlerState) {
    match from
    case Queued => h.Fulfilled? || h.Running? || h.Rejected?
    case Running => h.Ran? || h.Rejected?
    case Ran => h.Fulfilled? || h.Rejected?
    case _ => false
  }

  /** The polling loop's guard around one processor. */
  class OutboxWorker {
    const processor: OutboxProcessor
    var timer: bool           // whether an armed timer is remembered
    ghost var armed: nat      // timers armed and not cleared
    var running: bool
    var inFlight: bool

    /**
     * While no batch is in flight the worker holds no copies; a running worker has one armed timer, a stopped
     * one none.
     */
    ghost predicate Valid()
      reads this, processor, processor.system
    {
      && processor.system.Valid() && (!inFlight ==> processor.Me().Idle?)
      && timer == running && armed == (if running then 1 else 0)
    }

    constructor (processor: OutboxProcessor)
      requires processor.system.Valid() && processor.Me().Idle?
      ensures Valid() && this.processor == processor && !running && !inFlight
    {
      this.processor := processor;
      timer, armed, running, inFlight := false, 0, false, false;
    }

    method Start()
      requires Valid()
      modifies this`running, this`timer, this`armed
      ensures Valid() && running && armed == 1
    {
      if running {
        return;
      }
      running := true;
      timer, armed := true, armed + 1;
    }

    method Stop()
      requires Valid()
      modifies this`running, this`timer, this`armed
      ensures Valid() && !running && armed == 0
    {
      if timer {
        timer, armed := false, armed - 1;
      }
      running := false;
    }

    /** Runs one batch, unless stopped, paused, or already running one. */
    method Tick(paused: bool, env: Surroundings)
      requires Valid() && Foreign(env, processor.workerId)
      modifies this`inFlight, processor`clock, processor.system
      ensures Valid() && inFlight == old(inFlight)
      ensures Extends(old(processor.system.actions), processor.system.actions)
      ensures !old(running) || old(inFlight) || paused ==>
                (&& processor.system.s == old(processor.system.s)
                 && processor.system.actions == old(processor.system.actions))
      ensures old(running) && !old(inFlight) && !paused ==> processor.Mine().sweeps == old(processor.Mine()).sweeps + 1
    {
      if !running || inFlight {
        return;
      }
      inFlight := true;
      if !paused {
        var _, _ := processor.ProcessBatch(100, env);
      }
      inFlight := false;
    }
  }
}
