/**
 * Exactly-once delivery per handler, and precisely what can break it: overlapping deliveries of one
 * event, and completions whose recording failed.
 */
module OutboxDelivery {
  import opened OutboxRows
  import opened HandlerKeys
  import opened OutboxProtocol
  import opened OutboxSafety

  predicate Delivering(wk: Worker) {
    wk.Busy? && |wk.records| > 0 && wk.phase.Publishing?
  }

  predicate Delivers(wk: Worker, eventId: string) {
    Delivering(wk) && wk.records[0].event.eventId == eventId
  }

  /** The event is not being published by two workers at once. */
  ghost predicate NoOverlap(s: State, eventId: string) {
    forall v, w ::
      v in s.workers && w in s.workers && Delivers(s.workers[v], eventId) && Delivers(s.workers[w], eventId) ==> v == w
  }

  /** Every delivery of the event in progress still holds its lease. */
  ghost predicate DeliveriesHoldLease(s: State, eventId: string) {
    forall w :: w in s.workers && Delivers(s.workers[w], eventId) ==> HoldsLease(s.rows, s.workers[w].records[0].id, w)
  }

  /** Deliveries of an event overlap only after a lease ran out during one of them. */
  lemma LeasedDeliveriesDoNotOverlap(s: State, eventId: string)
    requires Inv(s) && DeliveriesHoldLease(s, eventId)
    ensures NoOverlap(s, eventId)
  {
    forall v, w | v in s.workers && w in s.workers && Delivers(s.workers[v], eventId) && Delivers(s.workers[w], eventId)
      ensures v == w
    {
      assert CopyAgrees(s.rows, v, s.workers[v].records[0]);
      assert CopyAgrees(s.rows, w, s.workers[w].records[0]);
    }
  }

  predicate RunIn(wk: Worker, r: HandlerRun, h: HandlerState) {
    Delivering(wk) && r.index < |wk.phase.hs| && RunOf(wk.records[0].event, r.index) == r && wk.phase.hs[r.index] == h
  }

  ghost predicate SomeoneRan(s: State, r: HandlerRun) {
    exists w :: w in s.workers && RunIn(s.workers[w], r, Ran)
  }

  /** What is known about one handler's completions of one event. */
  ghost predicate Account(s: State, r: HandlerRun) {
    && s.completed[r] <= s.unmarked[r] + 1
    && (KeyOf(r) !in s.ledger && !SomeoneRan(s, r) ==> s.completed[r] == s.unmarked[r])
    && (forall w :: w in s.workers && RunIn(s.workers[w], r, Running) ==> KeyOf(r) !in s.ledger)
    && (forall w :: w in s.workers && RunIn(s.workers[w], r, Ran) ==>
          KeyOf(r) !in s.ledger && s.completed[r] == s.unmarked[r] + 1)
  }

  lemma {:induction false} UnrecordedCount(event: Event, hs: seq<HandlerState>, r: HandlerRun)
    ensures UnrecordedRuns(event, hs)[r] ==
            if r.index < |hs| && RunOf(event, r.index) == r && hs[r.index].Ran? then 1 else 0
  {
    if hs != [] {
      UnrecordedCount(event, hs[..|hs| - 1], r);
    }
  }

  /** The run a handler step is about. */
  function Subject(s: State, w: WorkerId, index: nat): HandlerRun
    requires Publishes(WorkerOf(s, w), index)
  {
    RunOf(WorkerOf(s, w).records[0].event, index)
  }

  lemma SubjectNamed(s: State, w: WorkerId, index: nat)
    requires DeliveriesSound(s) && Publishes(WorkerOf(s, w), index)
    ensures Subject(s, w, index).eventType in s.handlers
  {
    assert WorkerSound(s, WorkerOf(s, w));
  }

  /** Where its deliveries do not overlap, no other worker is delivering the event this worker delivers. */
  lemma OnlyDeliverer(s: State, w: WorkerId, v: WorkerId, r: HandlerRun, h: HandlerState)
    requires NoOverlap(s, r.eventId) && w in s.workers && Delivers(s.workers[w], r.eventId)
    requires v in s.workers && RunIn(s.workers[v], r, h)
    ensures v == w
  {
  }

  lemma RunStepAccount(s: State, w: WorkerId, i: nat, ok: bool, r: HandlerRun)
    requires Inv(s) && NoOverlap(s, r.eventId) && WorkerEnabled(s, w, Run(i, ok))
    requires r.eventType in s.handlers && Account(s, r)
    ensures Account(Apply(s, Work(w, Run(i, ok))), r)
  {
    var t := Apply(s, Work(w, Run(i, ok)));
    var subject := Subject(s, w, i);
    assert RunIn(s.workers[w], subject, Running);
    OthersKeepTheirRuns(s, Work(w, Run(i, ok)), r);
    if r == subject {
      assert !SomeoneRan(s, r) by {
        forall v | v in s.workers && RunIn(s.workers[v], r, Ran) ensures false {
          OnlyDeliverer(s, w, v, r, Ran);
        }
      }
      assert ok ==> RunIn(t.workers[w], r, Ran);
    } else {
      SameWorkerOtherRun(s, Work(w, Run(i, ok)), r);
    }
  }

  /** Workers other than the one stepping are where they were. */
  lemma OthersKeepTheirRuns(s: State, a: Action, r: HandlerRun)
    requires Enabled(s, a) && a.Work?
    ensures forall v :: v != a.worker ==>
      (v in Apply(s, a).workers <==> v in s.workers) &&
      (v in s.workers ==> Apply(s, a).workers[v] == s.workers[v])
  {
  }

  lemma OtherHandlersStay(s: State, a: Action, r: HandlerRun)
    requires Enabled(s, a) && a.Work? && (a.step.Run? || a.step.Mark? || a.step.Check?)
    requires r != Subject(s, a.worker, a.step.index)
    ensures a.worker in s.workers && a.worker in Apply(s, a).workers
    ensures forall h :: RunIn(Apply(s, a).workers[a.worker], r, h) <==> RunIn(s.workers[a.worker], r, h)
  {
  }

  /** A handler step moves only its own handler. */
  lemma SameWorkerOtherRun(s: State, a: Action, r: HandlerRun)
    requires Enabled(s, a) && a.Work? && (a.step.Run? || a.step.Mark? || a.step.Check?)
    requires r != Subject(s, a.worker, a.step.index)
    ensures forall h :: RunIn(Apply(s, a).workers[a.worker], r, h) <==> RunIn(s.workers[a.worker], r, h)
    ensures SomeoneRan(Apply(s, a), r) <==> SomeoneRan(s, r)
  {
    var t := Apply(s, a);
    OthersKeepTheirRuns(s, a, r);
    OtherHandlersStay(s, a, r);
    if SomeoneRan(s, r) {
      var v :| v in s.workers && RunIn(s.workers[v], r, Ran);
      assert RunIn(t.workers[v], r, Ran);
    }
    if SomeoneRan(t, r) {
      var v :| v in t.workers && RunIn(t.workers[v], r, Ran);
      assert v in s.workers && RunIn(s.workers[v], r, Ran);
    }
  }

  lemma CheckStepAccount(s: State, w: WorkerId, i: nat, replied: bool, r: HandlerRun)
    requires Inv(s) && WorkerEnabled(s, w, Check(i, replied))
    requires r.eventType in s.handlers && Account(s, r)
    ensures Account(Apply(s, Work(w, Check(i, replied))), r)
  {
    var a := Work(w, Check(i, replied));
    var t := Apply(s, a);
    OthersKeepTheirRuns(s, a, r);
    var subject := Subject(s, w, i);
    if r == subject {
      if SomeoneRan(s, r) {
        var v :| v in s.workers && RunIn(s.workers[v], r, Ran);
        assert v != w;
        assert RunIn(t.workers[v], r, Ran);
      }
    } else {
      SameWorkerOtherRun(s, a, r);
    }
  }

  lemma MarkStepAccount(s: State, w: WorkerId, i: nat, ok: bool, stored: bool, r: HandlerRun)
    requires Inv(s) && NoOverlap(s, r.eventId) && WorkerEnabled(s, w, Mark(i, ok, stored))
    requires r.eventType in s.handlers && Account(s, r)
    ensures Account(Apply(s, Work(w, Mark(i, ok, stored))), r)
  {
    var a := Work(w, Mark(i, ok, stored));
    var t := Apply(s, a);
    OthersKeepTheirRuns(s, a, r);
    SubjectNamed(s, w, i);
    var subject := Subject(s, w, i);
    assert RunIn(s.workers[w], subject, Ran);
    if r == subject {
      forall v, h: HandlerState | v in t.workers && RunIn(t.workers[v], r, h) && (h.Running? || h.Ran?)
        ensures false
      {
        if v != w {
          OnlyDeliverer(s, w, v, r, h);
        }
      }
    } else {
      SameWorkerOtherRun(s, a, r);
      if KeyOf(r) == KeyOf(subject) {
        HandlerKeyInjective(r.eventId, r.eventType, r.index, subject.eventId, subject.eventType, subject.index);
      }
      assert KeyOf(r) in t.ledger <==> KeyOf(r) in s.ledger;
    }
  }

  /** A worker that stops loses its unrecorded completions; they are accounted as unmarked. */
  lemma AbandonStepAccount(s: State, w: WorkerId, r: HandlerRun)
    requires NoOverlap(s, r.eventId) && Account(s, r)
    ensures Account(Apply(s, Work(w, Abandon)), r)
  {
    var a := Work(w, Abandon);
    var t := Apply(s, a);
    OthersKeepTheirRuns(s, a, r);
    var wk := WorkerOf(s, w);
    if Publishes(wk, 0) {
      UnrecordedCount(wk.records[0].event, wk.phase.hs, r);
    }
    if RunIn(wk, r, Ran) {
      forall v, h: HandlerState | v in s.workers && v != w && RunIn(s.workers[v], r, h)
        ensures false
      {
        OnlyDeliverer(s, w, v, r, h);
      }
    } else if SomeoneRan(s, r) {
      var v :| v in s.workers && RunIn(s.workers[v], r, Ran);
      assert RunIn(t.workers[v], r, Ran);
    }
  }

  lemma NotRunningAroundQuietStep(s: State, a: Action, r: HandlerRun)
    requires Enabled(s, a) && a.Work?
    requires !a.step.Check? && !a.step.Run? && !a.step.Mark? && !a.step.Abandon?
    ensures !RunIn(WorkerOf(s, a.worker), r, Ran)
    ensures !RunIn(Apply(s, a).workers[a.worker], r, Ran) && !RunIn(Apply(s, a).workers[a.worker], r, Running)
  {
    var wk := WorkerOf(s, a.worker);
    if a.step.Settle? && Delivering(wk) && r.index < |wk.phase.hs| {
      assert wk.phase.hs[r.index] in wk.phase.hs;
    }
  }

  /** Steps of a worker outside its handlers. */
  lemma QuietStepAccount(s: State, a: Action, r: HandlerRun)
    requires Enabled(s, a) && a.Work? && Account(s, r)
    requires !a.step.Check? && !a.step.Run? && !a.step.Mark? && !a.step.Abandon?
    ensures Account(Apply(s, a), r)
  {
    var t := Apply(s, a);
    OthersKeepTheirRuns(s, a, r);
    NotRunningAroundQuietStep(s, a, r);
    assert t.ledger == s.ledger && t.completed == s.completed && t.unmarked == s.unmarked;
    if SomeoneRan(s, r) {
      var v :| v in s.workers && RunIn(s.workers[v], r, Ran);
      assert RunIn(t.workers[v], r, Ran);
    }
  }

  lemma OperatorStepAccount(s: State, a: Action, r: HandlerRun)
    requires Enabled(s, a) && !a.Work? && a != ForgetKey(KeyOf(r)) && Account(s, r)
    ensures Account(Apply(s, a), r)
  {
    var t := Apply(s, a);
    assert t.workers == s.workers && t.completed == s.completed && t.unmarked == s.unmarked;
    assert KeyOf(r) in t.ledger <==> KeyOf(r) in s.ledger;
    if SomeoneRan(s, r) {
      var v :| v in s.workers && RunIn(s.workers[v], r, Ran);
      assert v in t.workers && RunIn(t.workers[v], r, Ran);
    }
  }

  /**
   * One step of anyone keeps the account of one handler and event, unless its deliveries overlap or its record
   * expires.
   */
  lemma StepKeepsAccount(s: State, a: Action, r: HandlerRun)
    requires Inv(s) && NoOverlap(s, r.eventId) && Enabled(s, a) && a != ForgetKey(KeyOf(r))
    requires r.eventType in s.handlers && Account(s, r)
    ensures Account(Apply(s, a), r)
  {
    if !a.Work? {
      OperatorStepAccount(s, a, r);
    } else {
      match a.step
      case Check(i, replied) => CheckStepAccount(s, a.worker, i, replied, r);
      case Run(i, ok) => RunStepAccount(s, a.worker, i, ok, r);
      case Mark(i, ok, stored) => MarkStepAccount(s, a.worker, i, ok, stored, r);
      case Abandon => AbandonStepAccount(s, a.worker, r);
      case _ => QuietStepAccount(s, a, r);
    }
  }

  /** The deliveries of this handler's event never overlap, and its completion record does not expire. */
  ghost predicate Undisturbed(ss: seq<State>, acts: seq<Action>, n: nat, r: HandlerRun)
    requires n < |ss| && n <= |acts|
  {
    forall k :: 0 <= k < n ==> NoOverlap(ss[k], r.eventId) && acts[k] != ForgetKey(KeyOf(r))
  }

  lemma {:induction false} AccountInRuns(ss: seq<State>, acts: seq<Action>, n: nat, r: HandlerRun)
    requires IsRun(ss, acts) && Initial(ss[0]) && n < |ss| && r.eventType in ss[n].handlers
    requires Undisturbed(ss, acts, n, r)
    ensures Account(ss[n], r)
  {
    if n > 0 {
      assert Step(ss[n - 1], acts[n - 1], ss[n - 1 + 1]);
      HistoryOnlyGrows(ss[n - 1], acts[n - 1]);
      AccountInRuns(ss, acts, n - 1, r);
      ReachableStatesAreSafe(ss, acts, n - 1);
      StepKeepsAccount(ss[n - 1], acts[n - 1], r);
    }
  }

  /**
   * For one event and handler, over any number of deliveries of it that do not overlap, while its own
   * completion record does not expire: completions exceed the completions whose recording failed by at most one.
   * Other events may overlap and other records expire.
   */
  lemma CompletionsBounded(ss: seq<State>, acts: seq<Action>, n: nat, r: HandlerRun)
    requires IsRun(ss, acts) && Initial(ss[0]) && n < |ss| && r.eventType in ss[n].handlers
    requires Undisturbed(ss, acts, n, r)
    ensures ss[n].completed[r] <= 1 + ss[n].unmarked[r]
  {
    AccountInRuns(ss, acts, n, r);
  }

  /**
   * If every recording of it succeeded and the deliveries of its event did not overlap, a handler of a PROCESSED
   * event ran exactly once, however many deliveries were retried, reclaimed or begun late.
   */
  lemma ProcessedExactlyOnce(ss: seq<State>, acts: seq<Action>, n: nat, id: RowId, i: nat)
    requires IsRun(ss, acts) && Initial(ss[0]) && n < |ss|
    requires id in ss[n].rows && ss[n].rows[id].status.Processed?
    requires i < HandlerCount(ss[n].handlers, ss[n].rows[id].event.eventType)
    requires Undisturbed(ss, acts, n, RunOf(ss[n].rows[id].event, i))
    requires RunOf(ss[n].rows[id].event, i) !in ss[n].unmarked
    ensures ss[n].completed[RunOf(ss[n].rows[id].event, i)] == 1
  {
    CompletionsBounded(ss, acts, n, RunOf(ss[n].rows[id].event, i));
    ProcessedMeansAllHandlersRan(ss, acts, n, id, i);
  }
}
