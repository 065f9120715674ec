/**
 * Exactly when a handler completes an event more often than its recordings account for. Every completion
 * is recorded, unrecorded for good, or waits for its recording in a delivery; what can exceed the
 * promised bound is two deliveries that both got past the ledger check.
 */
module OutboxOverlap {
  import opened OutboxRows
  import opened OutboxProtocol
  import opened OutboxSafety
  import opened OutboxDelivery

  /** The workers whose current delivery has this handler in the given state. */
  function WorkersIn(s: State, r: HandlerRun, h: HandlerState): set<WorkerId> {
    Satisfying(s.workers, Has(r, h))
  }

  /** Completions are conserved: each is recorded, lost, or waiting in a delivery. */
  ghost predicate Conserved(s: State, r: HandlerRun) {
    s.completed[r] == s.unmarked[r] + s.marked[r] + |WorkersIn(s, r, Ran)|
  }

  function Bit(b: bool): nat { if b then 1 else 0 }

  function Satisfying(workers: map<WorkerId, Worker>, p: Worker -> bool): set<WorkerId> {
    set w | w in workers && p(workers[w])
  }

  function Has(r: HandlerRun, h: HandlerState): Worker -> bool {
    wk => RunIn(wk, r, h)
  }

  /** Replacing one worker changes a count by that worker's contribution. */
  lemma CountUpdate(workers: map<WorkerId, Worker>, w: WorkerId, wk: Worker, p: Worker -> bool)
    ensures |Satisfying(workers[w := wk], p)| - |Satisfying(workers, p)|
         == Bit(p(wk)) - Bit(w in workers && p(workers[w]))
  {
    var before, after := Satisfying(workers, p), Satisfying(workers[w := wk], p);
    SizeWithout(before, w);
    SizeWithout(after, w);
    assert after - {w} == before - {w};
  }

  lemma SizeWithout(all: set<WorkerId>, w: WorkerId)
    ensures |all| == |all - {w}| + Bit(w in all)
  {
    if w in all {
      assert all == (all - {w}) + {w};
    } else {
      assert all == all - {w};
    }
  }

  /** Only the stepping worker's contribution changes. */
  lemma CountChange(s: State, a: Action, r: HandlerRun, h: HandlerState)
    requires Enabled(s, a) && a.Work?
    ensures |WorkersIn(Apply(s, a), r, h)| - |WorkersIn(s, r, h)|
         == Bit(RunIn(WorkerNext(s, a.worker, a.step), r, h)) - Bit(RunIn(WorkerOf(s, a.worker), r, h))
    ensures WorkerOf(Apply(s, a), a.worker) == WorkerNext(s, a.worker, a.step)
  {
    var wk := WorkerNext(s, a.worker, a.step);
    CountUpdate(s.workers, a.worker, wk, Has(r, h));
    assert Apply(s, a).workers == s.workers[a.worker := wk];
  }

  /** Completions not accounted for by recordings, lost ones, and this worker's own. */
  function Unbalanced(s: State, w: WorkerId, r: HandlerRun): int {
    s.completed[r] - s.unmarked[r] - s.marked[r] - Bit(RunIn(WorkerOf(s, w), r, Ran))
  }

  /** A worker step keeps the balance of its own contribution. */
  lemma StepBalance(s: State, a: Action, r: HandlerRun)
    requires Enabled(s, a) && a.Work?
    ensures Unbalanced(Apply(s, a), a.worker, r) == Unbalanced(s, a.worker, r)
  {
    var wk := WorkerOf(s, a.worker);
    if a.step.Abandon? {
      if Publishes(wk, 0) {
        UnrecordedCount(wk.records[0].event, wk.phase.hs, r);
      }
    } else if a.step.Check? || a.step.Run? || a.step.Mark? {
      HandlerStepBalance(s, a, r);
    } else {
      NotRunningAroundQuietStep(s, a, r);
    }
  }

  lemma HandlerStepBalance(s: State, a: Action, r: HandlerRun)
    requires Enabled(s, a) && a.Work? && (a.step.Check? || a.step.Run? || a.step.Mark?)
    ensures Unbalanced(Apply(s, a), a.worker, r) == Unbalanced(s, a.worker, r)
  {
    if r != Subject(s, a.worker, a.step.index) {
      SameWorkerOtherRun(s, a, r);
    }
  }

  lemma ConservedKept(s: State, a: Action, r: HandlerRun)
    requires Enabled(s, a) && Conserved(s, r)
    ensures Conserved(Apply(s, a), r)
  {
    if a.Work? {
      CountChange(s, a, r, Ran);
      StepBalance(s, a, r);
    } else {
      assert WorkersIn(Apply(s, a), r, Ran) == WorkersIn(s, r, Ran);
    }
  }

  /**
   * In every reachable state, with no assumption about overlaps or expiry, a handler's completions are
   * those recorded, those whose recording failed, and those waiting for their recording.
   */
  lemma {:induction false} CompletionsConserved(ss: seq<State>, acts: seq<Action>, n: nat, r: HandlerRun)
    requires IsRun(ss, acts) && Initial(ss[0]) && n < |ss|
    ensures ss[n].completed[r] == ss[n].unmarked[r] + ss[n].marked[r] + |WorkersIn(ss[n], r, Ran)|
  {
    if n > 0 {
      CompletionsConserved(ss, acts, n - 1, r);
      assert Step(ss[n - 1], acts[n - 1], ss[n - 1 + 1]);
      ConservedKept(ss[n - 1], acts[n - 1], r);
    }
  }

  // ------------------------------------------------------------ when the bound can be exceeded

  /** The handler completed at most once more than its failed recordings account for. */
  predicate Within(s: State, r: HandlerRun) {
    s.completed[r] <= s.unmarked[r] + 1
  }

  /** Past the ledger check: the handler was started and its completion is not recorded yet. */
  function PastCheck(s: State, r: HandlerRun): set<WorkerId> {
    WorkersIn(s, r, Running) + WorkersIn(s, r, Ran)
  }

  /** A step of a handler that is past its check. */
  predicate HandlerStep(a: Action) {
    a.Work? && (a.step.Run? || a.step.Mark?)
  }

  ghost predicate OnlyHandlerSteps(acts: seq<Action>) {
    forall i :: 0 <= i < |acts| ==> HandlerStep(acts[i])
  }

  /** Handlers that are already past their check can carry the completions beyond the bound. */
  ghost predicate CanExceed(s: State, r: HandlerRun) {
    exists ss: seq<State>, acts: seq<Action> ::
      IsRun(ss, acts) && ss[0] == s && OnlyHandlerSteps(acts) && !Within(ss[|acts|], r)
  }

  /** Completions that are or may still become recorded. */
  function Potential(s: State, r: HandlerRun): nat {
    s.marked[r] + |WorkersIn(s, r, Running)| + |WorkersIn(s, r, Ran)|
  }

  lemma PotentialFalls(s: State, a: Action, r: HandlerRun)
    requires Enabled(s, a) && HandlerStep(a)
    ensures Potential(Apply(s, a), r) <= Potential(s, r)
  {
    CountChange(s, a, r, Running);
    CountChange(s, a, r, Ran);
    if r != Subject(s, a.worker, a.step.index) {
      SameWorkerOtherRun(s, a, r);
    }
  }

  lemma {:induction false} PotentialBounds(ss: seq<State>, acts: seq<Action>, n: nat, r: HandlerRun)
    requires IsRun(ss, acts) && OnlyHandlerSteps(acts) && Conserved(ss[0], r) && n < |ss|
    ensures Conserved(ss[n], r) && Potential(ss[n], r) <= Potential(ss[0], r)
  {
    if n > 0 {
      PotentialBounds(ss, acts, n - 1, r);
      assert Step(ss[n - 1], acts[n - 1], ss[n - 1 + 1]);
      ConservedKept(ss[n - 1], acts[n - 1], r);
      PotentialFalls(ss[n - 1], acts[n - 1], r);
    }
  }

  /** Some started handler completes. */
  lemma CompleteOne(s: State, r: HandlerRun, w: WorkerId) returns (a: Action)
    requires w in WorkersIn(s, r, Running)
    ensures HandlerStep(a) && Enabled(s, a)
    ensures |WorkersIn(Apply(s, a), r, Running)| == |WorkersIn(s, r, Running)| - 1
    ensures |WorkersIn(Apply(s, a), r, Ran)| == |WorkersIn(s, r, Ran)| + 1
    ensures Apply(s, a).marked == s.marked
  {
    a := Work(w, Run(r.index, true));
    CountChange(s, a, r, Running);
    CountChange(s, a, r, Ran);
    assert RunIn(WorkerOf(s, w), r, Running) && RunIn(WorkerOf(Apply(s, a), w), r, Ran);
  }

  /** With potential to spare, letting started handlers complete exceeds the bound. */
  lemma {:induction false} StartedHandlersExceed(s: State, r: HandlerRun)
    requires Conserved(s, r) && Potential(s, r) >= 2
    ensures CanExceed(s, r)
    decreases |WorkersIn(s, r, Running)|
  {
    if !Within(s, r) {
      assert IsRun([s], []) && [s][0] == s && OnlyHandlerSteps([]);
    } else {
      assert WorkersIn(s, r, Running) != {};
      var w :| w in WorkersIn(s, r, Running);
      var a := CompleteOne(s, r, w);
      ConservedKept(s, a, r);
      StartedHandlersExceed(Apply(s, a), r);
      var ss: seq<State>, acts: seq<Action> :|
        IsRun(ss, acts) && ss[0] == Apply(s, a) && OnlyHandlerSteps(acts) && !Within(ss[|acts|], r);
      PrependStep(s, a, ss, acts);
      var ss', acts' := [s] + ss, [a] + acts;
      assert OnlyHandlerSteps(acts') && ss'[0] == s && !Within(ss'[|acts'|], r);
    }
  }

  lemma PrependStep(s: State, a: Action, ss: seq<State>, acts: seq<Action>)
    requires IsRun(ss, acts) && Enabled(s, a) && ss[0] == Apply(s, a)
    ensures IsRun([s] + ss, [a] + acts)
  {
    var ss', acts' := [s] + ss, [a] + acts;
    forall i | 0 <= i < |acts'|
      ensures Step(ss'[i], acts'[i], ss'[i + 1])
    {
      if i > 0 {
        assert Step(ss[i - 1], acts[i - 1], ss[i - 1 + 1]);
      }
    }
  }

  lemma PastCheckCount(s: State, r: HandlerRun)
    ensures |PastCheck(s, r)| == |WorkersIn(s, r, Running)| + |WorkersIn(s, r, Ran)|
  {
    assert WorkersIn(s, r, Running) !! WorkersIn(s, r, Ran);
  }

  /**
   * From a reachable state within the bound, the started handlers can carry a handler's completions of an
   * event beyond it exactly when two workers are past the ledger check for it, or one has started it
   * although a completion is already recorded.
   */
  lemma ExceedsIff(ss: seq<State>, acts: seq<Action>, n: nat, r: HandlerRun)
    requires IsRun(ss, acts) && Initial(ss[0]) && n < |ss| && Within(ss[n], r)
    ensures CanExceed(ss[n], r) <==>
            |PastCheck(ss[n], r)| >= 2 || (r in ss[n].marked && WorkersIn(ss[n], r, Running) != {})
  {
    var s := ss[n];
    CompletionsConserved(ss, acts, n, r);
    PastCheckCount(s, r);
    if CanExceed(s, r) {
      var ss': seq<State>, acts': seq<Action> :|
        IsRun(ss', acts') && ss'[0] == s && OnlyHandlerSteps(acts') && !Within(ss'[|acts'|], r);
      PotentialBounds(ss', acts', |acts'|, r);
    }
    if Potential(s, r) >= 2 {
      StartedHandlersExceed(s, r);
    }
    assert WorkersIn(s, r, Running) != {} <==> |WorkersIn(s, r, Running)| > 0;
  }

  /** The handler completes although an earlier completion is recorded or waits for its recording. */
  predicate Repeats(s: State, a: Action, r: HandlerRun) {
    && Enabled(s, a) && a.Work? && a.step.Run? && a.step.ok && Subject(s, a.worker, a.step.index) == r
    && (r in s.marked || WorkersIn(s, r, Ran) != {})
  }

  ghost predicate WithinUpTo(ss: seq<State>, n: nat, r: HandlerRun)
    requires n < |ss|
  {
    forall k :: 0 <= k <= n ==> Within(ss[k], r)
  }

  ghost predicate NeverRepeats(ss: seq<State>, acts: seq<Action>, n: nat, r: HandlerRun)
    requires n < |ss| && n <= |acts|
  {
    forall i :: 0 <= i < n ==> !Repeats(ss[i], acts[i], r)
  }

  /**
   * Over a whole run the bound holds throughout exactly when the handler never completes while an earlier
   * completion is recorded or waits for its recording in another delivery.
   */
  lemma {:induction false} WithinThroughoutIff(ss: seq<State>, acts: seq<Action>, n: nat, r: HandlerRun)
    requires IsRun(ss, acts) && Initial(ss[0]) && n < |ss|
    ensures WithinUpTo(ss, n, r) <==> NeverRepeats(ss, acts, n, r)
  {
    if n > 0 {
      WithinThroughoutIff(ss, acts, n - 1, r);
      LastStepWithin(ss, acts, n - 1, r);
      assert WithinUpTo(ss, n, r) <==> WithinUpTo(ss, n - 1, r) && Within(ss[n], r);
      assert NeverRepeats(ss, acts, n, r) <==> NeverRepeats(ss, acts, n - 1, r) && !Repeats(ss[n - 1], acts[n - 1], r);
    }
  }

  lemma LastStepWithin(ss: seq<State>, acts: seq<Action>, m: nat, r: HandlerRun)
    requires IsRun(ss, acts) && Initial(ss[0]) && m < |acts|
    ensures Within(ss[m], r) ==> (Within(ss[m + 1], r) <==> !Repeats(ss[m], acts[m], r))
  {
    CompletionsConserved(ss, acts, m, r);
    assert Step(ss[m], acts[m], ss[m + 1]);
    if Within(ss[m], r) {
      StepWithinIff(ss[m], acts[m], r);
    }
  }

  lemma StepWithinIff(s: State, a: Action, r: HandlerRun)
    requires Enabled(s, a) && Conserved(s, r) && Within(s, r)
    ensures Within(Apply(s, a), r) <==> !Repeats(s, a, r)
  {
    assert WorkersIn(s, r, Ran) == {} <==> |WorkersIn(s, r, Ran)| == 0;
  }

  // ------------------------------------------------------------------ exactly once, exactly when

  /** Completions and failed recordings are never forgotten. */
  lemma {:induction false} CountsGrow(ss: seq<State>, acts: seq<Action>, i: nat, j: nat, r: HandlerRun)
    requires IsRun(ss, acts) && i <= j < |ss|
    ensures ss[i].completed[r] <= ss[j].completed[r] && ss[i].unmarked[r] <= ss[j].unmarked[r]
    decreases j - i
  {
    if i < j {
      CountsGrow(ss, acts, i, j - 1, r);
      assert Step(ss[j - 1], acts[j - 1], ss[j - 1 + 1]);
    }
  }

  /**
   * With no assumption about overlaps, leases or expiry: a handler of a PROCESSED event, none of whose
   * recordings failed, ran exactly once exactly when it never completed while an earlier completion was recorded
   * or waiting for its recording.
   */
  lemma ProcessedExactlyOnceIff(ss: seq<State>, acts: seq<Action>, n: nat, id: RowId, i: nat)
    requires IsRun(ss, acts) && Initial(ss[0]) && n < |ss|
    requires id in ss[n].rows && ss[n].rows[id].status.Processed?
    requires i < HandlerCount(ss[n].handlers, ss[n].rows[id].event.eventType)
    requires RunOf(ss[n].rows[id].event, i) !in ss[n].unmarked
    ensures var r := RunOf(ss[n].rows[id].event, i);
            ss[n].completed[r] == 1 <==> NeverRepeats(ss, acts, n, r)
  {
    var r := RunOf(ss[n].rows[id].event, i);
    ProcessedMeansAllHandlersRan(ss, acts, n, id, i);
    WithinThroughoutIff(ss, acts, n, r);
    forall k | 0 <= k <= n
      ensures ss[k].completed[r] <= ss[n].completed[r] && ss[k].unmarked[r] == 0
    {
      CountsGrow(ss, acts, k, n, r);
    }
    assert WithinUpTo(ss, n, r) ==> Within(ss[n], r);
  }
}
