/**
 * The scheduler of one process as imperative code over the shared lock store, with the other processes
 * of the cluster acting between its statements.
 */
module Scheduling {
  import opened Prelude
  import opened Scheduler
  import HandlerKeys

  /** A minute as a template literal prints it; minutes before 1970 are negative. */
  function MinuteText(minute: int): string {
    if minute < 0 then "-" + HandlerKeys.Decimal(-minute) else HandlerKeys.Decimal(minute)
  }

  /** The text under which a lock is stored. */
  function LockName(key: Key): string {
    if key.minute.None? then key.base else key.base + ":" + MinuteText(key.minute.value)
  }

  lemma DigitsOnly(n: nat)
    ensures HandlerKeys.ColonFree(HandlerKeys.Decimal(n)) && '-' !in HandlerKeys.Decimal(n)
  {
    assert ':' !in HandlerKeys.DIGITS && '-' !in HandlerKeys.DIGITS;
  }

  lemma MinuteTextInjective(a: int, b: int)
    ensures HandlerKeys.ColonFree(MinuteText(a))
    ensures MinuteText(a) == MinuteText(b) ==> a == b
  {
    var m, n := if a < 0 then -a else a, if b < 0 then -b else b;
    DigitsOnly(m);
    DigitsOnly(n);
    HandlerKeys.ValueOfDecimal(m);
    HandlerKeys.ValueOfDecimal(n);
    if MinuteText(a) == MinuteText(b) {
      assert a < 0 <==> '-' in MinuteText(a);
      assert b < 0 <==> '-' in MinuteText(b);
      assert a < 0 ==> MinuteText(a)[1..] == HandlerKeys.Decimal(m);
      assert b < 0 ==> MinuteText(b)[1..] == HandlerKeys.Decimal(n);
    }
  }

  /** Two occurrences share a stored name exactly if base and minute are equal; so do two manual runs. */
  lemma LockNamesEqualIff(a: Key, b: Key)
    requires a.minute.Some? <==> b.minute.Some?
    ensures LockName(a) == LockName(b) <==> a.base == b.base && a.minute == b.minute
  {
    if a.minute.Some? && LockName(a) == LockName(b) {
      MinuteTextInjective(a.minute.value, b.minute.value);
      MinuteTextInjective(b.minute.value, a.minute.value);
      HandlerKeys.LastColonUnique(a.base, MinuteText(a.minute.value), b.base, MinuteText(b.minute.value));
    }
  }

  function RunOf(a: Action): Option<RunId> {
    match a
    case Elapse(_) => None
    case Attempt(run, _, _) => Some(run)
    case Renew(run, _) => Some(run)
    case Finish(run, _) => Some(run)
    case Crash(run) => Some(run)
  }

  predicate By(a: Action, runs: set<RunId>) {
    RunOf(a).Some? && RunOf(a).value in runs
  }

  /** The steps of a trace that were taken by some of the runs. */
  function Mine(acts: seq<Action>, runs: set<RunId>): Log<Action> {
    if acts == [] then NoSteps
    else
      var a := acts[|acts| - 1];
      var before := Mine(acts[..|acts| - 1], runs);
      if By(a, runs) then Then(before, a) else before
  }

  lemma MineAppend(acts: seq<Action>, a: Action, runs: set<RunId>)
    ensures Mine(acts + [a], runs) == if By(a, runs) then Then(Mine(acts, runs), a) else Mine(acts, runs)
  {
    assert (acts + [a])[..|acts|] == acts;
  }

  lemma AppendStep(ss: seq<State>, acts: seq<Action>, a: Action)
    requires IsRun(ss, acts) && Enabled(ss[|acts|], a)
    ensures IsRun(ss + [Apply(ss[|acts|], a)], acts + [a])
  {
    var ss', acts' := ss + [Apply(ss[|acts|], a)], acts + [a];
    forall i | 0 <= i < |acts'|
      ensures Step(ss'[i], acts'[i], ss'[i + 1])
    {
      if i < |acts| {
        assert Step(ss[i], acts[i], ss[i + 1]);
      }
    }
  }

  predicate SameRun(s: State, t: State, run: RunId) {
    && (run in t.everRuns <==> run in s.everRuns)
    && (run in t.live <==> run in s.live)
    && (run in s.live ==> t.live[run] == s.live[run])
  }

  lemma OthersKeepRun(s: State, a: Action, run: RunId)
    requires Enabled(s, a) && RunOf(a) != Some(run)
    ensures SameRun(s, Apply(s, a), run)
  {
  }

  class LockSystem {
    ghost const initial: State
    var s: State
    ghost var states: seq<State>
    ghost var actions: seq<Action>

    ghost predicate Valid()
      reads this
    {
      IsRun(states, actions) && states[0] == initial && Initial(initial) && states[|actions|] == s
    }

    constructor (initial: State)
      requires Initial(initial)
      ensures Valid() && this.initial == initial && s == initial && states == [initial] && actions == []
    {
      this.initial, s := initial, initial;
      states, actions := [initial], [];
    }

    /** Whatever happened so far, the invariant of the protocol holds. */
    lemma Safe()
      requires Valid()
      ensures Scheduler.Inv(s)
    {
      ReachableInv(states, actions, |actions|);
    }

    method Do(a: Action)
      requires Valid() && Enabled(s, a)
      modifies this
      ensures Valid() && s == Apply(old(s), a)
      ensures states == old(states) + [s] && actions == old(actions) + [a]
    {
      AppendStep(states, actions, a);
      s := Apply(s, a);
      states, actions := states + [s], actions + [a];
    }

    /** Time passes and every other run acts. */
    method Others(ghost runs: set<RunId>, script: seq<Action>)
      requires Valid() && forall a :: a in script ==> !By(a, runs)
      modifies this
      ensures Valid() && old(actions) <= actions && old(states) <= states
      ensures Mine(actions, runs) == Mine(old(actions), runs)
      ensures forall run :: run in runs ==> SameRun(old(s), s, run)
    {
      for k := 0 to |script|
        invariant Valid() && old(actions) <= actions && old(states) <= states
        invariant Mine(actions, runs) == Mine(old(actions), runs)
        invariant forall run :: run in runs ==> SameRun(old(s), s, run)
      {
        if Enabled(s, script[k]) {
          assert !By(script[k], runs);
          forall run | run in runs
            ensures SameRun(s, Apply(s, script[k]), run)
          {
            OthersKeepRun(s, script[k], run);
          }
          MineAppend(actions, script[k], runs);
          Do(script[k]);
        }
      }
    }
  }

  /** What one run meets: what others do before each of its statements, and which replies arrive. */
  datatype RunFate = RunFate(run: RunId, others: nat -> seq<Action>, arrives: bool, renewals: nat, released: bool)

  ghost predicate Foreign(runs: set<RunId>, fate: RunFate) {
    forall k: nat, a :: a in fate.others(k) ==> !By(a, runs)
  }

  function Repeat(before: Log<Action>, a: Action, n: nat): Log<Action> {
    if n == 0 then before else Then(Repeat(before, a, n - 1), a)
  }

  /** The statements of one run: attempt the lock and, once it is taken, renew it while the job runs and finish. */
  function Statements(before: Log<Action>, fate: RunFate, key: Key, ran: bool): Log<Action> {
    var attempted := Then(before, Attempt(fate.run, key, fate.arrives));
    if ran then Then(Repeat(attempted, Renew(fate.run, key), fate.renewals), Finish(fate.run, fate.released))
    else attempted
  }

  ghost predicate OthersSame(s: State, t: State, runs: set<RunId>, own: RunId) {
    forall run :: run in runs && run != own ==> SameRun(s, t, run)
  }

  /** At point `at` of the run, action `a` was taken in state `before`. */
  ghost predicate Occurs(states: seq<State>, acts: seq<Action>, at: nat, before: State, a: Action) {
    at < |acts| && at < |states| && acts[at] == a && states[at] == before
  }

  lemma OccursLater(states: seq<State>, acts: seq<Action>, states': seq<State>, acts': seq<Action>, at: nat,
                    before: State, a: Action)
    requires Occurs(states, acts, at, before, a) && Extends(states, states') && Extends(acts, acts')
    ensures Occurs(states', acts', at, before, a)
  {
  }

  class SchedulerService {
    const system: LockSystem
    const lockBase: map<string, string>   // lock names that jobs were registered with
    var timer: bool           // whether an armed timer is remembered
    ghost var armed: nat      // timers armed and not cleared
    var running: bool
    var inFlight: bool
    var lastRunMinute: Memory

    constructor (system: LockSystem, lockBase: map<string, string>)
      ensures this.system == system && this.lockBase == lockBase
      ensures OneTimer() && !running && !inFlight && lastRunMinute == map[]
    {
      this.system, this.lockBase := system, lockBase;
      timer, armed, running, inFlight, lastRunMinute := false, 0, false, false, map[];
    }

    function KeyOf(job: string, minute: Option<int>): Key {
      Key(if job in lockBase then lockBase[job] else "scheduler:lock:" + job, minute)
    }

    /** At point `at` of a run of the cluster somebody asked for the lock of the job's occurrence and it was free. */
    ghost predicate Took(states: seq<State>, acts: seq<Action>, at: nat, job: string, minute: int) {
      && at < |acts| && at < |states| && acts[at].Attempt? && acts[at].key.minute == Some(minute)
      && acts[at].key.base == (if job in lockBase then lockBase[job] else "scheduler:lock:" + job)
      && Free(states[at], acts[at].key)
    }

    /** At point `at` this run asked for the occurrence's lock; it ran if the lock was free and the reply arrived. */
    ghost predicate AskedFor(states: seq<State>, acts: seq<Action>, at: nat, run: RunId, arrives: bool, job: string,
                             minute: int, ran: bool) {
      && at < |acts| && at < |states| && acts[at].Attempt? && acts[at].key.minute == Some(minute)
      && acts[at].key.base == (if job in lockBase then lockBase[job] else "scheduler:lock:" + job)
      && acts[at].run == run && acts[at].replied == arrives
      && (ran <==> arrives && Took(states, acts, at, job, minute))
    }

    /** The attempts of a tick, from point `from` on. */
    ghost predicate AllAsked(states: seq<State>, acts: seq<Action>, from: nat, asked: seq<nat>, jobs: seq<string>,
                             minute: int, fates: nat -> RunFate, ran: seq<bool>) {
      && |asked| == |jobs| == |ran|
      && forall k :: 0 <= k < |asked| ==>
           && from <= asked[k]
           && AskedFor(states, acts, asked[k], fates(k).run, fates(k).arrives, jobs[k], minute, ran[k])
    }

    lemma AllAskedAppend(states: seq<State>, acts: seq<Action>, states': seq<State>, acts': seq<Action>, from: nat,
                         asked: seq<nat>, jobs: seq<string>, minute: int, fates: nat -> RunFate, ran: seq<bool>,
                         at: nat, job: string, r: bool)
      requires Extends(states, states') && Extends(acts, acts') && from <= at
      requires AllAsked(states, acts, from, asked, jobs, minute, fates, ran)
      requires AskedFor(states', acts', at, fates(|jobs|).run, fates(|jobs|).arrives, job, minute, r)
      ensures AllAsked(states', acts', from, asked + [at], jobs + [job], minute, fates, ran + [r])
    {
      forall k | 0 <= k < |asked|
        ensures AskedFor(states', acts', asked[k], fates(k).run, fates(k).arrives, jobs[k], minute, ran[k])
      {
        assert acts'[asked[k]] == acts[asked[k]] && states'[asked[k]] == states[asked[k]];
      }
    }

    /** The run has not begun, and nobody else acts in its name. */
    ghost predicate Ready(runs: set<RunId>, fate: RunFate)
      reads system
    {
      && system.Valid() && fate.run in runs && fate.run !in system.s.everRuns && fate.run !in system.s.live
      && Foreign(runs, fate)
    }

    /** Nobody else acts in the name of these runs, and they are told apart by their lock values. */
    ghost predicate Separate(runs: set<RunId>, fates: nat -> RunFate, n: nat) {
      && (forall k :: 0 <= k < n ==> fates(k).run in runs && Foreign(runs, fates(k)))
      && (forall j, k :: 0 <= j < k < n ==> fates(j).run != fates(k).run)
    }

    /** The runs numbered from `first` on have not begun. */
    ghost predicate NotBegun(fates: nat -> RunFate, first: nat, n: nat)
      reads system
    {
      forall k :: first <= k < n ==> fates(k).run !in system.s.everRuns && fates(k).run !in system.s.live
    }

    ghost predicate FreshRuns(runs: set<RunId>, fates: nat -> RunFate, first: nat, n: nat)
      reads system
    {
      system.Valid() && Separate(runs, fates, n) && NotBegun(fates, first, n)
    }

    /** Others act, then this run takes one step; `before` is the state it met. */
    method Turn(k: nat, a: Action, fate: RunFate, ghost runs: set<RunId>) returns (ghost before: State, ghost at: nat)
      requires system.Valid() && Foreign(runs, fate) && fate.run in runs && RunOf(a) == Some(fate.run)
      requires forall t :: SameRun(system.s, t, fate.run) ==> Enabled(t, a)
      modifies system
      ensures system.Valid() && Extends(old(system.actions), system.actions)
      ensures Extends(old(system.states), system.states)
      ensures Mine(system.actions, runs) == Then(Mine(old(system.actions), runs), a)
      ensures Enabled(before, a) && system.s == Apply(before, a) && SameRun(old(system.s), before, fate.run)
      ensures |old(system.actions)| <= at && Occurs(system.states, system.actions, at, before, a)
      ensures OthersSame(old(system.s), system.s, runs, fate.run)
    {
      system.Others(runs, fate.others(k));
      before, at := system.s, |system.actions|;
      MineAppend(system.actions, a, runs);
      forall run | run in runs && run != fate.run
        ensures SameRun(before, Apply(before, a), run)
      {
        OthersKeepRun(before, a, run);
      }
      system.Do(a);
    }

    /** The run no longer holds this lock. */
    ghost predicate LetGo(s: State, key: Key, run: RunId) {
      key in s.locks && s.locks[key].holder == run ==> s.locks[key].expiresAt <= s.now
    }

    /** Runs a job if its lock is free, keeping the lock alive; `at` is the point at which the lock was asked for. */
    method RunJob(job: string, minute: Option<int>, fate: RunFate, ghost runs: set<RunId>)
      returns (ran: bool, ghost before: State, ghost at: nat)
      requires Ready(runs, fate)
      modifies system
      ensures system.Valid() && Extends(old(system.actions), system.actions)
      ensures Extends(old(system.states), system.states)
      ensures Mine(system.actions, runs) == Statements(Mine(old(system.actions), runs), fate, KeyOf(job, minute), ran)
      ensures |old(system.actions)| <= at
      ensures Occurs(system.states, system.actions, at, before, Attempt(fate.run, KeyOf(job, minute), fate.arrives))
      ensures ran <==> fate.arrives && Free(before, KeyOf(job, minute))
      // the lock is the job's own, of this minute exactly if the run has one
      ensures var asked := system.actions[at].key;
              && asked.minute == minute
              && asked.base == (if job in lockBase then lockBase[job] else "scheduler:lock:" + job)
              && (ran <==> fate.arrives && (asked !in before.locks || before.locks[asked].expiresAt <= before.now))
              && (ran && minute.None? && fate.released ==> LetGo(system.s, asked, fate.run))
      ensures minute.Some? ==>
                AskedFor(system.states, system.actions, at, fate.run, fate.arrives, job, minute.value, ran)
      ensures OthersSame(old(system.s), system.s, runs, fate.run)
    {
      var key := KeyOf(job, minute);
      before, at := Turn(0, Attempt(fate.run, key, fate.arrives), fate, runs);
      if fate.run !in system.s.live {
        return false, before, at;
      }
      ghost var states, actions := system.states, system.actions;
      KeepAlive(key, fate, runs);
      OccursLater(states, actions, system.states, system.actions, at, before, Attempt(fate.run, key, fate.arrives));
      return true, before, at;
    }

    /** While the job runs its lock is renewed; then an occurrence lock is left to expire and any other released. */
    method KeepAlive(key: Key, fate: RunFate, ghost runs: set<RunId>)
      requires system.Valid() && fate.run in runs && fate.run in system.s.live && fate.run in system.s.everRuns
      requires Foreign(runs, fate) && system.s.live[fate.run] == key
      modifies system
      ensures system.Valid() && Extends(old(system.actions), system.actions)
      ensures Extends(old(system.states), system.states)
      ensures key.minute.None? && fate.released ==> LetGo(system.s, key, fate.run)
      ensures Mine(system.actions, runs)
           == Then(Repeat(Mine(old(system.actions), runs), Renew(fate.run, key), fate.renewals),
                   Finish(fate.run, fate.released))
      ensures OthersSame(old(system.s), system.s, runs, fate.run)
    {
      ghost var mine := Mine(system.actions, runs);
      for k := 0 to fate.renewals
        invariant system.Valid() && Extends(old(system.actions), system.actions)
        invariant Extends(old(system.states), system.states)
        invariant fate.run in system.s.live && system.s.live[fate.run] == key && fate.run in system.s.everRuns
        invariant Mine(system.actions, runs) == Repeat(mine, Renew(fate.run, key), k)
        invariant OthersSame(old(system.s), system.s, runs, fate.run)
      {
        var _, _ := Turn(k + 1, Renew(fate.run, key), fate, runs);
      }
      var _, _ := Turn(fate.renewals + 1, Finish(fate.run, fate.released), fate, runs);
    }

    /** The statements of the runs of one tick, in order; `ran` says which of them took their lock. */
    function TickStatements(before: Log<Action>, jobs: seq<string>, minute: int, fates: nat -> RunFate, ran: seq<bool>)
      : Log<Action>
      requires |jobs| == |ran|
    {
      if jobs == [] then before
      else
        var n := |jobs| - 1;
        Statements(TickStatements(before, jobs[..n], minute, fates, ran[..n]),
                   fates(n), KeyOf(jobs[n], Some(minute)), ran[n])
    }

    lemma TickStatementsAppend(before: Log<Action>, jobs: seq<string>, minute: int, fates: nat -> RunFate,
                               ran: seq<bool>, job: string, r: bool)
      requires |jobs| == |ran|
      ensures TickStatements(before, jobs + [job], minute, fates, ran + [r])
           == Statements(TickStatements(before, jobs, minute, fates, ran), fates(|jobs|), KeyOf(job, Some(minute)), r)
    {
      var jobs', ran' := jobs + [job], ran + [r];
      assert jobs'[..|jobs'| - 1] == jobs && ran'[..|jobs'| - 1] == ran;
      assert jobs'[|jobs'| - 1] == job && ran'[|jobs'| - 1] == r;
    }

    /** One due job: its attempt leaves the later runs of the tick untouched. */
    method AttemptJob(job: string, minute: int, fates: nat -> RunFate, k: nat, n: nat, ghost runs: set<RunId>)
      returns (ghost ran: bool, ghost at: nat)
      requires k < n && FreshRuns(runs, fates, k, n)
      modifies system
      ensures FreshRuns(runs, fates, k + 1, n)
      ensures Extends(old(system.actions), system.actions) && Extends(old(system.states), system.states)
      ensures Mine(system.actions, runs)
           == Statements(Mine(old(system.actions), runs), fates(k), KeyOf(job, Some(minute)), ran)
      ensures |old(system.actions)| <= at
      ensures AskedFor(system.states, system.actions, at, fates(k).run, fates(k).arrives, job, minute, ran)
    {
      ghost var before := system.s;
      assert Ready(runs, fates(k));
      var started, _, point := RunJob(job, Some(minute), fates(k), runs);
      ran, at := started, point;
      forall j | k < j < n
        ensures fates(j).run !in system.s.everRuns && fates(j).run !in system.s.live
      {
        assert fates(j).run in runs && SameRun(before, system.s, fates(j).run);
      }
    }

    /** The attempt of one more job joins those of the tick so far. */
    method AttemptNext(job: string, minute: int, fates: nat -> RunFate, n: nat, jobs: seq<string>,
                       ghost ran: seq<bool>, ghost asked: seq<nat>, ghost mine: Log<Action>, ghost from: nat,
                       ghost runs: set<RunId>)
      returns (jobs': seq<string>, ghost ran': seq<bool>, ghost asked': seq<nat>)
      requires |jobs| < n && FreshRuns(runs, fates, |jobs|, n) && from <= |system.actions|
      requires AllAsked(system.states, system.actions, from, asked, jobs, minute, fates, ran)
      requires Mine(system.actions, runs) == TickStatements(mine, jobs, minute, fates, ran)
      modifies system
      ensures jobs' == jobs + [job] && FreshRuns(runs, fates, |jobs'|, n)
      ensures Extends(old(system.actions), system.actions) && Extends(old(system.states), system.states)
      ensures AllAsked(system.states, system.actions, from, asked', jobs', minute, fates, ran')
      ensures Mine(system.actions, runs) == TickStatements(mine, jobs', minute, fates, ran')
    {
      ghost var started, at := AttemptJob(job, minute, fates, |jobs|, n, runs);
      TickStatementsAppend(mine, jobs, minute, fates, ran, job, started);
      AllAskedAppend(old(system.states), old(system.actions), system.states, system.actions, from, asked, jobs, minute,
                     fates, ran, at, job, started);
      jobs', ran', asked' := jobs + [job], ran + [started], asked + [at];
    }

    /** The next due job of a tick: skipped if it is remembered for this minute, else remembered and attempted. */
    method NextDue(due: seq<string>, i: nat, minute: int, fates: nat -> RunFate, jobs: seq<string>,
                   ghost ran: seq<bool>, ghost asked: seq<nat>, ghost mine: Log<Action>, ghost from: nat,
                   ghost runs: set<RunId>)
      returns (jobs': seq<string>, ghost ran': seq<bool>, ghost asked': seq<nat>)
      requires i < |due| && |jobs| <= i && FreshRuns(runs, fates, |jobs|, |due|) && from <= |system.actions|
      requires AllAsked(system.states, system.actions, from, asked, jobs, minute, fates, ran)
      requires Mine(system.actions, runs) == TickStatements(mine, jobs, minute, fates, ran)
      modifies this`lastRunMinute, system
      ensures |jobs'| <= i + 1 && FreshRuns(runs, fates, |jobs'|, |due|)
      ensures Extends(old(system.actions), system.actions) && Extends(old(system.states), system.states)
      ensures TrailStep(minute, due[i], old(lastRunMinute), jobs, lastRunMinute, jobs')
      ensures AllAsked(system.states, system.actions, from, asked', jobs', minute, fates, ran')
      ensures Mine(system.actions, runs) == TickStatements(mine, jobs', minute, fates, ran')
    {
      if due[i] in lastRunMinute && lastRunMinute[due[i]] == minute {
        assert lastRunMinute == lastRunMinute[due[i] := minute];
        return jobs, ran, asked;
      }
      lastRunMinute := lastRunMinute[due[i] := minute];
      jobs', ran', asked' := AttemptNext(due[i], minute, fates, |due|, jobs, ran, asked, mine, from, runs);
    }

    /** Attempts each due job not yet attempted in this minute, in order. A failing attempt does not stop the rest. */
    method RunDueJobs(time: int, due: seq<string>, fates: nat -> RunFate, ghost runs: set<RunId>)
      returns (attempted: seq<string>, ghost ran: seq<bool>, ghost asked: seq<nat>)
      requires FreshRuns(runs, fates, 0, |due|)
      modifies this`lastRunMinute, system
      ensures system.Valid() && Extends(old(system.actions), system.actions)
      ensures Extends(old(system.states), system.states)
      ensures attempted == Attempted(old(lastRunMinute), time / MINUTE_MS, due) && |ran| == |attempted|
      ensures lastRunMinute == Remember(old(lastRunMinute), time / MINUTE_MS, due)
      ensures Mine(system.actions, runs)
           == TickStatements(Mine(old(system.actions), runs), attempted, time / MINUTE_MS, fates, ran)
      // each attempt asked for the lock of this job in this minute
      ensures AllAsked(system.states, system.actions, |old(system.actions)|, asked, attempted, time / 60_000, fates,
                       ran)
    {
      attempted, ran, asked := RunDueAt(time / MINUTE_MS, due, fates, runs);
    }

    method RunDueAt(minute: int, due: seq<string>, fates: nat -> RunFate, ghost runs: set<RunId>)
      returns (attempted: seq<string>, ghost ran: seq<bool>, ghost asked: seq<nat>)
      requires FreshRuns(runs, fates, 0, |due|)
      modifies this`lastRunMinute, system
      ensures system.Valid() && Extends(old(system.actions), system.actions)
      ensures Extends(old(system.states), system.states)
      ensures attempted == Attempted(old(lastRunMinute), minute, due)
      ensures lastRunMinute == Remember(old(lastRunMinute), minute, due)
      ensures AllAsked(system.states, system.actions, |old(system.actions)|, asked, attempted, minute, fates, ran)
      ensures Mine(system.actions, runs)
           == TickStatements(Mine(old(system.actions), runs), attempted, minute, fates, ran)
    {
      attempted, ran, asked := [], [], [];
      ghost var mine, from, last := Mine(system.actions, runs), |system.actions|, lastRunMinute;
      ghost var memories, jobs := [lastRunMinute], [[]];
      for i := 0 to |due|
        invariant system.Valid() && |ran| == |attempted| <= i && NotBegun(fates, |attempted|, |due|)
        invariant Extends(old(system.actions), system.actions) && Extends(old(system.states), system.states)
        invariant Trail(last, minute, due, memories, jobs) && |memories| == i + 1
        invariant memories[i] == lastRunMinute && jobs[i] == attempted
        invariant Mine(system.actions, runs) == TickStatements(mine, attempted, minute, fates, ran)
        invariant AllAsked(system.states, system.actions, from, asked, attempted, minute, fates, ran)
      {
        attempted, ran, asked := NextDue(due, i, minute, fates, attempted, ran, asked, mine, from, runs);
        TrailAppend(last, minute, due, memories, jobs, lastRunMinute, attempted);
        memories, jobs := memories + [lastRunMinute], jobs + [attempted];
      }
      TrailEnds(last, minute, due, memories, jobs, |due|);
      assert due[..|due|] == due;
    }

    /** A running scheduler has one armed timer, a stopped one none. */
    ghost predicate OneTimer()
      reads this
    {
      timer == running && armed == (if running then 1 else 0)
    }

    method Stop()
      requires OneTimer()
      modifies this`timer, this`armed, this`running
      ensures OneTimer() && !running && armed == 0
    {
      if timer {
        timer, armed := false, armed - 1;
      }
      running := false;
    }

    /** A tick was run from this memory and trace: it attempted and remembers exactly what it should. */
    ghost predicate Ticked(last: Memory, actions: seq<Action>, time: int, due: seq<string>, fates: nat -> RunFate,
                           runs: set<RunId>)
      reads this, system
    {
      var attempted := Attempted(last, time / MINUTE_MS, due);
      && lastRunMinute == Remember(last, time / MINUTE_MS, due)
      && exists ran: seq<bool>, asked: seq<nat> ::
           && |ran| == |attempted|
           && AllAsked(system.states, system.actions, |actions|, asked, attempted, time / 60_000, fates, ran)
           && Mine(system.actions, runs)
              == TickStatements(Mine(actions, runs), attempted, time / MINUTE_MS, fates, ran)
    }

    /** One tick, skipped while another is in flight. The running flag is not consulted. */
    method Tick(time: int, due: seq<string>, fates: nat -> RunFate, ghost runs: set<RunId>)
      requires system.Valid() && FreshRuns(runs, fates, 0, |due|)
      modifies this`inFlight, this`lastRunMinute, system
      ensures system.Valid() && inFlight == old(inFlight)
      ensures old(inFlight) ==> lastRunMinute == old(lastRunMinute) && system.actions == old(system.actions)
      ensures !old(inFlight) ==> Ticked(old(lastRunMinute), old(system.actions), time, due, fates, runs)
    {
      if inFlight {
        return;
      }
      inFlight := true;
      ghost var ran, asked;
      var attempted;
      attempted, ran, asked := RunDueJobs(time, due, fates, runs);
      inFlight := false;
    }

    /** Arms one timer and ticks at once; a running scheduler is left alone. */
    method Start(time: int, due: seq<string>, fates: nat -> RunFate, ghost runs: set<RunId>)
      requires OneTimer() && system.Valid() && FreshRuns(runs, fates, 0, |due|)
      modifies this`timer, this`armed, this`running, this`inFlight, this`lastRunMinute, system
      ensures OneTimer() && running && armed == 1 && system.Valid() && inFlight == old(inFlight)
      ensures old(running) || old(inFlight) ==>
                lastRunMinute == old(lastRunMinute) && system.actions == old(system.actions)
      ensures !old(running) && !old(inFlight) ==>
                Ticked(old(lastRunMinute), old(system.actions), time, due, fates, runs)
    {
      if running {
        return;
      }
      running := true;
      timer, armed := true, armed + 1;
      Tick(time, due, fates, runs);
    }
  }

  /**
   * Two runs of one job in one minute, started by any two schedulers of a cluster whose jobs are registered alike,
   * took their lock at least its time to live apart.
   */
  lemma OccurrenceTakenApart(a: SchedulerService, b: SchedulerService, job: string, minute: int, i: nat, j: nat)
    requires a.system == b.system && a.system.Valid() && a.lockBase == b.lockBase
    requires i < j
    requires a.Took(a.system.states, a.system.actions, i, job, minute)
    requires b.Took(b.system.states, b.system.actions, j, job, minute)
    ensures a.system.states[j].now >= a.system.states[i].now + a.system.initial.lockTtlMs
  {
    var system := a.system;
    TakenApart(system.states, system.actions, i, j, system.actions[i].key);
  }
}
