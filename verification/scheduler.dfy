/**
 * Scheduled jobs across a cluster: one lock per job occurrence with a time to live, renewed while the
 * job runs and never released, and a per-process memory of the minute each job last ran in.
 */
module Scheduler {
  import opened Prelude

  const MINUTE_MS: int := 60_000

  /** A lock name: an occurrence lock carries its minute, a manual run's lock does not. */
  datatype Key = Key(base: string, minute: Option<int>)

  type RunId = string

  datatype Lock = Lock(holder: RunId, expiresAt: int)

  /** A run took its lock at this time of the lock server's clock. */
  datatype Acquisition = Acquisition(key: Key, run: RunId, time: int)

  datatype State = State(
    lockTtlMs: int,
    now: int,                     // the lock server's clock
    locks: map<Key, Lock>,
    live: map<RunId, Key>,
    everRuns: set<RunId>,
    acquisitions: seq<Acquisition>)   // history: runs that acquired their lock, in order

  datatype Action =
    | Elapse(now: int)
    | Attempt(run: RunId, key: Key, replied: bool)
    | Renew(run: RunId, key: Key)
    | Finish(run: RunId, released: bool)
    | Crash(run: RunId)

  /** SET NX succeeds on a missing or expired key. */
  predicate Free(s: State, key: Key) {
    key !in s.locks || s.locks[key].expiresAt <= s.now
  }

  predicate HeldBy(s: State, key: Key, run: RunId) {
    !Free(s, key) && s.locks[key].holder == run
  }

  predicate Enabled(s: State, a: Action) {
    match a
    case Elapse(now) => now >= s.now
    case Attempt(run, _, _) => run !in s.everRuns
    case Renew(run, _) => run in s.everRuns   // a renewal in flight may arrive after the run has ended
    case Finish(run, _) => run in s.live
    case Crash(run) => run in s.live
  }

  function Apply(s: State, a: Action): State
    requires Enabled(s, a)
  {
    match a
    case Elapse(now) => s.(now := now)
    case Attempt(run, key, replied) =>
      if !Free(s, key) then s.(everRuns := s.everRuns + {run})
      else
        s.(locks := s.locks[key := Lock(run, s.now + s.lockTtlMs)], everRuns := s.everRuns + {run},
           live := if replied then s.live[run := key] else s.live,
           acquisitions := if replied then s.acquisitions + [Acquisition(key, run, s.now)] else s.acquisitions)
    case Renew(run, key) =>
      if HeldBy(s, key, run) then s.(locks := s.locks[key := Lock(run, s.now + s.lockTtlMs)]) else s
    case Finish(run, released) =>
      var key := s.live[run];
      // occurrence locks are left to expire; manual locks are released by their holder only
      var locks := if key.minute.None? && released && HeldBy(s, key, run) then s.locks - {key} else s.locks;
      s.(locks := locks, live := s.live - {run})
    case Crash(run) => s.(live := s.live - {run})
  }

  predicate Initial(s: State) {
    s.lockTtlMs >= 0 && s.locks == map[] && s.live == map[] && s.everRuns == {} && s.acquisitions == []
  }

  ghost predicate Step(s: State, a: Action, t: State) {
    Enabled(s, a) && t == Apply(s, a)
  }

  ghost predicate IsRun(ss: seq<State>, acts: seq<Action>) {
    && |ss| == |acts| + 1
    && forall i :: 0 <= i < |acts| ==> Step(ss[i], acts[i], ss[i + 1])
  }

  // ------------------------------------------------------------------------ occurrences

  /** The same job in the same minute; manual runs have no minute. */
  predicate SameOccurrence(a: Acquisition, b: Acquisition) {
    a.key == b.key && a.key.minute.Some?
  }

  /** Every run of an occurrence is protected by its lock for at least the time to live. */
  ghost predicate Protected(s: State, q: Acquisition) {
    && q.time <= s.now
    && (q.key.minute.Some? ==> q.key in s.locks && s.locks[q.key].expiresAt >= q.time + s.lockTtlMs)
  }

  ghost predicate Inv(s: State) {
    && s.lockTtlMs >= 0
    && (forall i :: 0 <= i < |s.acquisitions| ==> Protected(s, s.acquisitions[i]))
    && (forall i, j :: 0 <= i < j < |s.acquisitions| && SameOccurrence(s.acquisitions[i], s.acquisitions[j]) ==>
          s.acquisitions[j].time - s.acquisitions[i].time >= s.lockTtlMs)
  }

  lemma StaysProtected(s: State, a: Action, q: Acquisition)
    requires s.lockTtlMs >= 0 && Enabled(s, a) && Protected(s, q)
    ensures Protected(Apply(s, a), q)
  {
  }

  lemma StepKeepsInv(s: State, a: Action)
    requires Inv(s) && Enabled(s, a)
    ensures Inv(Apply(s, a))
  {
    var t := Apply(s, a);
    forall i | 0 <= i < |t.acquisitions|
      ensures Protected(t, t.acquisitions[i])
    {
      if i < |s.acquisitions| {
        StaysProtected(s, a, s.acquisitions[i]);
      }
    }
    forall i, j | 0 <= i < j < |t.acquisitions| && SameOccurrence(t.acquisitions[i], t.acquisitions[j])
      ensures t.acquisitions[j].time - t.acquisitions[i].time >= t.lockTtlMs
    {
      assert Protected(s, s.acquisitions[i]);
    }
  }

  lemma {:induction false} ReachableInv(ss: seq<State>, acts: seq<Action>, n: nat)
    requires IsRun(ss, acts) && Initial(ss[0]) && n < |ss|
    ensures Inv(ss[n]) && ss[n].lockTtlMs == ss[0].lockTtlMs
  {
    if n > 0 {
      ReachableInv(ss, acts, n - 1);
      assert Step(ss[n - 1], acts[n - 1], ss[n - 1 + 1]);
      StepKeepsInv(ss[n - 1], acts[n - 1]);
    }
  }

  /**
   * Two runs of the same occurrence, anywhere in the cluster, acquire their lock at least its time to live
   * apart.
   */
  lemma OccurrencesApart(ss: seq<State>, acts: seq<Action>, n: nat, i: nat, j: nat)
    requires IsRun(ss, acts) && Initial(ss[0]) && n < |ss| && i < j < |ss[n].acquisitions|
    requires SameOccurrence(ss[n].acquisitions[i], ss[n].acquisitions[j])
    ensures ss[n].acquisitions[j].time >= ss[n].acquisitions[i].time + ss[0].lockTtlMs
  {
    ReachableInv(ss, acts, n);
  }

  /** The lock was acquired within one time to live of the beginning of its minute. */
  predicate Punctual(s: State, q: Acquisition) {
    q.key.minute.Some? ==>
      var begin := q.key.minute.value * MINUTE_MS; begin <= q.time < begin + s.lockTtlMs
  }

  /** Of punctual runs, wherever they are, an occurrence has at most one; others may be late. */
  lemma PunctualOccurrencesRunOnce(ss: seq<State>, acts: seq<Action>, n: nat, i: nat, j: nat)
    requires IsRun(ss, acts) && Initial(ss[0]) && n < |ss| && i < |ss[n].acquisitions| && j < |ss[n].acquisitions|
    requires Punctual(ss[n], ss[n].acquisitions[i]) && Punctual(ss[n], ss[n].acquisitions[j])
    requires SameOccurrence(ss[n].acquisitions[i], ss[n].acquisitions[j])
    ensures i == j
  {
    ReachableInv(ss, acts, n);
    if i < j {
      OccurrencesApart(ss, acts, n, i, j);
    } else if j < i {
      OccurrencesApart(ss, acts, n, j, i);
    }
  }

  /** The action takes the occurrence's lock, whether or not its reply arrives. */
  ghost predicate Takes(ss: seq<State>, acts: seq<Action>, i: nat, key: Key) {
    i < |acts| && i < |ss| && acts[i].Attempt? && acts[i].key == key && Free(ss[i], key)
  }

  lemma {:induction false} TakenStaysLocked(ss: seq<State>, acts: seq<Action>, i: nat, k: nat, key: Key)
    requires IsRun(ss, acts) && Initial(ss[0]) && i < k < |ss| && key.minute.Some? && Takes(ss, acts, i, key)
    ensures ss[k].now >= ss[i].now
    ensures key in ss[k].locks && ss[k].locks[key].expiresAt >= ss[i].now + ss[0].lockTtlMs
  {
    assert Step(ss[k - 1], acts[k - 1], ss[k - 1 + 1]);
    ReachableInv(ss, acts, k - 1);
    if k > i + 1 {
      TakenStaysLocked(ss, acts, i, k - 1, key);
    }
  }

  /**
   * Whoever takes the lock of one occurrence, and even if the reply is lost, nobody takes it again before its time
   * to live has passed.
   */
  lemma TakenApart(ss: seq<State>, acts: seq<Action>, i: nat, j: nat, key: Key)
    requires IsRun(ss, acts) && Initial(ss[0]) && i < j && key.minute.Some?
    requires Takes(ss, acts, i, key) && Takes(ss, acts, j, key)
    ensures ss[j].now >= ss[i].now + ss[0].lockTtlMs
  {
    TakenStaysLocked(ss, acts, i, j, key);
  }

  // ------------------------------------------------------- one process's memory of minutes

  type Memory = map<string, int>

  /** Jobs a tick attempts: the due ones not yet remembered for this minute. */
  function Attempted(last: Memory, minute: int, due: seq<string>): (jobs: seq<string>)
    decreases |due|
  {
    if due == [] then []
    else if due[0] in last && last[due[0]] == minute then Attempted(last, minute, due[1..])
    else [due[0]] + Attempted(last[due[0] := minute], minute, due[1..])
  }

  function Remember(last: Memory, minute: int, due: seq<string>): Memory
    decreases |due|
  {
    if due == [] then last else Remember(last[due[0] := minute], minute, due[1..])
  }

  /** One more due job is attempted unless it is remembered for this minute, and remembered afterwards. */
  lemma {:induction false} AttemptedAppend(last: Memory, minute: int, due: seq<string>, job: string)
    ensures Remember(last, minute, due + [job]) == Remember(last, minute, due)[job := minute]
    ensures var known := Remember(last, minute, due);
            Attempted(last, minute, due + [job])
            == Attempted(last, minute, due) + if job in known && known[job] == minute then [] else [job]
    decreases |due|
  {
    if due == [] {
      assert ([job])[1..] == [] && [] + [job] == [job];
    } else {
      assert (due + [job])[0] == due[0] && (due + [job])[1..] == due[1..] + [job];
      if due[0] in last && last[due[0]] == minute {
        assert last[due[0] := minute] == last;
      }
      AttemptedAppend(last[due[0] := minute], minute, due[1..], job);
    }
  }

  /** What a process remembers, and has attempted, before each of the due jobs and after the last of them so far. */
  ghost predicate Trail(last: Memory, minute: int, due: seq<string>, memories: seq<Memory>, jobs: seq<seq<string>>) {
    && 0 < |memories| == |jobs| <= |due| + 1 && memories[0] == last && jobs[0] == []
    && forall i :: 0 <= i < |memories| - 1 ==>
         TrailStep(minute, due[i], memories[i], jobs[i], memories[i + 1], jobs[i + 1])
  }

  ghost predicate TrailStep(minute: int, job: string, m: Memory, jobs: seq<string>, m': Memory, jobs': seq<string>) {
    m' == m[job := minute] && jobs' == if job in m && m[job] == minute then jobs else jobs + [job]
  }

  lemma TrailAppend(last: Memory, minute: int, due: seq<string>, memories: seq<Memory>, jobs: seq<seq<string>>,
                    m: Memory, jobs': seq<string>)
    requires Trail(last, minute, due, memories, jobs) && |memories| <= |due|
    requires var i := |memories| - 1; TrailStep(minute, due[i], memories[i], jobs[i], m, jobs')
    ensures Trail(last, minute, due, memories + [m], jobs + [jobs'])
  {
  }

  /** The trail of a tick ends with what the tick is to remember and attempt. */
  lemma {:induction false} TrailEnds(last: Memory, minute: int, due: seq<string>, memories: seq<Memory>,
                                     jobs: seq<seq<string>>, n: nat)
    requires Trail(last, minute, due, memories, jobs) && n < |memories|
    ensures memories[n] == Remember(last, minute, due[..n]) && jobs[n] == Attempted(last, minute, due[..n])
  {
    if n > 0 {
      TrailEnds(last, minute, due, memories, jobs, n - 1);
      AttemptedAppend(last, minute, due[..n - 1], due[n - 1]);
      assert due[..n] == due[..n - 1] + [due[n - 1]];
      assert TrailStep(minute, due[n - 1], memories[n - 1], jobs[n - 1], memories[n - 1 + 1], jobs[n - 1 + 1]);
    }
  }

  datatype Occurrence = Occurrence(job: string, minute: int)

  datatype TickEvent = TickEvent(minute: int, due: seq<string>)

  /** All attempts of one process over a sequence of ticks. */
  function AllAttempts(last: Memory, ticks: seq<TickEvent>): seq<Occurrence>
    decreases |ticks|
  {
    if ticks == [] then []
    else
      Occurrences(Attempted(last, ticks[0].minute, ticks[0].due), ticks[0].minute)
      + AllAttempts(Remember(last, ticks[0].minute, ticks[0].due), ticks[1..])
  }

  function Occurrences(jobs: seq<string>, minute: int): (o: seq<Occurrence>)
    ensures |o| == |jobs| && forall i :: 0 <= i < |o| ==> o[i] == Occurrence(jobs[i], minute)
  {
    seq(|jobs|, i requires 0 <= i < |jobs| => Occurrence(jobs[i], minute))
  }

  ghost predicate NoRepeats<T>(xs: seq<T>) {
    forall i, j :: 0 <= i < j < |xs| ==> xs[i] != xs[j]
  }

  ghost predicate NeverBack(ticks: seq<TickEvent>) {
    forall i, j :: 0 <= i <= j < |ticks| ==> ticks[i].minute <= ticks[j].minute
  }

  /** A tick attempts each due job once, unless it was already attempted in this minute. */
  lemma {:induction false} AttemptedFacts(last: Memory, minute: int, due: seq<string>)
    ensures NoRepeats(Attempted(last, minute, due))
    ensures forall job :: job in Attempted(last, minute, due) <==> job in due && !(job in last && last[job] == minute)
    ensures forall job :: job in due ==>
              job in Remember(last, minute, due) && Remember(last, minute, due)[job] == minute
    ensures forall job :: job !in due ==> (job in Remember(last, minute, due) <==> job in last)
    ensures forall job :: job !in due && job in last ==> Remember(last, minute, due)[job] == last[job]
    decreases |due|
  {
    if due != [] {
      if due[0] in last && last[due[0]] == minute {
        assert last[due[0] := minute] == last;
      }
      AttemptedFacts(last[due[0] := minute], minute, due[1..]);
      assert due[0] !in Attempted(last[due[0] := minute], minute, due[1..]);
      assert due == [due[0]] + due[1..];
      assert forall job :: job in due <==> job == due[0] || job in due[1..];
    }
  }

  /** Minutes never remembered as later than the ticks to come. */
  ghost predicate NotAhead(last: Memory, ticks: seq<TickEvent>) {
    forall job, k :: job in last && 0 <= k < |ticks| ==> last[job] <= ticks[k].minute
  }

  lemma {:induction false} FutureAttempts(last: Memory, ticks: seq<TickEvent>, o: Occurrence)
    requires NeverBack(ticks) && NotAhead(last, ticks) && o in AllAttempts(last, ticks)
    ensures o.job in last ==> last[o.job] < o.minute
    ensures exists k :: 0 <= k < |ticks| && ticks[k].minute == o.minute
    decreases |ticks|
  {
    var tick := ticks[0];
    var here := Occurrences(Attempted(last, tick.minute, tick.due), tick.minute);
    var rest := AllAttempts(Remember(last, tick.minute, tick.due), ticks[1..]);
    AttemptedFacts(last, tick.minute, tick.due);
    if o in here {
      assert o.job in Attempted(last, tick.minute, tick.due);
    } else {
      TailNotAhead(last, ticks);
      assert o in rest;
      FutureAttempts(Remember(last, tick.minute, tick.due), ticks[1..], o);
      var k :| 0 <= k < |ticks[1..]| && ticks[1..][k].minute == o.minute;
      assert ticks[k + 1].minute == o.minute;
    }
  }

  lemma TailNotAhead(last: Memory, ticks: seq<TickEvent>)
    requires ticks != [] && NeverBack(ticks) && NotAhead(last, ticks)
    ensures NeverBack(ticks[1..])
    ensures NotAhead(Remember(last, ticks[0].minute, ticks[0].due), ticks[1..])
  {
    AttemptedFacts(last, ticks[0].minute, ticks[0].due);
    assert forall k :: 0 <= k < |ticks[1..]| ==> ticks[1..][k] == ticks[k + 1];
  }

  /** When tick times never go backwards, one process attempts each (job, minute) at most once. */
  lemma {:induction false} AttemptedOncePerProcess(last: Memory, ticks: seq<TickEvent>)
    requires NeverBack(ticks) && NotAhead(last, ticks)
    ensures NoRepeats(AllAttempts(last, ticks))
    decreases |ticks|
  {
    if ticks != [] {
      var tick := ticks[0];
      var last' := Remember(last, tick.minute, tick.due);
      var here := Occurrences(Attempted(last, tick.minute, tick.due), tick.minute);
      var rest := AllAttempts(last', ticks[1..]);
      TailNotAhead(last, ticks);
      AttemptedFacts(last, tick.minute, tick.due);
      AttemptedOncePerProcess(last', ticks[1..]);
      forall i, j | 0 <= i < |here| && 0 <= j < |rest|
        ensures here[i] != rest[j]
      {
        FutureAttempts(last', ticks[1..], rest[j]);
        assert Attempted(last, tick.minute, tick.due)[i] in tick.due;
      }
      ConcatNoRepeats(here, rest);
    }
  }

  lemma ConcatNoRepeats(a: seq<Occurrence>, b: seq<Occurrence>)
    requires NoRepeats(a) && NoRepeats(b) && forall i, j :: 0 <= i < |a| && 0 <= j < |b| ==> a[i] != b[j]
    ensures NoRepeats(a + b)
  {
  }

  // --------------------------------------------------- exactly when an occurrence is repeated

  function RememberAll(last: Memory, ticks: seq<TickEvent>): Memory
    decreases |ticks|
  {
    if ticks == [] then last else RememberAll(Remember(last, ticks[0].minute, ticks[0].due), ticks[1..])
  }

  lemma {:induction false} AttemptsAppend(last: Memory, ticks: seq<TickEvent>, tick: TickEvent)
    ensures RememberAll(last, ticks + [tick]) == Remember(RememberAll(last, ticks), tick.minute, tick.due)
    ensures AllAttempts(last, ticks + [tick])
         == AllAttempts(last, ticks)
            + Occurrences(Attempted(RememberAll(last, ticks), tick.minute, tick.due), tick.minute)
    decreases |ticks|
  {
    if ticks == [] {
      assert ([tick])[1..] == [];
    } else {
      assert (ticks + [tick])[1..] == ticks[1..] + [tick];
      AttemptsAppend(Remember(last, ticks[0].minute, ticks[0].due), ticks[1..], tick);
    }
  }

  predicate DueAt(ticks: seq<TickEvent>, k: int, job: string) {
    0 <= k < |ticks| && job in ticks[k].due
  }

  /** The job was due at position `k` and not again since. */
  ghost predicate LastDueAt(ticks: seq<TickEvent>, k: int, job: string) {
    DueAt(ticks, k, job) && forall j :: k < j < |ticks| ==> !DueAt(ticks, j, job)
  }

  lemma LastDueAppend(ticks: seq<TickEvent>, n: nat, job: string)
    requires |ticks| == n + 1
    ensures forall k :: DueAt(ticks[..n], k, job) <==> k < n && DueAt(ticks, k, job)
    ensures job in ticks[n].due ==> forall k :: LastDueAt(ticks, k, job) <==> k == n
    ensures job !in ticks[n].due ==> forall k :: LastDueAt(ticks, k, job) <==> LastDueAt(ticks[..n], k, job)
  {
    assert forall k :: 0 <= k < n ==> ticks[..n][k] == ticks[k];
    if job in ticks[n].due {
      assert DueAt(ticks, n, job);
    } else {
      assert !DueAt(ticks, n, job);
      forall k | LastDueAt(ticks[..n], k, job)
        ensures LastDueAt(ticks, k, job)
      {
        assert forall j :: k < j < n && DueAt(ticks, j, job) ==> DueAt(ticks[..n], j, job);
      }
    }
  }

  /** A process that starts empty remembers, for each job, the minute in which it was last due. */
  lemma {:induction false} RemembersLastDue(ticks: seq<TickEvent>, job: string)
    ensures job in RememberAll(map[], ticks) <==> exists k :: DueAt(ticks, k, job)
    ensures forall k :: LastDueAt(ticks, k, job) ==>
              job in RememberAll(map[], ticks) && RememberAll(map[], ticks)[job] == ticks[k].minute
    ensures job in RememberAll(map[], ticks) ==> exists k :: LastDueAt(ticks, k, job)
    decreases |ticks|
  {
    if ticks != [] {
      var n := |ticks| - 1;
      var before := ticks[..n];
      assert ticks == before + [ticks[n]];
      AttemptsAppend(map[], before, ticks[n]);
      AttemptedFacts(RememberAll(map[], before), ticks[n].minute, ticks[n].due);
      RemembersLastDue(before, job);
      LastDueAppend(ticks, n, job);
      if job in ticks[n].due {
        assert LastDueAt(ticks, n, job) && DueAt(ticks, n, job);
      } else {
        forall k | DueAt(ticks, k, job)
          ensures job in RememberAll(map[], before)
        {
          assert DueAt(before, k, job);
        }
        if k :| LastDueAt(before, k, job) {
          assert LastDueAt(ticks, k, job) && DueAt(ticks, k, job);
        }
      }
    }
  }

  /** Every due occurrence is attempted at some tick. */
  lemma {:induction false} AttemptedIffDue(ticks: seq<TickEvent>, o: Occurrence)
    ensures o in AllAttempts(map[], ticks) <==> exists k :: DueAt(ticks, k, o.job) && ticks[k].minute == o.minute
    decreases |ticks|
  {
    if ticks != [] {
      var n := |ticks| - 1;
      var before, last := ticks[..n], RememberAll(map[], ticks[..n]);
      assert ticks == before + [ticks[n]];
      AttemptsAppend(map[], before, ticks[n]);
      AttemptedFacts(last, ticks[n].minute, ticks[n].due);
      AttemptedIffDue(before, o);
      RemembersLastDue(before, o.job);
      var jobs := Attempted(last, ticks[n].minute, ticks[n].due);
      var here := Occurrences(jobs, ticks[n].minute);
      assert o in here <==> o.job in jobs && o.minute == ticks[n].minute by {
        if o.job in jobs && o.minute == ticks[n].minute {
          var i :| 0 <= i < |jobs| && jobs[i] == o.job;
          assert here[i] == o;
        }
      }
      assert forall k :: 0 <= k < n ==> before[k] == ticks[k];
      assert forall k :: DueAt(before, k, o.job) <==> k < n && DueAt(ticks, k, o.job);
    }
  }

  /** The clock revisits a minute of the job after another minute in which the job was due too. */
  ghost predicate Revisits(ticks: seq<TickEvent>, i: int, j: int, k: int, job: string) {
    && i < j < k && DueAt(ticks, i, job) && DueAt(ticks, j, job) && DueAt(ticks, k, job)
    && ticks[i].minute == ticks[k].minute != ticks[j].minute
  }

  ghost predicate NeverRevisits(ticks: seq<TickEvent>) {
    forall i, j, k, job :: !Revisits(ticks, i, j, k, job)
  }

  /** The last tick adds no repeat exactly when no minute is revisited with it. */
  lemma LastTickRepeats(ticks: seq<TickEvent>, n: nat)
    requires |ticks| == n + 1 && NeverRevisits(ticks[..n])
    ensures var jobs := Attempted(RememberAll(map[], ticks[..n]), ticks[n].minute, ticks[n].due);
            (forall job :: job in jobs ==> Occurrence(job, ticks[n].minute) !in AllAttempts(map[], ticks[..n])) <==>
            (forall i, j, job :: !Revisits(ticks, i, j, n, job))
  {
    var before, last := ticks[..n], RememberAll(map[], ticks[..n]);
    var jobs := Attempted(last, ticks[n].minute, ticks[n].due);
    AttemptedFacts(last, ticks[n].minute, ticks[n].due);
    assert forall k :: 0 <= k < n ==> before[k] == ticks[k];
    assert forall k, job :: DueAt(before, k, job) <==> k < n && DueAt(ticks, k, job);
    forall job | job in jobs && Occurrence(job, ticks[n].minute) in AllAttempts(map[], before)
      ensures exists i, j :: Revisits(ticks, i, j, n, job)
    {
      AttemptedIffDue(before, Occurrence(job, ticks[n].minute));
      RemembersLastDue(before, job);
      var i :| DueAt(before, i, job) && before[i].minute == ticks[n].minute;
      var j :| LastDueAt(before, j, job);
      assert Revisits(ticks, i, j, n, job);
    }
    forall i, j, job | Revisits(ticks, i, j, n, job)
      ensures job in jobs && Occurrence(job, ticks[n].minute) in AllAttempts(map[], before)
    {
      AttemptedIffDue(before, Occurrence(job, ticks[n].minute));
      RemembersLastDue(before, job);
      assert DueAt(before, i, job);
      var l :| LastDueAt(before, l, job);
      assert !Revisits(before, i, j, l, job);
    }
  }

  /**
   * One process, started with an empty memory, attempts no occurrence twice exactly when its tick times
   * never return to a minute of a job after another minute in which the job was due.
   */
  lemma {:induction false} AttemptedOnceIffNeverRevisits(ticks: seq<TickEvent>)
    ensures NoRepeats(AllAttempts(map[], ticks)) <==> NeverRevisits(ticks)
    decreases |ticks|
  {
    if ticks != [] {
      var n := |ticks| - 1;
      var before, last := ticks[..n], RememberAll(map[], ticks[..n]);
      assert ticks == before + [ticks[n]];
      AttemptsAppend(map[], before, ticks[n]);
      AttemptedFacts(last, ticks[n].minute, ticks[n].due);
      AttemptedOnceIffNeverRevisits(before);
      RevisitsAppend(ticks, n);
      var jobs := Attempted(last, ticks[n].minute, ticks[n].due);
      RepeatsAppend(AllAttempts(map[], before), jobs, ticks[n].minute);
      if NeverRevisits(before) {
        LastTickRepeats(ticks, n);
      }
    }
  }

  lemma RevisitsAppend(ticks: seq<TickEvent>, n: nat)
    requires |ticks| == n + 1
    ensures NeverRevisits(ticks) <==>
            NeverRevisits(ticks[..n]) && forall i, j, job :: !Revisits(ticks, i, j, n, job)
  {
    var before := ticks[..n];
    forall i, j, k, job
      ensures Revisits(before, i, j, k, job) <==> k < n && Revisits(ticks, i, j, k, job)
    {
    }
  }

  lemma RepeatsAppend(attempts: seq<Occurrence>, jobs: seq<string>, minute: int)
    requires NoRepeats(jobs)
    ensures NoRepeats(attempts + Occurrences(jobs, minute)) <==>
            NoRepeats(attempts) && forall job :: job in jobs ==> Occurrence(job, minute) !in attempts
  {
    var here := Occurrences(jobs, minute);
    var all := attempts + here;
    if NoRepeats(all) {
      assert forall i :: 0 <= i < |attempts| ==> all[i] == attempts[i];
      forall job | job in jobs
        ensures Occurrence(job, minute) !in attempts
      {
        var j :| 0 <= j < |jobs| && jobs[j] == job;
        assert all[|attempts| + j] == Occurrence(job, minute);
      }
    }
    if NoRepeats(attempts) && forall job :: job in jobs ==> Occurrence(job, minute) !in attempts {
      forall i, j | 0 <= i < j < |all|
        ensures all[i] != all[j]
      {
        if i < |attempts| <= j {
          assert all[j] == Occurrence(jobs[j - |attempts|], minute);
        }
      }
    }
  }

  /** A clock that steps back makes a process attempt an occurrence again: only the last minute is remembered. */
  lemma BackwardTickRepeats(job: string, minute: int)
    ensures AllAttempts(map[], [TickEvent(minute, [job]), TickEvent(minute + 1, [job]), TickEvent(minute, [job])])
         == [Occurrence(job, minute), Occurrence(job, minute + 1), Occurrence(job, minute)]
  {
    var a, b, c := TickEvent(minute, [job]), TickEvent(minute + 1, [job]), TickEvent(minute, [job]);
    assert [a, b, c][1..] == [b, c] && [b, c][1..] == [c] && [c][1..] == [];
    var m1, m2 := map[job := minute], map[job := minute + 1];
    OneJobTick(map[], job, minute);
    OneJobTick(m1, job, minute + 1);
    OneJobTick(m2, job, minute);
    assert m1[job := minute + 1] == m2;
    assert AllAttempts(m2, [c]) == [Occurrence(job, minute)];
    assert AllAttempts(m1, [b, c]) == [Occurrence(job, minute + 1), Occurrence(job, minute)];
  }

  lemma OneJobTick(last: Memory, job: string, minute: int)
    requires !(job in last && last[job] == minute)
    ensures Attempted(last, minute, [job]) == [job] && Remember(last, minute, [job]) == last[job := minute]
  {
    assert [job][1..] == [];
  }
}
