/**
 * The total number of deliveries a run can attempt, and concrete runs in which the attempt limit is
 * exceeded because a statement used a stale reading.
 */
module OutboxBudget {
  import opened Prelude
  import opened OutboxRows
  import opened OutboxProtocol
  import opened OutboxSafety
  import opened OutboxBounds

  function Left(row: Row): int {
    row.maxAttempts - row.attempts
  }

  /** Attempts a table still allows, over all its rows. */
  ghost function Budget(rows: Table): int
    decreases |rows|
  {
    if rows == map[] then 0
    else
      var id :| id in rows;
      Left(rows[id]) + Budget(rows - {id})
  }

  lemma {:induction false} BudgetWithout(rows: Table, id: RowId)
    requires id in rows
    ensures Budget(rows) == Left(rows[id]) + Budget(rows - {id})
    decreases |rows|
  {
    var first :| id in rows && first in rows &&
                 Budget(rows) == Left(rows[first]) + Budget(rows - {first});
    if first != id {
      BudgetWithout(rows - {first}, id);
      BudgetWithout(rows - {id}, first);
      assert rows - {first} - {id} == rows - {id} - {first};
    }
  }

  lemma BudgetUpdate(rows: Table, id: RowId, row: Row)
    ensures Budget(rows[id := row]) ==
            Budget(rows) + Left(row) - (if id in rows then Left(rows[id]) else 0)
  {
    var rows' := rows[id := row];
    BudgetWithout(rows', id);
    assert rows' - {id} == rows - {id};
    if id in rows {
      BudgetWithout(rows, id);
    } else {
      assert rows - {id} == rows;
    }
  }

  /** Rows may disappear or keep what they have left; then the budget does not grow. */
  lemma {:induction false} BudgetShrinks(rows: Table, rows': Table)
    requires Bounded(rows)
    requires forall id :: id in rows' ==> id in rows && Left(rows'[id]) == Left(rows[id])
    ensures Budget(rows') <= Budget(rows)
    decreases |rows|
  {
    if rows == map[] {
      assert rows' == map[];
    } else {
      var id :| id in rows;
      assert WithinLimit(rows[id]);
      BudgetWithout(rows, id);
      BudgetShrinks(rows - {id}, rows' - {id});
      if id in rows' {
        BudgetWithout(rows', id);
      } else {
        assert rows' - {id} == rows';
      }
    }
  }

  lemma {:induction false} BudgetAfterClaim(rows: Table, chosen: seq<RowId>, w: WorkerId, now: int)
    requires Distinct(chosen) && forall id :: id in chosen ==> id in rows
    ensures Budget(ClaimRows(rows, chosen, w, now)) == Budget(rows) - |chosen|
    decreases |chosen|
  {
    if chosen == [] {
      assert ClaimRows(rows, chosen, w, now) == rows;
    } else {
      var last := |chosen| - 1;
      var before := ClaimRows(rows, chosen[..last], w, now);
      BudgetAfterClaim(rows, chosen[..last], w, now);
      assert before[chosen[last]] == rows[chosen[last]];
      BudgetUpdate(before, chosen[last], ClaimedRow(rows[chosen[last]], w, now));
      assert ClaimRows(rows, chosen, w, now) == before[chosen[last] := ClaimedRow(rows[chosen[last]], w, now)];
    }
  }

  /** Every row an enqueue inserts brings its limit; skipped duplicates bring nothing. */
  lemma {:induction false} BudgetAfterInsert(rows: Table, batch: seq<(RowId, Event)>, now: int)
    ensures Budget(InsertMissing(rows, batch, now))
         == Budget(rows) + DEFAULT_MAX_ATTEMPTS * (|InsertMissing(rows, batch, now)| - |rows|)
    decreases |batch|
  {
    if batch != [] {
      var (id, event) := batch[0];
      if id in rows || EventStored(rows, event.eventId) {
        BudgetAfterInsert(rows, batch[1..], now);
      } else {
        var rows' := rows[id := NewRow(event, DEFAULT_MAX_ATTEMPTS, None, now)];
        BudgetUpdate(rows, id, rows'[id]);
        BudgetAfterInsert(rows', batch[1..], now);
        assert |rows'| == |rows| + 1;
      }
    }
  }

  function ClaimedNow(a: Action): nat {
    if a.Work? && a.step.Claim? then |a.step.chosen| else 0
  }

  /** The limits of the rows an action inserts. */
  function Granted(s: State, a: Action): int {
    match a
    case Enqueue(batch, now) => DEFAULT_MAX_ATTEMPTS * (|InsertMissing(s.rows, batch, now)| - |s.rows|)
    case ReplayRow(_, _, _, grant, _) => grant
    case _ => 0
  }

  function TotalClaims(acts: seq<Action>): nat {
    if acts == [] then 0 else TotalClaims(acts[..|acts| - 1]) + ClaimedNow(acts[|acts| - 1])
  }

  /** The limits of all rows inserted in the first `n` steps of a run. */
  function TotalGranted(ss: seq<State>, acts: seq<Action>, n: nat): int
    requires n <= |ss| && n <= |acts|
  {
    if n == 0 then 0 else TotalGranted(ss, acts, n - 1) + Granted(ss[n - 1], acts[n - 1])
  }

  lemma BudgetAfterStep(s: State, a: Action)
    requires Bounded(s.rows) && Enabled(s, a) && !a.RetryWrite?
    ensures Budget(RowsAfter(s, a)) + ClaimedNow(a) <= Budget(s.rows) + Granted(s, a)
  {
    if a.Work? && a.step.Claim? {
      BudgetAfterClaim(s.rows, a.step.chosen, a.worker, a.step.now);
    } else if a.Enqueue? {
      BudgetAfterInsert(s.rows, a.batch, a.now);
    } else if a.ReplayRow? {
      BudgetUpdate(s.rows, a.newId, NewRow(s.rows[a.id].event.(eventId := a.newEventId), a.grant, Some(a.id), a.now));
    } else {
      BudgetShrinks(s.rows, RowsAfter(s, a));
    }
  }

  lemma {:induction false} ClaimsSpendBudget(ss: seq<State>, acts: seq<Action>, n: nat)
    requires IsRun(ss, acts) && Inv(ss[0]) && Bounded(ss[0].rows) && n < |ss|
    requires forall i :: 0 <= i < n ==> Step(ss[i], acts[i], ss[i + 1]) && Exact(ss[i], acts[i]) && !acts[i].RetryWrite?
    ensures TotalClaims(acts[..n]) + Budget(ss[n].rows) <= Budget(ss[0].rows) + TotalGranted(ss, acts, n)
  {
    if n > 0 {
      ClaimsSpendBudget(ss, acts, n - 1);
      ExactRunsStayBounded(ss, acts, n - 1);
      assert Step(ss[n - 1], acts[n - 1], ss[n - 1 + 1]);
      BudgetAfterStep(ss[n - 1], acts[n - 1]);
      assert acts[..n][..n - 1] == acts[..n - 1];
    }
  }

  /**
   * Without operator retries the number of claims in a run, over all rows and workers, is at most
   * the attempts left at its start plus the limits of the rows inserted meanwhile.
   */
  lemma TotalClaimsBounded(ss: seq<State>, acts: seq<Action>)
    requires IsRun(ss, acts) && Inv(ss[0]) && Bounded(ss[0].rows)
    requires forall i :: 0 <= i < |acts| ==> Step(ss[i], acts[i], ss[i + 1]) && Exact(ss[i], acts[i])
    requires forall i :: 0 <= i < |acts| ==> !acts[i].RetryWrite?
    ensures TotalClaims(acts) <= Budget(ss[0].rows) + TotalGranted(ss, acts, |acts|)
  {
    ClaimsSpendBudget(ss, acts, |acts|);
    ExactRunsStayBounded(ss, acts, |acts|);
    BudgetShrinks(ss[|acts|].rows, map[]);
    assert acts[..|acts|] == acts;
  }

  /**
   * From an empty table, with paired statements and no operator retry, the number of claims is at most the
   * sum of the limits of all rows ever inserted.
   */
  lemma PairedClaimsBounded(ss: seq<State>, acts: seq<Action>)
    requires IsRun(ss, acts) && Initial(ss[0]) && Paired(acts)
    requires forall i :: 0 <= i < |acts| ==> !acts[i].RetryWrite?
    ensures TotalClaims(acts) <= TotalGranted(ss, acts, |acts|)
  {
    PairedRunsAreExact(ss, acts, |acts|);
    ReachableStatesAreSafe(ss, acts, 0);
    TotalClaimsBounded(ss, acts);
  }

  // ------------------------------------------------------- stale readings break the limit

  const LEASE: int := 300_000
  const EXAMPLE := Event("event-1", "TICKET_CREATED", 0, "{}")

  /** One row, claimed `k` times by a worker that crashes every time, one lease plus 1 ms apart. */
  function CrashLoop(k: nat): State {
    var claimedAt := k * (LEASE + 1);
    var row := if k == 0 then NewRow(EXAMPLE, DEFAULT_MAX_ATTEMPTS, None, 0)
               else Row(EXAMPLE, Processing, k, DEFAULT_MAX_ATTEMPTS, 0, Some(claimedAt), Some("a"),
                        None, None, None, None, claimedAt);
    State(map[], map["row" := row], if k == 0 then map[] else map["a" := Idle], map[], {},
          multiset{}, multiset{}, multiset{})
  }

  /** Sweeping while the previous lease still stands, then claiming just after it ran out. */
  function CrashCycle(k: nat): seq<Action> {
    [ Work("a", Sweep(k * (LEASE + 1) + LEASE, LEASE)),
      Work("a", Claim((k + 1) * (LEASE + 1), {}, 1, ["row"], false)) ]
  }

  lemma CycleRuns(k: nat)
    ensures Enabled(CrashLoop(k), CrashCycle(k)[0])
    ensures var mid := Apply(CrashLoop(k), CrashCycle(k)[0]);
            Enabled(mid, CrashCycle(k)[1]) && Apply(mid, CrashCycle(k)[1]) == CrashLoop(k + 1)
  {
    var s := CrashLoop(k);
    var sweep := CrashCycle(k)[0];
    var mid := Apply(s, sweep);
    assert SweepExhausted(s.rows, sweep.step.now, LEASE) == s.rows;
    var claim := CrashCycle(k)[1];
    assert Candidates(mid.rows, claim.step.now, LEASE, {}) == {"row"};
    assert Enabled(mid, claim);
    var t := Apply(mid, claim);
    assert t.rows == CrashLoop(k + 1).rows;
    assert t.workers == CrashLoop(k + 1).workers;
  }

  const EMPTY := State(map[], map[], map[], map[], {}, multiset{}, multiset{}, multiset{})

  lemma FirstStep()
    ensures Enabled(EMPTY, Enqueue([("row", EXAMPLE)], 0))
    ensures Apply(EMPTY, Enqueue([("row", EXAMPLE)], 0)) == CrashLoop(0)
  {
    assert InsertMissing(map[], [("row", EXAMPLE)], 0)
        == InsertMissing(map["row" := NewRow(EXAMPLE, DEFAULT_MAX_ATTEMPTS, None, 0)], [], 0);
  }

  lemma OneMoreCrash(ss: seq<State>, acts: seq<Action>, k: nat) returns (ss': seq<State>, acts': seq<Action>)
    requires IsRun(ss, acts) && Initial(ss[0]) && ss[|acts|] == CrashLoop(k)
    ensures IsRun(ss', acts') && Initial(ss'[0]) && ss'[|acts'|] == CrashLoop(k + 1)
  {
    CycleRuns(k);
    var sweep, claim := CrashCycle(k)[0], CrashCycle(k)[1];
    var mid := Apply(CrashLoop(k), sweep);
    AppendStep(ss, acts, sweep);
    AppendStep(ss + [mid], acts + [sweep], claim);
    ss', acts' := ss + [mid] + [CrashLoop(k + 1)], acts + [sweep] + [claim];
  }

  lemma {:induction false} CrashRun(k: nat) returns (ss: seq<State>, acts: seq<Action>)
    ensures IsRun(ss, acts) && Initial(ss[0]) && ss[|acts|] == CrashLoop(k)
  {
    if k == 0 {
      FirstStep();
      AppendStep([EMPTY], [], Enqueue([("row", EXAMPLE)], 0));
      ss, acts := [EMPTY] + [CrashLoop(0)], [] + [Enqueue([("row", EXAMPLE)], 0)];
    } else {
      ss, acts := CrashRun(k - 1);
      ss, acts := OneMoreCrash(ss, acts, k - 1);
    }
  }

  /**
   * The two statements of a claim read the clock separately. When a lease runs out between the two
   * readings the exhausted row is claimed once more, so attempts can pass the limit, and without end:
   * for every k there is a run in which a row limited to 5 attempts has been claimed k times.
   */
  lemma SplitClockReadingsExceedLimit(k: nat)
    requires k > DEFAULT_MAX_ATTEMPTS
    ensures exists ss: seq<State>, acts: seq<Action> ::
              && IsRun(ss, acts) && Initial(ss[0]) && "row" in ss[|acts|].rows
              && ss[|acts|].rows["row"].attempts == k > ss[|acts|].rows["row"].maxAttempts
  {
    var ss, acts := CrashRun(k);
    assert ss[|acts|].rows["row"].attempts == k;
  }
}
