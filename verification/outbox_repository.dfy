/**
 * The repository and operator services as objects that change the table in place. Every method is
 * one or two statements; its contract says which table function describes the effect.
 */
module OutboxStore {
  import opened Prelude
  import opened OutboxRows
  import RetryBackoff

  /** An id of the earliest event among `from`. */
  method Earliest(rows: Table, from: set<RowId>) returns (first: RowId)
    requires from != {} && from <= rows.Keys
    ensures first in from
    ensures forall id :: id in from ==> rows[first].event.occurredAt <= rows[id].event.occurredAt
  {
    first :| first in from;
    var rest := from - {first};
    while rest != {}
      invariant first in from && rest <= from
      invariant forall id :: id in from && id !in rest ==> rows[first].event.occurredAt <= rows[id].event.occurredAt
      decreases |rest|
    {
      var id :| id in rest;
      if rows[id].event.occurredAt < rows[first].event.occurredAt {
        first := id;
      }
      rest := rest - {id};
    }
  }

  /** ORDER BY occurred_at LIMIT n. */
  method SelectEarliest(rows: Table, from: set<RowId>, n: nat) returns (chosen: seq<RowId>)
    requires from <= rows.Keys
    ensures IsEarliest(rows, from, n, chosen)
    ensures |chosen| <= n && forall i, j :: 0 <= i < j < |chosen| ==> chosen[i] != chosen[j]
    ensures forall i, j :: 0 <= i < j < |chosen| ==>
              rows[chosen[i]].event.occurredAt <= rows[chosen[j]].event.occurredAt
    ensures forall id :: id in chosen ==> id in from
    ensures forall id :: id in from && id !in chosen ==>
              |chosen| == n && forall c :: c in chosen ==> rows[c].event.occurredAt <= rows[id].event.occurredAt
  {
    chosen := [];
    var rest := from;
    while |chosen| < n && rest != {}
      invariant rest <= from && |chosen| <= n
      invariant Distinct(chosen)
      invariant forall id :: id in from ==> (id in chosen <==> id !in rest)
      invariant forall id :: id in chosen ==> id in from
      invariant forall i, j :: 0 <= i < j < |chosen| ==>
                  rows[chosen[i]].event.occurredAt <= rows[chosen[j]].event.occurredAt
      invariant forall i, id :: 0 <= i < |chosen| && id in rest ==>
                  rows[chosen[i]].event.occurredAt <= rows[id].event.occurredAt
      decreases |rest|
    {
      var first := Earliest(rows, rest);
      chosen, rest := chosen + [first], rest - {first};
    }
  }

  /**
   * What the second statement of a claim does, column by column: only rows that are due and not locked by another
   * claim are taken, all of them unless the batch is full, and taking a row changes only its lease and its counter.
   */
  ghost predicate TakesDueRows(before: Table, after: Table, chosen: seq<RowId>, worker: WorkerId, now: int,
                               leaseMs: int, skipLocked: set<RowId>, size: nat) {
    && after.Keys == before.Keys && (forall id :: id in chosen ==> id in before)
    && forall id :: id in before ==>
         var row := before[id];
         var due :=
           && id !in skipLocked
           && (if row.status == Processing then row.lockedAt.Some? && row.lockedAt.value < now - leaseMs
               else (row.status == Pending || row.status == Failed) && row.availableAt <= now);
         && (id in chosen ==> due)
         && (due && |chosen| < size ==> id in chosen)
         && after[id] == if id !in chosen then row
                         else row.(status := Processing, attempts := row.attempts + 1,
                                   lockedAt := Some(now), lockedBy := Some(worker), updatedAt := now)
  }

  /** What the first statement does, column by column. */
  ghost predicate DeadLettersExhausted(before: Table, after: Table, now: int, leaseMs: int) {
    && after.Keys == before.Keys
    && forall id :: id in before ==>
         var row := before[id];
         after[id] == if row.status == Processing && row.lockedAt.Some?
                         && row.lockedAt.value < now - leaseMs && row.attempts >= row.maxAttempts
                      then row.(status := DeadLetter, lockedAt := None, lockedBy := None, failedAt := Some(now),
                                deadLetterReason := Some("Processing lease expired after maximum attempts"),
                                updatedAt := now)
                      else row
  }

  /** The records are the chosen rows as they are after the claim, each once, earliest event first. */
  ghost predicate Delivers(rows: Table, chosen: seq<RowId>, records: seq<Record>) {
    && |records| == |chosen|
    && (forall i :: 0 <= i < |records| ==>
          && records[i].id == chosen[i] && chosen[i] in rows && records[i].event == rows[chosen[i]].event
          && (records[i].attempts, records[i].maxAttempts) == (rows[chosen[i]].attempts, rows[chosen[i]].maxAttempts))
    && forall i, j :: 0 <= i < j < |records| ==>
         records[i].id != records[j].id && records[i].event.occurredAt <= records[j].event.occurredAt
  }

  lemma ClaimTakesDueRows(before: Table, chosen: seq<RowId>, worker: WorkerId, now: int, leaseMs: int,
                          skipLocked: set<RowId>, size: nat)
    requires IsEarliest(before, Candidates(before, now, leaseMs, skipLocked), size, chosen)
    ensures TakesDueRows(before, ClaimRows(before, chosen, worker, now), chosen, worker, now, leaseMs, skipLocked, size)
  {
  }

  lemma ClaimDelivers(before: Table, from: set<RowId>, size: nat, chosen: seq<RowId>, worker: WorkerId, now: int)
    requires from <= before.Keys && IsEarliest(before, from, size, chosen)
    ensures var after := ClaimRows(before, chosen, worker, now);
            Delivers(after, chosen, RecordsOf(after, chosen))
  {
  }

  /**
   * The last attempt of the worker's copy ends in the dead letters with the start of the error; an earlier one
   * waits for 5 s doubled per attempt, an hour at most.
   */
  ghost predicate FailedBy(before: Row, after: Row, copy: Record, error: string, now: int) {
    && after.status == (if copy.attempts < copy.maxAttempts then Failed else DeadLetter)
    && (after.status == Failed ==> after.deadLetterReason == None)
    && (after.status == DeadLetter ==>
          && after.deadLetterReason.Some? && after.deadLetterReason.value <= error
          && (|error| > 2000 ==> |after.deadLetterReason.value| == 2000)
          && (|error| <= 2000 ==> after.deadLetterReason.value == error))
    && after.availableAt == now + RetryBackoff.RetryDelayMs(copy.attempts)
    && after.lockedAt == None && after.lockedBy == None && after.failedAt == Some(now) && after.updatedAt == now
    && (after.event, after.attempts, after.maxAttempts) == (before.event, before.attempts, before.maxAttempts)
    && (after.processedAt, after.replayOf) == (before.processedAt, before.replayOf)
  }

  /** Row ids are created afresh for every batch. */
  ghost predicate FreshIds(rows: Table, batch: seq<(RowId, Event)>) {
    && (forall k :: 0 <= k < |batch| ==> batch[k].0 !in rows)
    && forall j, k :: 0 <= j < k < |batch| ==> batch[j].0 != batch[k].0
  }

  /** Neither a stored row nor an earlier entry of the batch carries the event id of entry `k`. */
  ghost predicate IsFirst(rows: Table, batch: seq<(RowId, Event)>, k: nat)
    requires k < |batch|
  {
    && (forall id :: id in rows ==> rows[id].event.eventId != batch[k].1.eventId)
    && forall j :: 0 <= j < k ==> batch[j].1.eventId != batch[k].1.eventId
  }

  /** A new row holds the event of its own entry and waits for its first of five attempts. */
  ghost predicate NewRowsAreWaiting(before: Table, after: Table, batch: seq<(RowId, Event)>, n: nat, now: int)
    requires n <= |batch|
  {
    forall id :: id in after && id !in before ==>
      exists k :: 0 <= k < n && batch[k].0 == id
                  && after[id] == Row(batch[k].1, Pending, 0, 5, now, None, None, None, None, None, None, now)
  }

  /** Of the first `n` entries, those with a new event id have their row, and every event id is stored. */
  ghost predicate FirstsStored(before: Table, rows: Table, batch: seq<(RowId, Event)>, n: nat)
    requires n <= |batch|
  {
    && (forall k :: 0 <= k < n ==> (batch[k].0 in rows <==> IsFirst(before, batch, k)))
    && (forall k :: 0 <= k < n ==> EventStored(rows, batch[k].1.eventId))
    && (forall k :: n <= k < |batch| ==> batch[k].0 !in rows)
  }

  /** What inserting the first `n` entries does: stored rows stay, new ones wait, no event id is missing. */
  ghost predicate FirstsInserted(before: Table, rows: Table, batch: seq<(RowId, Event)>, n: nat, now: int)
    requires n <= |batch|
  {
    && (forall id :: id in before ==> id in rows && rows[id] == before[id])
    && NewRowsAreWaiting(before, rows, batch, n, now)
    && (FreshIds(before, batch) ==> FirstsStored(before, rows, batch, n))
  }

  lemma StoredIffNotFirst(before: Table, rows: Table, batch: seq<(RowId, Event)>, n: nat, now: int)
    requires n < |batch| && FreshIds(before, batch) && FirstsInserted(before, rows, batch, n, now)
    ensures EventStored(rows, batch[n].1.eventId) <==> !IsFirst(before, batch, n)
  {
    var eventId := batch[n].1.eventId;
    if EventStored(rows, eventId) {
      var id :| id in rows && rows[id].event.eventId == eventId;
      if id !in before {
        var k :| 0 <= k < n && batch[k].0 == id && rows[id].event == batch[k].1;
        assert batch[k].1.eventId == eventId;
      }
    } else {
      forall id | id in before
        ensures before[id].event.eventId != eventId
      {
        assert rows[id].event.eventId != eventId;
      }
    }
  }

  lemma NextIsWaiting(before: Table, rows: Table, batch: seq<(RowId, Event)>, n: nat, now: int)
    requires n < |batch| && NewRowsAreWaiting(before, rows, batch, n, now)
    ensures NewRowsAreWaiting(before, rows, batch, n + 1, now)
    ensures var after := rows[batch[n].0 := NewRow(batch[n].1, DEFAULT_MAX_ATTEMPTS, None, now)];
            NewRowsAreWaiting(before, after, batch, n + 1, now)
  {
  }

  lemma StoredEventStays(rows: Table, id: RowId, row: Row, eventId: string)
    requires id !in rows && EventStored(rows, eventId)
    ensures EventStored(rows[id := row], eventId)
  {
    var other :| other in rows && rows[other].event.eventId == eventId;
    assert rows[id := row][other] == rows[other];
  }

  lemma SkippedIsStored(before: Table, rows: Table, batch: seq<(RowId, Event)>, n: nat)
    requires n < |batch| && FirstsStored(before, rows, batch, n)
    requires EventStored(rows, batch[n].1.eventId) && !IsFirst(before, batch, n)
    ensures FirstsStored(before, rows, batch, n + 1)
  {
  }

  /** Skipping an entry. */
  lemma NextSkipped(before: Table, rows: Table, batch: seq<(RowId, Event)>, n: nat, now: int)
    requires n < |batch| && FirstsInserted(before, rows, batch, n, now)
    requires batch[n].0 in rows || EventStored(rows, batch[n].1.eventId)
    ensures FirstsInserted(before, rows, batch, n + 1, now)
  {
    NextIsWaiting(before, rows, batch, n, now);
    if FreshIds(before, batch) {
      StoredIffNotFirst(before, rows, batch, n, now);
      SkippedIsStored(before, rows, batch, n);
    }
  }

  lemma InsertedIsStored(before: Table, rows: Table, batch: seq<(RowId, Event)>, n: nat, row: Row)
    requires n < |batch| && FreshIds(before, batch) && FirstsStored(before, rows, batch, n)
    requires IsFirst(before, batch, n) && row.event == batch[n].1
    ensures FirstsStored(before, rows[batch[n].0 := row], batch, n + 1)
  {
    var id := batch[n].0;
    assert EventStored(rows[id := row], batch[n].1.eventId) by {
      assert rows[id := row][id].event.eventId == batch[n].1.eventId;
    }
    forall k | 0 <= k < n
      ensures EventStored(rows[id := row], batch[k].1.eventId)
    {
      StoredEventStays(rows, id, row, batch[k].1.eventId);
    }
  }

  /** Inserting an entry. */
  lemma NextInserted(before: Table, rows: Table, batch: seq<(RowId, Event)>, n: nat, now: int)
    requires n < |batch| && FirstsInserted(before, rows, batch, n, now)
    requires batch[n].0 !in rows && !EventStored(rows, batch[n].1.eventId)
    ensures FirstsInserted(before, rows[batch[n].0 := NewRow(batch[n].1, DEFAULT_MAX_ATTEMPTS, None, now)],
                           batch, n + 1, now)
  {
    NextIsWaiting(before, rows, batch, n, now);
    if FreshIds(before, batch) {
      StoredIffNotFirst(before, rows, batch, n, now);
      InsertedIsStored(before, rows, batch, n, NewRow(batch[n].1, DEFAULT_MAX_ATTEMPTS, None, now));
    }
  }

  class OutboxRepository {
    var rows: Table

    constructor ()
      ensures rows == map[]
    {
      rows := map[];
    }

    method EnqueueMany(batch: seq<(RowId, Event)>, now: int)
      modifies this
      ensures rows == InsertMissing(old(rows), batch, now)
      ensures forall id :: id in old(rows) ==> id in rows && rows[id] == old(rows)[id]
      ensures NewRowsAreWaiting(old(rows), rows, batch, |batch|, now)
      ensures FreshIds(old(rows), batch) ==>
                forall k :: 0 <= k < |batch| ==> (batch[k].0 in rows <==> IsFirst(old(rows), batch, k))
    {
      for k := 0 to |batch|
        invariant InsertMissing(rows, batch[k..], now) == InsertMissing(old(rows), batch, now)
        invariant FirstsInserted(old(rows), rows, batch, k, now)
      {
        var (id, event) := batch[k];
        assert batch[k..][1..] == batch[k + 1..];
        if id in rows || EventStored(rows, event.eventId) {
          NextSkipped(old(rows), rows, batch, k, now);
        } else {
          NextInserted(old(rows), rows, batch, k, now);
          rows := rows[id := NewRow(event, DEFAULT_MAX_ATTEMPTS, None, now)];
        }
      }
    }

    /** Statement 1 of a claim, row by row. */
    method DeadLetterExhausted(now: int, leaseMs: int)
      modifies this
      ensures rows == SweepExhausted(old(rows), now, leaseMs)
      ensures DeadLettersExhausted(old(rows), rows, now, leaseMs)
    {
      var todo := rows.Keys;
      while todo != {}
        invariant rows.Keys == old(rows).Keys && todo <= rows.Keys
        invariant forall id :: id in rows ==>
                    rows[id] == if id in todo then old(rows)[id] else SweepExhausted(old(rows), now, leaseMs)[id]
        decreases |todo|
      {
        var id :| id in todo;
        if Exhausted(rows[id], now, leaseMs) {
          rows := rows[id := DeadLetterExpired(rows[id], now)];
        }
        todo := todo - {id};
      }
    }

    /** The update of statement 2, row by row. */
    method TakeRows(picked: seq<RowId>, worker: WorkerId, now: int) returns (records: seq<Record>)
      requires Distinct(picked) && forall id :: id in picked ==> id in rows
      modifies this
      ensures rows == OutboxRows.ClaimRows(old(rows), picked, worker, now)
      ensures records == RecordsOf(rows, picked)
    {
      records := [];
      for k := 0 to |picked|
        invariant rows == OutboxRows.ClaimRows(old(rows), picked[..k], worker, now)
        invariant |records| == k
        invariant forall i :: 0 <= i < k ==>
                    records[i] == RecordOf(picked[i], ClaimedRow(old(rows)[picked[i]], worker, now))
      {
        var id := picked[k];
        assert rows[id] == old(rows)[id];
        rows := rows[id := ClaimedRow(rows[id], worker, now)];
        records := records + [RecordOf(id, rows[id])];
        assert picked[..k + 1] == picked[..k] + [id];
      }
      assert picked[..|picked|] == picked;
    }

    /**
     * Claims up to `batchSize` deliverable rows. `skipLocked` are the rows concurrent claims hold
     * locked; the two statements read the clock separately.
     */
    method ClaimBatch(worker: WorkerId, batchSize: nat := 100, leaseMs: int := 300_000,
                      sweepNow: int, claimNow: int, skipLocked: set<RowId>)
      returns (records: seq<Record>, ghost swept: Table, ghost chosen: seq<RowId>)
      modifies this
      ensures DeadLettersExhausted(old(rows), swept, sweepNow, leaseMs)
      ensures TakesDueRows(swept, rows, chosen, worker, claimNow, leaseMs, skipLocked, batchSize)
      ensures Delivers(rows, chosen, records) && |records| <= batchSize
      ensures swept == SweepExhausted(old(rows), sweepNow, leaseMs)
      ensures IsEarliest(swept, Candidates(swept, claimNow, leaseMs, skipLocked), batchSize, chosen)
              && rows == ClaimRows(swept, chosen, worker, claimNow)
              && records == RecordsOf(rows, chosen)
    {
      DeadLetterExhausted(sweepNow, leaseMs);
      swept := rows;
      var picked := SelectEarliest(rows, Candidates(rows, claimNow, leaseMs, skipLocked), batchSize);
      records := TakeRows(picked, worker, claimNow);
      chosen := picked;
      ClaimTakesDueRows(swept, picked, worker, claimNow, leaseMs, skipLocked, batchSize);
      ClaimDelivers(swept, Candidates(swept, claimNow, leaseMs, skipLocked), batchSize, picked, worker, claimNow);
    }

    method MarkProcessed(id: RowId, worker: WorkerId, now: int)
      modifies this
      ensures rows == OutboxRows.MarkProcessed(old(rows), id, worker, now)
      ensures rows == if id in old(rows) && old(rows)[id].status == Processing && old(rows)[id].lockedBy == Some(worker)
                      then old(rows)[id := old(rows)[id].(status := Processed, processedAt := Some(now),
                                                          lockedAt := None, lockedBy := None, updatedAt := now)]
                      else old(rows)
    {
      if id in rows && rows[id].lockedBy == Some(worker) && rows[id].status.Processing? {
        var row := rows[id].(status := Processed, processedAt := Some(now));
        rows := rows[id := row.(lockedAt := None, lockedBy := None, updatedAt := now)];
      }
    }

    method MarkFailed(copy: Record, worker: WorkerId, error: string, now: int)
      modifies this
      ensures rows == OutboxRows.MarkFailed(old(rows), copy, worker, error, now)
      ensures if copy.id in old(rows) && old(rows)[copy.id].status == Processing
                 && old(rows)[copy.id].lockedBy == Some(worker)
              then
                && rows.Keys == old(rows).Keys && FailedBy(old(rows)[copy.id], rows[copy.id], copy, error, now)
                && forall id :: id in rows && id != copy.id ==> rows[id] == old(rows)[id]
              else rows == old(rows)
    {
      var isDeadLetter := copy.attempts >= copy.maxAttempts;
      if copy.id in rows && rows[copy.id].lockedBy == Some(worker) && rows[copy.id].status.Processing? {
        var row := rows[copy.id].(availableAt := now + RetryBackoff.RetryDelayMs(copy.attempts), failedAt := Some(now),
                                  updatedAt := now);
        if isDeadLetter {
          row := row.(status := DeadLetter, deadLetterReason := Some(Truncated(error, DEAD_LETTER_REASON_LENGTH)));
        } else {
          row := row.(status := Failed, deadLetterReason := None);
        }
        rows := rows[copy.id := row.(lockedAt := None, lockedBy := None)];
      }
    }

    /** Deletes the PROCESSED rows that finished earliest. */
    method DeleteProcessed(batchSize: nat := 100) returns (count: nat)
      modifies this
      ensures exists ids: set<RowId> ::
                && ids <= old(rows).Keys && |ids| == count <= batchSize
                && (forall id :: id in ids ==> old(rows)[id].status.Processed?)
                && (forall id, other |
                      id in ids && other in old(rows).Keys - ids && old(rows)[other].status.Processed? ::
                      FinishedNoLater(old(rows)[id], old(rows)[other]))
                && (count < batchSize ==> forall id :: id in rows ==> !rows[id].status.Processed?)
                && rows == DeleteRows(old(rows), ids)
    {
      ghost var ids := {};
      count := 0;
      var rest := set id | id in rows && rows[id].status.Processed?;
      while count < batchSize && rest != {}
        invariant ids <= old(rows).Keys && |ids| == count <= batchSize
        invariant rows == DeleteRows(old(rows), ids)
        invariant rest == set id | id in rows && rows[id].status.Processed?
        invariant forall id :: id in ids ==> old(rows)[id].status.Processed?
        invariant forall id, other :: id in ids && other in rest ==>
                    FinishedNoLater(old(rows)[id], old(rows)[other])
        decreases |rest|
      {
        var first := EarliestFinished(rows, rest);
        ids := ids + {first};
        rows := rows - {first};
        rest := rest - {first};
        count := count + 1;
      }
      assert forall other :: other in old(rows) && other !in ids && old(rows)[other].status.Processed? ==>
               other in rest;
    }
  }

  /** ORDER BY processed_at ASC: rows without a time sort last. */
  predicate FinishedNoLater(a: Row, b: Row) {
    b.processedAt.None? || (a.processedAt.Some? && a.processedAt.value <= b.processedAt.value)
  }

  method EarliestFinished(rows: Table, from: set<RowId>) returns (first: RowId)
    requires from != {} && from <= rows.Keys
    ensures first in from
    ensures forall id :: id in from ==> FinishedNoLater(rows[first], rows[id])
    ensures forall id :: id in from && rows[id].processedAt.Some? ==>
              rows[first].processedAt.Some? && rows[first].processedAt.value <= rows[id].processedAt.value
  {
    first :| first in from;
    var rest := from - {first};
    while rest != {}
      invariant first in from && rest <= from
      invariant forall id :: id in from && id !in rest ==> FinishedNoLater(rows[first], rows[id])
      decreases |rest|
    {
      var id :| id in rest;
      if !FinishedNoLater(rows[first], rows[id]) {
        first := id;
      }
      rest := rest - {id};
    }
  }
}
