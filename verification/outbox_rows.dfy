/**
 * The `outbox_events` table and every statement issued against it, as functions on the
 * table's contents. The repository and operator classes implement these statements in place;
 * the protocol composes them into interleaved runs.
 */
module OutboxRows {
  import opened Prelude
  import opened RetryBackoff

  type RowId = string
  type WorkerId = string

  const DEFAULT_MAX_ATTEMPTS: nat := 5
  const DEAD_LETTER_REASON_LENGTH: nat := 2000
  const LEASE_EXPIRED_REASON := "Processing lease expired after maximum attempts"

  datatype Status = Pending | Processing | Processed | Failed | DeadLetter | Cancelled

  /** The immutable part of a row: what is delivered to handlers. */
  datatype Event = Event(eventId: string, eventType: string, occurredAt: int, payload: string)

  datatype Row = Row(
    event: Event,
    status: Status,
    attempts: nat,
    maxAttempts: int,
    availableAt: int,
    lockedAt: Option<int>,
    lockedBy: Option<WorkerId>,
    processedAt: Option<int>,
    failedAt: Option<int>,
    deadLetterReason: Option<string>,
    replayOf: Option<RowId>,
    updatedAt: int)

  /** A worker's in-memory copy of a row it claimed. */
  datatype Record = Record(id: RowId, event: Event, attempts: nat, maxAttempts: int)

  type Table = map<RowId, Row>

  function RecordOf(id: RowId, row: Row): Record {
    Record(id, row.event, row.attempts, row.maxAttempts)
  }

  function NewRow(event: Event, maxAttempts: int, replayOf: Option<RowId>, now: int): Row {
    Row(event, Pending, 0, maxAttempts, now, None, None, None, None, None, replayOf, now)
  }

  // ---------------------------------------------------------------- worker statements

  predicate EventStored(rows: Table, eventId: string) {
    exists id :: id in rows && rows[id].event.eventId == eventId
  }

  /** `createMany` with `skipDuplicates`: a stored event id (or row id) is silently skipped. */
  function InsertMissing(rows: Table, batch: seq<(RowId, Event)>, now: int): Table
    decreases |batch|
  {
    if batch == [] then rows
    else
      var (id, event) := batch[0];
      var rows' := if id in rows || EventStored(rows, event.eventId) then rows
                   else rows[id := NewRow(event, DEFAULT_MAX_ATTEMPTS, None, now)];
      InsertMissing(rows', batch[1..], now)
  }

  predicate LeaseExpired(row: Row, now: int, leaseMs: int) {
    row.lockedAt.Some? && row.lockedAt.value < now - leaseMs
  }

  predicate Exhausted(row: Row, now: int, leaseMs: int) {
    row.status.Processing? && LeaseExpired(row, now, leaseMs) && row.attempts >= row.maxAttempts
  }

  function DeadLetterExpired(row: Row, now: int): Row {
    row.(status := DeadLetter, deadLetterReason := Some(LEASE_EXPIRED_REASON),
         lockedAt := None, lockedBy := None, failedAt := Some(now), updatedAt := now)
  }

  /** First statement of a claim: rows whose lease ran out on the last attempt are dead-lettered. */
  function SweepExhausted(rows: Table, now: int, leaseMs: int): Table {
    map id | id in rows ::
      if Exhausted(rows[id], now, leaseMs) then DeadLetterExpired(rows[id], now) else rows[id]
  }

  predicate Claimable(row: Row, now: int, leaseMs: int) {
    || ((row.status.Pending? || row.status.Failed?) && row.availableAt <= now)
    || (row.status.Processing? && LeaseExpired(row, now, leaseMs))
  }

  /** Rows the claim may pick: claimable ones that no concurrent claim has locked. */
  function Candidates(rows: Table, now: int, leaseMs: int, skipLocked: set<RowId>): set<RowId> {
    set id | id in rows && id !in skipLocked && Claimable(rows[id], now, leaseMs)
  }

  predicate Distinct(ids: seq<RowId>) {
    forall i, j :: 0 <= i < j < |ids| ==> ids[i] != ids[j]
  }

  /** `chosen` is a legal result of ORDER BY occurred_at LIMIT n over `from`, in delivery order. */
  predicate IsEarliest(rows: Table, from: set<RowId>, n: nat, chosen: seq<RowId>)
    requires from <= rows.Keys
  {
    && Distinct(chosen)
    && (forall id :: id in chosen ==> id in from)
    && |chosen| <= n
    && (|chosen| < n ==> forall id :: id in from ==> id in chosen)
    && (forall i, j :: 0 <= i < j < |chosen| ==>
          rows[chosen[i]].event.occurredAt <= rows[chosen[j]].event.occurredAt)
    && (forall i, id :: 0 <= i < |chosen| && id in from && id !in chosen ==>
          rows[chosen[i]].event.occurredAt <= rows[id].event.occurredAt)
  }

  function ClaimedRow(row: Row, worker: WorkerId, now: int): Row {
    row.(status := Processing, attempts := row.attempts + 1,
         lockedAt := Some(now), lockedBy := Some(worker), updatedAt := now)
  }

  /** Second statement of a claim. */
  function ClaimRows(rows: Table, chosen: seq<RowId>, worker: WorkerId, now: int): Table {
    map id | id in rows :: if id in chosen then ClaimedRow(rows[id], worker, now) else rows[id]
  }

  function RecordsOf(rows: Table, chosen: seq<RowId>): (records: seq<Record>)
    requires forall id :: id in chosen ==> id in rows
    ensures |records| == |chosen|
    ensures forall i :: 0 <= i < |chosen| ==> records[i] == RecordOf(chosen[i], rows[chosen[i]])
  {
    seq(|chosen|, i requires 0 <= i < |chosen| => RecordOf(chosen[i], rows[chosen[i]]))
  }

  predicate HoldsLease(rows: Table, id: RowId, worker: WorkerId) {
    id in rows && rows[id].status.Processing? && rows[id].lockedBy == Some(worker)
  }

  function MarkProcessed(rows: Table, id: RowId, worker: WorkerId, now: int): Table {
    if !HoldsLease(rows, id, worker) then rows
    else rows[id := rows[id].(status := Processed, processedAt := Some(now),
                              lockedAt := None, lockedBy := None, updatedAt := now)]
  }

  function Truncated(text: string, n: nat): string {
    if |text| <= n then text else text[..n]
  }

  /** The dead-letter decision and the backoff use the worker's copy, not the stored row. */
  function MarkFailed(rows: Table, copy: Record, worker: WorkerId, error: string, now: int): Table {
    if !HoldsLease(rows, copy.id, worker) then rows
    else
      var dead := copy.attempts >= copy.maxAttempts;
      rows[copy.id := rows[copy.id].(
        status := if dead then DeadLetter else Failed,
        deadLetterReason := if dead then Some(Truncated(error, DEAD_LETTER_REASON_LENGTH)) else None,
        failedAt := Some(now),
        availableAt := now + RetryDelayMs(copy.attempts),
        lockedAt := None, lockedBy := None, updatedAt := now)]
  }

  // -------------------------------------------------------------- operator statements

  predicate Retryable(status: Status) { status.Failed? || status.DeadLetter? }

  predicate Cancellable(status: Status) { status.Pending? || status.Failed? || status.DeadLetter? }

  predicate Replayable(status: Status) { status.Processed? || status.DeadLetter? || status.Cancelled? }

  predicate Unfinished(status: Status) { status.Pending? || status.Processing? || status.Failed? }

  /** The unique index: another unfinished row replays the same original. */
  predicate ReplayTaken(rows: Table, original: Option<RowId>, self: RowId) {
    original.Some? && exists other ::
      other in rows && other != self && rows[other].replayOf == original && Unfinished(rows[other].status)
  }

  /** The database refuses to make this row due again. */
  predicate RetryRefused(rows: Table, id: RowId) {
    id in rows && Retryable(rows[id].status) && ReplayTaken(rows, rows[id].replayOf, id)
  }

  /** `readAttempts` is what the operator's earlier read of the row returned. */
  function Retry(rows: Table, id: RowId, readAttempts: nat, grant: int, now: int): Table {
    if id !in rows || !Retryable(rows[id].status) then rows
    else rows[id := rows[id].(status := Pending, availableAt := now, maxAttempts := readAttempts + grant,
                              deadLetterReason := None, failedAt := None, updatedAt := now)]
  }

  function Cancel(rows: Table, id: RowId, now: int): Table {
    if id !in rows || !Cancellable(rows[id].status) then rows
    else rows[id := rows[id].(status := Cancelled, lockedAt := None, lockedBy := None, updatedAt := now)]
  }

  function Replay(rows: Table, id: RowId, newId: RowId, newEventId: string, grant: int, now: int): Table
    requires id in rows
  {
    rows[newId := NewRow(rows[id].event.(eventId := newEventId), grant, Some(id), now)]
  }

  predicate Purgeable(row: Row, cutoff: int) {
    (row.status.Processed? || row.status.Cancelled?) && row.updatedAt < cutoff
  }

  function Purge(rows: Table, cutoff: int): Table {
    map id | id in rows && !Purgeable(rows[id], cutoff) :: rows[id]
  }

  function DeleteRows(rows: Table, ids: set<RowId>): Table {
    map id | id in rows && id !in ids :: rows[id]
  }
}
