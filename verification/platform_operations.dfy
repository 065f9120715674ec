/** Operator controls over outbox rows, as methods of a service that shares the repository's table. */
module PlatformOperations {
  import opened Prelude
  import opened OutboxRows
  import opened OutboxStore

  datatype OperatorError = NotFound | Conflict | StatementFailed

  const DAY_MS: int := 86_400_000

  class PlatformOperationsService {
    const repository: OutboxRepository

    constructor (repository: OutboxRepository)
      ensures this.repository == repository
    {
      this.repository := repository;
    }

    /**
     * Grants `grant` further attempts to a FAILED or DEAD_LETTER row and makes it due at once. The statement fails
     * for a dead letter whose original another unfinished row replays.
     */
    method RetryOutbox(id: RowId, grant: int, now: int) returns (r: Result<(), OperatorError>)
      modifies repository
      ensures id !in old(repository.rows) ==> r == Err(NotFound) && repository.rows == old(repository.rows)
      ensures id in old(repository.rows) ==>
                && (r == Err(Conflict) <==> !Retryable(old(repository.rows)[id].status))
                && (r == Err(StatementFailed) <==> RetryRefused(old(repository.rows), id))
                && (r.Err? ==> repository.rows == old(repository.rows))
                && (r.Ok? ==> repository.rows
                              == Retry(old(repository.rows), id, old(repository.rows)[id].attempts, grant, now))
      ensures r.Ok? <==>
                && id in old(repository.rows) && old(repository.rows)[id].status in {Failed, DeadLetter}
                && (old(repository.rows)[id].replayOf == None
                    || forall other :: other in old(repository.rows) && other != id ==>
                         || old(repository.rows)[other].replayOf != old(repository.rows)[id].replayOf
                         || old(repository.rows)[other].status !in {Pending, Processing, Failed})
      ensures r.Ok? ==>
                repository.rows == old(repository.rows)[id :=
                  old(repository.rows)[id].(status := Pending, availableAt := now, updatedAt := now, failedAt := None,
                                            maxAttempts := old(repository.rows)[id].attempts + grant,
                                            deadLetterReason := None)]
    {
      if id !in repository.rows {
        return Err(NotFound);
      }
      var readAttempts := repository.rows[id].attempts;
      if !Retryable(repository.rows[id].status) {
        return Err(Conflict);
      }
      if RetryRefused(repository.rows, id) {
        return Err(StatementFailed);
      }
      var row := repository.rows[id].(status := Pending, availableAt := now, updatedAt := now);
      repository.rows := repository.rows[id :=
        row.(maxAttempts := readAttempts + grant, deadLetterReason := None, failedAt := None)];
      return Ok(());
    }

    method CancelOutbox(id: RowId, now: int) returns (r: Result<(), OperatorError>)
      modifies repository
      ensures id !in old(repository.rows) ==> r == Err(NotFound)
      ensures id in old(repository.rows) ==>
                (if Cancellable(old(repository.rows)[id].status) then r == Ok(()) else r == Err(Conflict))
      ensures repository.rows == Cancel(old(repository.rows), id, now)
      ensures r.Ok? <==>
              id in old(repository.rows) && old(repository.rows)[id].status in {Pending, Failed, DeadLetter}
      ensures repository.rows ==
              if r.Err? then old(repository.rows)
              else old(repository.rows)[id := old(repository.rows)[id].(status := Cancelled, lockedAt := None,
                                                                        lockedBy := None, updatedAt := now)]
    {
      if id !in repository.rows {
        return Err(NotFound);
      }
      match repository.rows[id].status {
        case Pending | Failed | DeadLetter =>
          var row := repository.rows[id].(status := Cancelled);
          repository.rows := repository.rows[id := row.(lockedAt := None, lockedBy := None, updatedAt := now)];
          return Ok(());
        case _ =>
          return Err(Conflict);
      }
    }

    /**
     * Inserts a new row with a new event id, unless an unfinished row replays the original already; the original
     * stays as it is.
     */
    method ReplayOutbox(id: RowId, newId: RowId, newEventId: string, grant: int, now: int)
      returns (r: Result<RowId, OperatorError>)
      modifies repository
      ensures id !in old(repository.rows) ==> r == Err(NotFound)
      ensures id in old(repository.rows) ==>
                if Replayable(old(repository.rows)[id].status) && newId !in old(repository.rows)
                   && !EventStored(old(repository.rows), newEventId)
                   && !ReplayTaken(old(repository.rows), Some(id), newId)
                then (&& r == Ok(newId)
                      && repository.rows == Replay(old(repository.rows), id, newId, newEventId, grant, now))
                else r == Err(Conflict)
      ensures r.Err? ==> repository.rows == old(repository.rows)
      ensures r.Ok? ==> id in repository.rows && repository.rows[id] == old(repository.rows)[id]
      ensures r.Ok? <==>
                && id in old(repository.rows) && newId !in old(repository.rows)
                && old(repository.rows)[id].status in {Processed, DeadLetter, Cancelled}
                && forall other :: other in old(repository.rows) ==>
                     && old(repository.rows)[other].event.eventId != newEventId
                     && (old(repository.rows)[other].replayOf == Some(id) ==>
                           old(repository.rows)[other].status !in {Pending, Processing, Failed})
      ensures r.Ok? ==>
                var event := old(repository.rows)[id].event;
                repository.rows == old(repository.rows)[newId :=
                  Row(Event(newEventId, event.eventType, event.occurredAt, event.payload), Pending, 0, grant, now,
                      None, None, None, None, None, Some(id), now)]
    {
      if id !in repository.rows {
        return Err(NotFound);
      }
      var original := repository.rows[id];
      if original.status.Pending? || original.status.Processing? || original.status.Failed? {
        return Err(Conflict);
      }
      // a unique constraint rejects an id or event id that is taken, and a second unfinished replay
      if newId in repository.rows || EventStored(repository.rows, newEventId)
         || ReplayTaken(repository.rows, Some(id), newId) {
        return Err(Conflict);
      }
      var event := Event(newEventId, original.event.eventType, original.event.occurredAt, original.event.payload);
      repository.rows := repository.rows[newId := NewRow(event, grant, Some(id), now)];
      return Ok(newId);
    }

    /** Deletes finished rows older than the retention period and reports how many. */
    method PurgeOutbox(retentionDays: int, now: int) returns (deleted: nat)
      modifies repository
      ensures repository.rows == Purge(old(repository.rows), now - retentionDays * DAY_MS)
      ensures deleted == |old(repository.rows)| - |repository.rows|
      ensures forall id :: id in old(repository.rows) ==>
                var row := old(repository.rows)[id];
                if row.status in {Processed, Cancelled} && row.updatedAt < now - retentionDays * 86_400_000
                then id !in repository.rows
                else id in repository.rows && repository.rows[id] == row
      ensures repository.rows.Keys <= old(repository.rows).Keys
    {
      var cutoff := now - retentionDays * DAY_MS;
      deleted := 0;
      var todo := repository.rows.Keys;
      while todo != {}
        invariant repository.rows.Keys <= old(repository.rows).Keys && todo <= repository.rows.Keys
        invariant forall id :: id in old(repository.rows) && id !in todo ==>
                    (id in repository.rows <==> !Purgeable(old(repository.rows)[id], cutoff))
        invariant forall id :: id in repository.rows ==> repository.rows[id] == old(repository.rows)[id]
        invariant |repository.rows| + deleted == |old(repository.rows)|
        decreases |todo|
      {
        var id :| id in todo;
        todo := todo - {id};
        if Purgeable(repository.rows[id], cutoff) {
          repository.rows := repository.rows - {id};
          deleted := deleted + 1;
        }
      }
    }
  }
}
