/**
 * Replays of one original: a unique index over unfinished rows lets at most one of them be under way, whatever
 * workers and operators do.
 */
module OutboxReplays {
  import opened Prelude
  import opened OutboxRows
  import opened OutboxProtocol

  /** The row replays this original and may still be delivered. */
  predicate Replaying(rows: Table, id: RowId, original: RowId) {
    id in rows && rows[id].replayOf == Some(original) && rows[id].status in {Pending, Processing, Failed}
  }

  ghost predicate OneReplay(rows: Table) {
    forall a, b, original :: Replaying(rows, a, original) && Replaying(rows, b, original) ==> a == b
  }

  /** Enqueued rows replay nothing. */
  lemma {:induction false} InsertedReplayNothing(rows: Table, batch: seq<(RowId, Event)>, now: int, id: RowId)
    requires id in InsertMissing(rows, batch, now)
    ensures if id in rows then InsertMissing(rows, batch, now)[id] == rows[id]
            else InsertMissing(rows, batch, now)[id].replayOf == None
    decreases |batch|
  {
    if batch != [] {
      var (newId, event) := batch[0];
      var rows' := if newId in rows || EventStored(rows, event.eventId) then rows
                   else rows[newId := NewRow(event, DEFAULT_MAX_ATTEMPTS, None, now)];
      InsertedReplayNothing(rows', batch[1..], now, id);
    }
  }

  /** A step that makes a row replay an original it was not replaying is a replay of it or a retry. */
  lemma ReplayBegins(s: State, a: Action, id: RowId, original: RowId)
    requires Enabled(s, a) && Replaying(RowsAfter(s, a), id, original)
    ensures || Replaying(s.rows, id, original)
            || (a.ReplayRow? && a.newId == id && a.id == original && !ReplayTaken(s.rows, Some(original), id))
            || (a.RetryWrite? && s.pendingReads[a.operator].0 == id && !ReplayTaken(s.rows, Some(original), id))
  {
    match a
    case Enqueue(batch, now) => InsertedReplayNothing(s.rows, batch, now, id);
    case _ =>
  }

  lemma OnlyReplay(rows: Table, id: RowId, other: RowId, original: RowId)
    requires !ReplayTaken(rows, Some(original), id) && Replaying(rows, other, original)
    ensures other == id
  {
  }

  lemma StepKeepsOneReplay(s: State, a: Action)
    requires OneReplay(s.rows) && Enabled(s, a)
    ensures OneReplay(RowsAfter(s, a))
  {
    var rows := RowsAfter(s, a);
    forall x, y, original | Replaying(rows, x, original) && Replaying(rows, y, original)
      ensures x == y
    {
      ReplayBegins(s, a, x, original);
      ReplayBegins(s, a, y, original);
      if !Replaying(s.rows, x, original) && Replaying(s.rows, y, original) {
        OnlyReplay(s.rows, x, y, original);
      }
      if Replaying(s.rows, x, original) && !Replaying(s.rows, y, original) {
        OnlyReplay(s.rows, y, x, original);
      }
    }
  }

  /** In every reachable state at most one unfinished row replays any one original. */
  lemma {:induction false} OneReplayAtATime(ss: seq<State>, acts: seq<Action>, n: nat)
    requires IsRun(ss, acts) && Initial(ss[0]) && n < |ss|
    ensures OneReplay(ss[n].rows)
  {
    if n > 0 {
      OneReplayAtATime(ss, acts, n - 1);
      assert Step(ss[n - 1], acts[n - 1], ss[n - 1 + 1]);
      StepKeepsOneReplay(ss[n - 1], acts[n - 1]);
    }
  }

  /**
   * A retry is refused exactly for a dead letter whose original is being replayed by another row: a FAILED replay
   * is the one under way, so nothing can be in its way.
   */
  lemma RefusedIff(ss: seq<State>, acts: seq<Action>, n: nat, id: RowId)
    requires IsRun(ss, acts) && Initial(ss[0]) && n < |ss| && id in ss[n].rows
    ensures RetryRefused(ss[n].rows, id) <==>
            && ss[n].rows[id].status == DeadLetter && ss[n].rows[id].replayOf.Some?
            && exists other :: Replaying(ss[n].rows, other, ss[n].rows[id].replayOf.value)
  {
    OneReplayAtATime(ss, acts, n);
    var rows := ss[n].rows;
    if RetryRefused(rows, id) {
      var original := rows[id].replayOf.value;
      var other :| other in rows && other != id && rows[other].replayOf == Some(original)
                   && Unfinished(rows[other].status);
      assert Replaying(rows, other, original);
      assert rows[id].status.Failed? ==> Replaying(rows, id, original);
    }
  }
}
