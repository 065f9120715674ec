/**
 * Stored webhook events as a step system: conditional claims with a fresh id per claim, lease expiry,
 * one conditional outcome write per claim, operator cancel, replay and purge.
 */
module Webhooks {
  import opened Prelude

  type EventId = string
  type ClaimId = string

  const LEASE_MS: int := 300_000

  datatype Status = Received | Processing | Processed | Skipped | Failed | Cancelled

  datatype Webhook = Webhook(
    inbound: bool,              // eventType is WHATSAPP_INBOUND
    status: Status,
    processed: bool,
    processedAt: Option<int>,
    error: Option<string>,
    retryCount: nat,
    lockedAt: Option<int>,
    lockedBy: Option<ClaimId>,
    replayOf: Option<EventId>)

  type Table = map<EventId, Webhook>

  datatype State = State(
    rows: Table,
    open: map<ClaimId, EventId>,            // claims whose processor has not written its outcome yet
    everClaims: set<ClaimId>,
    everRows: set<EventId>,
    failures: multiset<EventId>,            // history: FAILED outcomes that took effect
    written: multiset<ClaimId>)             // history: outcomes that took effect

  datatype Action =
    | Receive(id: EventId, inbound: bool)
    | Claim(claim: ClaimId, id: EventId, now: int, lockTime: int, replied: bool)
    | Finish(claim: ClaimId, outcome: Status, detail: Option<string>, now: int, applied: bool)
    | Stop(claim: ClaimId)
    | Cancel(id: EventId)
    | Replay(id: EventId, newId: EventId)
    | Purge(ids: set<EventId>)

  predicate Retryable(status: Status) { status.Received? || status.Skipped? || status.Failed? }

  predicate Claimable(row: Webhook, now: int) {
    && row.inbound
    && (Retryable(row.status) || (row.status.Processing? && row.lockedAt.Some? && row.lockedAt.value < now - LEASE_MS))
  }

  predicate Unfinished(status: Status) { status.Received? || status.Processing? || status.Failed? }

  /** The unique index: another unfinished row replays the same original. */
  predicate ReplayTaken(rows: Table, original: Option<EventId>, self: EventId) {
    original.Some? && exists other ::
      other in rows && other != self && rows[other].replayOf == original && Unfinished(rows[other].status)
  }

  /** The database refuses to make this row unfinished again; the claim statement fails. */
  predicate ClaimRefused(rows: Table, id: EventId, now: int) {
    id in rows && Claimable(rows[id], now) && ReplayTaken(rows, rows[id].replayOf, id)
  }

  /** The claim statement takes the row. */
  predicate ClaimTakes(rows: Table, id: EventId, now: int) {
    id in rows && Claimable(rows[id], now) && !ClaimRefused(rows, id, now)
  }

  function NewRow(inbound: bool, replayOf: Option<EventId>): Webhook {
    Webhook(inbound, Received, false, None, None, 0, None, None, replayOf)
  }

  function ClaimRow(rows: Table, id: EventId, claim: ClaimId, now: int, lockTime: int): Table {
    if !ClaimTakes(rows, id, now) then rows
    else rows[id := rows[id].(status := Processing, lockedAt := Some(lockTime), lockedBy := Some(claim))]
  }

  /** `updateMany where id and lockedBy`: the status is not part of the condition. */
  predicate Holds(rows: Table, id: EventId, claim: ClaimId) {
    id in rows && rows[id].lockedBy == Some(claim)
  }

  function Truncated(detail: Option<string>): Option<string> {
    match detail
    case None => None
    case Some(text) => Some(if |text| <= 2000 then text else text[..2000])
  }

  function WriteOutcome(rows: Table, id: EventId, claim: ClaimId, outcome: Status, detail: Option<string>, now: int)
    : Table
  {
    if !Holds(rows, id, claim) then rows
    else rows[id := rows[id].(status := outcome, processed := outcome.Processed?, processedAt := Some(now),
                              error := Truncated(detail), lockedAt := None, lockedBy := None,
                              retryCount := rows[id].retryCount + (if outcome.Failed? then 1 else 0))]
  }

  function CancelRow(rows: Table, id: EventId): Table {
    if id in rows && Retryable(rows[id].status) then rows[id := rows[id].(status := Cancelled)] else rows
  }

  predicate Replayable(status: Status) { status.Processed? || status.Skipped? || status.Cancelled? }

  predicate Finished(status: Status) { status.Processed? || status.Skipped? || status.Cancelled? }

  predicate Enabled(s: State, a: Action) {
    match a
    case Receive(id, _) => id !in s.everRows
    case Claim(claim, id, _, _, _) => claim !in s.everClaims
    case Finish(claim, outcome, _, _, _) =>
      claim in s.open && (outcome.Processed? || outcome.Skipped? || outcome.Failed?)
    case Stop(claim) => claim in s.open
    case Cancel(_) => true
    case Replay(id, newId) =>
      && id in s.rows && s.rows[id].inbound && Replayable(s.rows[id].status) && newId !in s.everRows
      && !ReplayTaken(s.rows, Some(id), newId)
    case Purge(ids) => forall id :: id in ids ==> id in s.rows && Finished(s.rows[id].status)
  }

  function Apply(s: State, a: Action): State
    requires Enabled(s, a)
  {
    match a
    case Receive(id, inbound) => s.(rows := s.rows[id := NewRow(inbound, None)], everRows := s.everRows + {id})
    case Claim(claim, id, now, lockTime, replied) =>
      var won := ClaimTakes(s.rows, id, now);
      s.(rows := ClaimRow(s.rows, id, claim, now, lockTime), everClaims := s.everClaims + {claim},
         open := if won && replied then s.open[claim := id] else s.open)
    case Finish(claim, outcome, detail, now, applied) =>
      var id := s.open[claim];
      var effective := applied && Holds(s.rows, id, claim);
      s.(rows := if applied then WriteOutcome(s.rows, id, claim, outcome, detail, now) else s.rows,
         open := s.open - {claim},
         failures := if effective && outcome.Failed? then s.failures + multiset{id} else s.failures,
         written := if effective then s.written + multiset{claim} else s.written)
    case Stop(claim) => s.(open := s.open - {claim})
    case Cancel(id) => s.(rows := CancelRow(s.rows, id))
    case Replay(id, newId) => s.(rows := s.rows[newId := NewRow(true, Some(id))], everRows := s.everRows + {newId})
    case Purge(ids) => s.(rows := s.rows - ids)
  }

  predicate Initial(s: State) {
    && s.rows == map[] && s.open == map[] && s.everClaims == {} && s.everRows == {}
    && s.failures == multiset{} && s.written == multiset{}
  }

  ghost predicate Step(s: State, a: Action, t: State) {
    Enabled(s, a) && t == Apply(s, a)
  }

  ghost predicate IsRun(ss: seq<State>, acts: seq<Action>) {
    && |ss| == |acts| + 1
    && forall i :: 0 <= i < |acts| ==> Step(ss[i], acts[i], ss[i + 1])
  }

  // --------------------------------------------------------------------------- invariant

  ghost predicate RowOk(row: Webhook) {
    && (row.status.Processing? <==> row.lockedBy.Some?) && (row.status.Processing? <==> row.lockedAt.Some?)
    && (row.processed <==> row.status.Processed?)
  }

  ghost predicate RowsOk(s: State) {
    forall id :: id in s.rows ==> RowOk(s.rows[id]) && id in s.everRows && s.rows[id].retryCount == s.failures[id]
  }

  /** A claim id names one claim: it locks at most the row it was made for, and writes at most once. */
  ghost predicate ClaimsOk(s: State) {
    && s.open.Keys <= s.everClaims
    && (forall id, claim :: Holds(s.rows, id, claim) ==> claim in s.everClaims && claim !in s.written)
    && (forall id, claim :: Holds(s.rows, id, claim) && claim in s.open ==> s.open[claim] == id)
    && (forall claim :: s.written[claim] <= 1)
    && (forall claim :: claim in s.written ==> claim in s.everClaims && claim !in s.open)
    && (forall id :: id in s.failures ==> id in s.everRows)
  }

  ghost predicate Inv(s: State) {
    RowsOk(s) && ClaimsOk(s)
  }

  lemma RowsOkKept(s: State, a: Action)
    requires Inv(s) && Enabled(s, a)
    ensures RowsOk(Apply(s, a))
  {
    forall id | id in Apply(s, a).rows
      ensures RowOk(Apply(s, a).rows[id])
      ensures id in Apply(s, a).everRows && Apply(s, a).rows[id].retryCount == Apply(s, a).failures[id]
    {
      RowOkKept(s, a, id);
    }
  }

  lemma RowOkKept(s: State, a: Action, id: EventId)
    requires Inv(s) && Enabled(s, a) && id in Apply(s, a).rows
    ensures RowOk(Apply(s, a).rows[id])
    ensures id in Apply(s, a).everRows && Apply(s, a).rows[id].retryCount == Apply(s, a).failures[id]
  {
  }

  /** Locks appear only by claiming. */
  lemma LockOrigin(s: State, a: Action, id: EventId, claim: ClaimId)
    requires Enabled(s, a) && Holds(Apply(s, a).rows, id, claim)
    ensures Holds(s.rows, id, claim) || (a.Claim? && a.claim == claim && a.id == id)
    ensures a.Finish? && a.applied && a.claim == claim ==> id != s.open[claim]
  {
  }

  lemma ClaimsOkKept(s: State, a: Action)
    requires Inv(s) && Enabled(s, a)
    ensures ClaimsOk(Apply(s, a))
  {
    var t := Apply(s, a);
    forall id, claim | Holds(t.rows, id, claim)
      ensures claim in t.everClaims && claim !in t.written
      ensures claim in t.open ==> t.open[claim] == id
    {
      LockOrigin(s, a, id, claim);
    }
  }

  lemma {:induction false} ReachableInv(ss: seq<State>, acts: seq<Action>, n: nat)
    requires IsRun(ss, acts) && Initial(ss[0]) && n < |ss|
    ensures Inv(ss[n])
  {
    if n > 0 {
      ReachableInv(ss, acts, n - 1);
      assert Step(ss[n - 1], acts[n - 1], ss[n - 1 + 1]);
      RowsOkKept(ss[n - 1], acts[n - 1]);
      ClaimsOkKept(ss[n - 1], acts[n - 1]);
    }
  }

  // ------------------------------------------------------------------------ main results

  /** A row's lock is set exactly while PROCESSING, `processed` exactly on PROCESSED rows, and
      `retryCount` counts the FAILED outcomes that were written. */
  lemma RowFieldsAgree(ss: seq<State>, acts: seq<Action>, n: nat, id: EventId)
    requires IsRun(ss, acts) && Initial(ss[0]) && n < |ss| && id in ss[n].rows
    ensures ss[n].rows[id].lockedBy.Some? <==> ss[n].rows[id].status.Processing?
    ensures ss[n].rows[id].processed <==> ss[n].rows[id].status.Processed?
    ensures ss[n].rows[id].retryCount == ss[n].failures[id]
  {
    ReachableInv(ss, acts, n);
  }

  /** An outcome takes effect only for the claim that currently holds its PROCESSING row, and once per claim. */
  lemma OutcomesByHolderOnly(ss: seq<State>, acts: seq<Action>, n: nat)
    requires IsRun(ss, acts) && Initial(ss[0]) && n < |acts| && acts[n].Finish? && ss[n + 1].rows != ss[n].rows
    ensures acts[n].claim in ss[n].open
    ensures var id := ss[n].open[acts[n].claim];
            && id in ss[n].rows && ss[n].rows[id].status.Processing? && ss[n].rows[id].lockedBy == Some(acts[n].claim)
            && ss[n + 1].rows == ss[n].rows[id := ss[n + 1].rows[id]]
            && ss[n + 1].rows[id].status == acts[n].outcome
    ensures ss[n].written[acts[n].claim] == 0 && ss[n + 1].written[acts[n].claim] == 1
  {
    ReachableInv(ss, acts, n);
    assert Step(ss[n], acts[n], ss[n + 1]);
  }

  /** PROCESSED and CANCELLED are never left: such a row only disappears. */
  lemma FinalStatuses(s: State, a: Action, id: EventId)
    requires Inv(s) && Enabled(s, a) && id in s.rows && (s.rows[id].status.Processed? || s.rows[id].status.Cancelled?)
    requires id in Apply(s, a).rows
    ensures Apply(s, a).rows[id] == s.rows[id]
  {
  }

  lemma RowsStayGone(s: State, a: Action, id: EventId)
    requires Enabled(s, a) && id in s.everRows && id in Apply(s, a).rows
    ensures id in s.rows
  {
  }

  lemma {:induction false} FinalForever(ss: seq<State>, acts: seq<Action>, i: nat, j: nat, id: EventId)
    requires IsRun(ss, acts) && Initial(ss[0]) && i <= j < |ss|
    requires id in ss[i].rows && (ss[i].rows[id].status.Processed? || ss[i].rows[id].status.Cancelled?)
    requires id in ss[j].rows
    ensures ss[j].rows[id] == ss[i].rows[id]
    decreases j - i
  {
    if i < j {
      assert id in ss[j - 1].everRows by {
        ReachableInv(ss, acts, i);
        EverRowsGrow(ss, acts, i, j - 1);
      }
      assert Step(ss[j - 1], acts[j - 1], ss[j - 1 + 1]);
      RowsStayGone(ss[j - 1], acts[j - 1], id);
      FinalForever(ss, acts, i, j - 1, id);
      assert Inv(ss[j - 1]) by {
        ReachableInv(ss, acts, j - 1);
      }
      FinalStatuses(ss[j - 1], acts[j - 1], id);
    }
  }

  lemma {:induction false} EverRowsGrow(ss: seq<State>, acts: seq<Action>, i: nat, j: nat)
    requires IsRun(ss, acts) && i <= j < |ss|
    ensures ss[i].everRows <= ss[j].everRows
    decreases j - i
  {
    if i < j {
      EverRowsGrow(ss, acts, i, j - 1);
      assert Step(ss[j - 1], acts[j - 1], ss[j - 1 + 1]);
    }
  }

  /** Only finished rows go, and only by a purge; a row comes as a received event or as the replay of a finished one. */
  lemma RowsComeAndGo(s: State, a: Action, id: EventId)
    requires Enabled(s, a)
    ensures id in s.rows && id !in Apply(s, a).rows ==>
              a.Purge? && s.rows[id].status in {Processed, Skipped, Cancelled}
    ensures id !in s.rows && id in Apply(s, a).rows ==>
              || (a.Receive? && a.id == id
                  && Apply(s, a).rows[id] == Webhook(a.inbound, Received, false, None, None, 0, None, None, None))
              || (a.Replay? && a.newId == id && a.id in s.rows && s.rows[a.id].inbound
                  && s.rows[a.id].status in {Processed, Skipped, Cancelled}
                  && Apply(s, a).rows[id] == Webhook(true, Received, false, None, None, 0, None, None, Some(a.id)))
  {
  }

  // ----------------------------------------------------------------------------- replays

  /** The row replays this original and may still be processed. */
  predicate Replaying(rows: Table, id: EventId, original: EventId) {
    id in rows && rows[id].replayOf == Some(original) && rows[id].status in {Received, Processing, Failed}
  }

  ghost predicate OneReplay(rows: Table) {
    forall a, b, original :: Replaying(rows, a, original) && Replaying(rows, b, original) ==> a == b
  }

  /** A row becomes an unfinished replay by a replay of its original, or when a claim takes it up again. */
  lemma ReplayBegins(s: State, a: Action, id: EventId, original: EventId)
    requires Inv(s) && Enabled(s, a) && Replaying(Apply(s, a).rows, id, original)
    ensures || Replaying(s.rows, id, original)
            || ((a.Replay? || a.Claim?) && !ReplayTaken(s.rows, Some(original), id)
                && forall other :: other != id && Replaying(Apply(s, a).rows, other, original) ==>
                     Replaying(s.rows, other, original))
  {
  }

  lemma OnlyReplay(rows: Table, id: EventId, other: EventId, original: EventId)
    requires !ReplayTaken(rows, Some(original), id) && Replaying(rows, other, original)
    ensures other == id
  {
  }

  lemma StepKeepsOneReplay(s: State, a: Action)
    requires Inv(s) && OneReplay(s.rows) && Enabled(s, a)
    ensures OneReplay(Apply(s, a).rows)
  {
    var rows := Apply(s, a).rows;
    forall x, y, original | Replaying(rows, x, original) && Replaying(rows, y, original)
      ensures x == y
    {
      ReplayBegins(s, a, x, original);
      ReplayBegins(s, a, y, original);
      if !Replaying(s.rows, x, original) && x != y {
        OnlyReplay(s.rows, x, y, original);
      } else if !Replaying(s.rows, y, original) && x != y {
        OnlyReplay(s.rows, y, x, original);
      }
    }
  }

  /** In every reachable state at most one unfinished row replays any one original. */
  lemma {:induction false} OneReplayAtATime(ss: seq<State>, acts: seq<Action>, n: nat)
    requires IsRun(ss, acts) && Initial(ss[0]) && n < |ss|
    ensures OneReplay(ss[n].rows)
  {
    if n > 0 {
      OneReplayAtATime(ss, acts, n - 1);
      ReachableInv(ss, acts, n - 1);
      assert Step(ss[n - 1], acts[n - 1], ss[n - 1 + 1]);
      StepKeepsOneReplay(ss[n - 1], acts[n - 1]);
    }
  }

  /** A claim is refused exactly when it would take up a skipped replay while another replay is under way. */
  lemma RefusedIff(ss: seq<State>, acts: seq<Action>, n: nat, id: EventId, now: int)
    requires IsRun(ss, acts) && Initial(ss[0]) && n < |ss| && id in ss[n].rows
    ensures ClaimRefused(ss[n].rows, id, now) <==>
            && ss[n].rows[id].inbound && ss[n].rows[id].status == Skipped && ss[n].rows[id].replayOf.Some?
            && exists other :: Replaying(ss[n].rows, other, ss[n].rows[id].replayOf.value)
  {
    OneReplayAtATime(ss, acts, n);
    var rows := ss[n].rows;
    if ClaimRefused(rows, id, now) {
      var original := rows[id].replayOf.value;
      var other :| other in rows && other != id && rows[other].replayOf == Some(original)
                   && Unfinished(rows[other].status);
      assert Replaying(rows, other, original);
      assert !Replaying(rows, id, original);
    }
  }
}
