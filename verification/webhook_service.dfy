/** Processing one webhook event, and an operator's cancel, as imperative code over the shared table. */
module WebhookProcessing {
  import opened Prelude
  import opened Webhooks

  predicate By(a: Action, claim: ClaimId) {
    match a
    case Claim(c, _, _, _, _) => c == claim
    case Finish(c, _, _, _, _) => c == claim
    case Stop(c) => c == claim
    case _ => false
  }

  lemma AppendStep(ss: seq<State>, acts: seq<Action>, a: Action)
    requires IsRun(ss, acts) && Enabled(ss[|acts|], a)
    ensures IsRun(ss + [Apply(ss[|acts|], a)], acts + [a])
  {
    var ss', acts' := ss + [Apply(ss[|acts|], a)], acts + [a];
    forall i | 0 <= i < |acts'|
      ensures Step(ss'[i], acts'[i], ss'[i + 1])
    {
      if i < |acts| {
        assert Step(ss[i], acts[i], ss[i + 1]);
      }
    }
  }

  lemma OthersKeepClaim(s: State, a: Action, claim: ClaimId)
    requires Enabled(s, a) && !By(a, claim)
    ensures claim in Apply(s, a).everClaims <==> claim in s.everClaims
    ensures claim in Apply(s, a).open <==> claim in s.open
    ensures claim in s.open ==> Apply(s, a).open[claim] == s.open[claim]
    ensures Apply(s, a).written[claim] == s.written[claim]
  {
  }

  /** The steps of a run that were taken on behalf of one claim. */
  function Mine(acts: seq<Action>, claim: ClaimId): Log<Action> {
    if acts == [] then NoSteps
    else
      var a := acts[|acts| - 1];
      var before := Mine(acts[..|acts| - 1], claim);
      if By(a, claim) then Then(before, a) else before
  }

  lemma MineAppend(acts: seq<Action>, a: Action, claim: ClaimId)
    ensures Mine(acts + [a], claim) == if By(a, claim) then Then(Mine(acts, claim), a) else Mine(acts, claim)
  {
    assert (acts + [a])[..|acts|] == acts;
  }

  class WebhookSystem {
    ghost const initial: State
    var s: State
    ghost var states: seq<State>
    ghost var actions: seq<Action>

    ghost predicate Valid()
      reads this
    {
      IsRun(states, actions) && states[0] == initial && Initial(initial) && states[|actions|] == s
    }

    constructor (initial: State)
      requires Initial(initial)
      ensures Valid() && this.initial == initial && s == initial && states == [initial] && actions == []
    {
      this.initial, s := initial, initial;
      states, actions := [initial], [];
    }

    /** Whatever happened so far, the invariant of the protocol holds. */
    lemma Safe()
      requires Valid()
      ensures Inv(s)
    {
      ReachableInv(states, actions, |actions|);
    }

    method Do(a: Action)
      requires Valid() && Enabled(s, a)
      modifies this
      ensures Valid() && s == Apply(old(s), a)
      ensures states == old(states) + [s] && actions == old(actions) + [a]
    {
      AppendStep(states, actions, a);
      s := Apply(s, a);
      states, actions := states + [s], actions + [a];
    }

    method Others(claim: ClaimId, script: seq<Action>)
      requires Valid() && forall a :: a in script ==> !By(a, claim)
      modifies this
      ensures Valid() && old(actions) <= actions && old(states) <= states
      ensures Mine(actions, claim) == Mine(old(actions), claim)
      ensures claim in s.everClaims <==> claim in old(s.everClaims)
      ensures claim in s.open <==> claim in old(s.open)
      ensures claim in s.open ==> s.open[claim] == old(s.open)[claim]
      ensures s.written[claim] == old(s.written[claim])
    {
      for k := 0 to |script|
        invariant Valid() && old(actions) <= actions && old(states) <= states
        invariant Mine(actions, claim) == Mine(old(actions), claim)
        invariant claim in s.everClaims <==> claim in old(s.everClaims)
        invariant claim in s.open <==> claim in old(s.open)
        invariant claim in s.open ==> s.open[claim] == old(s.open)[claim]
        invariant s.written[claim] == old(s.written[claim])
      {
        if Enabled(s, script[k]) {
          assert !By(script[k], claim);
          OthersKeepClaim(s, script[k], claim);
          MineAppend(actions, script[k], claim);
          Do(script[k]);
        }
      }
    }
  }

  /** What the inbound handler does with the stored payload. */
  datatype Handling = NotAMessage | Skips(reason: string) | Handles | Throws(error: string)

  datatype Outcome = NotClaimed | Abandoned | Wrote(status: Status)

  datatype Surroundings = Surroundings(
    before: nat -> seq<Action>, staleReading: int, lockReading: int, finishReading: int,
    claimArrives: bool, finishApplied: bool, handling: Handling)

  function StatusOf(h: Handling): Status {
    match h
    case NotAMessage => Skipped
    case Skips(_) => Skipped
    case Handles => Processed
    case Throws(_) => Failed
  }

  function DetailOf(h: Handling): Option<string> {
    match h
    case NotAMessage => Some("Payload is not an inbound message")
    case Skips(reason) => Some(reason)
    case Handles => None
    case Throws(error) => Some(error)
  }

  function ClaimRequest(claim: ClaimId, id: EventId, env: Surroundings): Action {
    Claim(claim, id, env.staleReading, env.lockReading, env.claimArrives)
  }

  function OutcomeReport(claim: ClaimId, env: Surroundings): Action {
    Finish(claim, StatusOf(env.handling), DetailOf(env.handling), env.finishReading, env.finishApplied)
  }

  ghost predicate Foreign(env: Surroundings, claim: ClaimId) {
    forall k: nat, a :: a in env.before(k) ==> !By(a, claim)
  }

  /** The claim statement meets a claimable row, and the reply arrives. */
  predicate Wins(s: State, id: EventId, env: Surroundings) {
    env.claimArrives && ClaimTakes(s.rows, id, env.staleReading)
  }

  predicate MayClaim(rows: Table, id: EventId, now: int) {
    && id in rows && rows[id].inbound
    && (rows[id].status in {Received, Skipped, Failed}
        || (rows[id].status == Processing && rows[id].lockedAt.Some? && rows[id].lockedAt.value < now - 5 * 60 * 1000))
    && !AnotherReplay(rows, id)
  }

  /** Another row received, in processing or failed replays the same original. */
  predicate AnotherReplay(rows: Table, id: EventId)
    requires id in rows
  {
    && rows[id].replayOf != None
    && exists other ::
         && other in rows && other != id && rows[other].replayOf == rows[id].replayOf
         && rows[other].status in {Received, Processing, Failed}
  }

  /** The conditional claim; `at` is the point of the run at which it ran. */
  method ClaimEvent(system: WebhookSystem, claim: ClaimId, id: EventId, env: Surroundings)
    returns (won: bool, answered: bool, ghost at: nat)
    requires system.Valid() && claim !in system.s.everClaims && claim !in system.s.open && claim !in system.s.written
    requires Foreign(env, claim)
    modifies system
    ensures system.Valid() && old(system.actions) <= system.actions && old(system.states) <= system.states
    ensures Mine(system.actions, claim) == Then(Mine(old(system.actions), claim), ClaimRequest(claim, id, env))
    ensures |old(system.actions)| <= at < |system.actions| && system.actions[at] == ClaimRequest(claim, id, env)
    ensures at < |system.states| && won == Wins(system.states[at], id, env)
    ensures answered <==> env.claimArrives && !ClaimRefused(system.states[at].rows, id, env.staleReading)
    ensures won <==> claim in system.s.open
    ensures won ==> system.s.open[claim] == id
    ensures claim !in system.s.written
    // in terms of the row met: inbound, and waiting for an attempt or locked more than five minutes ago
    ensures at + 1 == |system.actions| && |system.states| == |system.actions| + 1
    ensures var met := system.states[at].rows;
            && (won <==> env.claimArrives && MayClaim(met, id, env.staleReading))
            && system.s.rows == (if MayClaim(met, id, env.staleReading)
                                 then met[id := met[id].(status := Processing, lockedAt := Some(env.lockReading),
                                                         lockedBy := Some(claim))]
                                 else met)
  {
    system.Others(claim, env.before(0));
    at := |system.actions|;
    // a statement the unique index refuses throws like one without a reply
    answered := env.claimArrives && !ClaimRefused(system.s.rows, id, env.staleReading);
    MineAppend(system.actions, ClaimRequest(claim, id, env), claim);
    system.Do(ClaimRequest(claim, id, env));
    won := claim in system.s.open;
  }

  lemma ReportEffect(s: State, claim: ClaimId, env: Surroundings)
    requires claim in s.open && claim !in s.written
    ensures Enabled(s, OutcomeReport(claim, env))
    ensures var t := Apply(s, OutcomeReport(claim, env));
            && claim !in t.open
            && (if env.finishApplied && Holds(s.rows, s.open[claim], claim)
                then t.written[claim] == 1 && Written(t, s.open[claim], env)
                else t.written[claim] == 0)
  {
  }

  /** The row carries the outcome of this handling and is no longer locked. */
  predicate Written(s: State, id: EventId, env: Surroundings) {
    && id in s.rows && s.rows[id].status == StatusOf(env.handling) && s.rows[id].processed == env.handling.Handles?
    && s.rows[id].lockedBy == None && s.rows[id].error == Truncated(DetailOf(env.handling))
  }

  /** The first 2000 characters. */
  ghost predicate Shortened(column: Option<string>, text: string) {
    column.Some? && column.value <= text && |column.value| == if |text| < 2000 then |text| else 2000
  }

  /**
   * The outcome of a handling, column by column: no message and a skip are SKIPPED with their reason, an error is
   * FAILED with its text and counts as a retry, anything else is PROCESSED; the lock is released.
   */
  ghost predicate Settles(before: Webhook, after: Webhook, env: Surroundings) {
    && (match env.handling
        case NotAMessage => after.status == Skipped && after.error == Some("Payload is not an inbound message")
        case Skips(reason) => after.status == Skipped && Shortened(after.error, reason)
        case Handles => after.status == Processed && after.error == None
        case Throws(error) => after.status == Failed && Shortened(after.error, error))
    && after.processed == (after.status == Processed) && after.processedAt == Some(env.finishReading)
    && after.retryCount == before.retryCount + (if after.status == Failed then 1 else 0)
    && after.lockedAt == None && after.lockedBy == None
    && after.inbound == before.inbound && after.replayOf == before.replayOf
  }

  lemma ReportSettles(s: State, claim: ClaimId, env: Surroundings)
    requires claim in s.open && claim !in s.written
    ensures var id, t := s.open[claim], Apply(s, OutcomeReport(claim, env));
            if env.finishApplied && id in s.rows && s.rows[id].lockedBy == Some(claim)
            then (&& t.written[claim] == 1 && t.rows == s.rows[id := t.rows[id]]
                  && Settles(s.rows[id], t.rows[id], env))
            else t.written[claim] == 0 && t.rows == s.rows
  {
  }

  /** Handles a claimed event and writes the outcome if the claim still holds the row. */
  method Settle(system: WebhookSystem, claim: ClaimId, env: Surroundings) returns (status: Status)
    requires system.Valid() && claim in system.s.open && claim !in system.s.written && Foreign(env, claim)
    modifies system
    ensures system.Valid() && old(system.actions) <= system.actions && old(system.states) <= system.states
    ensures Mine(system.actions, claim) == Then(Mine(old(system.actions), claim), OutcomeReport(claim, env))
    ensures status == StatusOf(env.handling) && claim !in system.s.open && system.s.written[claim] <= 1
    ensures system.s.written[claim] == 1 ==> Written(system.s, old(system.s.open)[claim], env)
    ensures |system.actions| > 0 && |system.states| == |system.actions| + 1
    ensures var met, id := system.states[|system.actions| - 1].rows, old(system.s.open)[claim];
            if env.finishApplied && id in met && met[id].lockedBy == Some(claim)
            then (&& system.s.written[claim] == 1 && system.s.rows.Keys == met.Keys
                  && Settles(met[id], system.s.rows[id], env)
                  && forall other :: other in met && other != id ==> system.s.rows[other] == met[other])
            else system.s.written[claim] == 0 && system.s.rows == met
  {
    system.Others(claim, env.before(1));
    var detail: Option<string> := None;
    match env.handling {
      case NotAMessage => status, detail := Skipped, Some("Payload is not an inbound message");
      case Skips(reason) => status, detail := Skipped, Some(reason);
      case Handles => status := Processed;
      case Throws(error) => status, detail := Failed, Some(error);
    }
    var report := Finish(claim, status, detail, env.finishReading, env.finishApplied);
    assert report == OutcomeReport(claim, env);
    ReportEffect(system.s, claim, env);
    ReportSettles(system.s, claim, env);
    MineAppend(system.actions, report, claim);
    system.Do(report);
  }

  /**
   * Claims the event under a new claim id, handles it, and writes the outcome if the claim still
   * holds the row. Exactly these steps are taken; a claim that was not won writes nothing.
   */
  method Process(system: WebhookSystem, claim: ClaimId, id: EventId, env: Surroundings)
    returns (outcome: Outcome, ghost at: nat)
    requires system.Valid() && claim !in system.s.everClaims && claim !in system.s.open && claim !in system.s.written
    requires Foreign(env, claim)
    modifies system
    ensures system.Valid() && old(system.actions) <= system.actions && old(system.states) <= system.states
    ensures |old(system.actions)| <= at < |system.actions| && system.actions[at] == ClaimRequest(claim, id, env)
    ensures at < |system.states|
    ensures outcome == if Wins(system.states[at], id, env) then Wrote(StatusOf(env.handling))
                       else if env.claimArrives && !ClaimRefused(system.states[at].rows, id, env.staleReading)
                       then NotClaimed else Abandoned
    ensures var asked := Then(Mine(old(system.actions), claim), ClaimRequest(claim, id, env));
            Mine(system.actions, claim) == if outcome.Wrote? then Then(asked, OutcomeReport(claim, env)) else asked
    ensures claim !in system.s.open && system.s.written[claim] <= 1
    ensures system.s.written[claim] == 1 ==> outcome.Wrote? && Written(system.s, id, env)
    ensures outcome.Wrote? <==> env.claimArrives && MayClaim(system.states[at].rows, id, env.staleReading)
    ensures outcome.Wrote? ==>
              && |system.actions| > 0 && |system.states| == |system.actions| + 1
              && var met := system.states[|system.actions| - 1].rows;
                 if env.finishApplied && id in met && met[id].lockedBy == Some(claim)
                 then system.s.rows.Keys == met.Keys && Settles(met[id], system.s.rows[id], env)
                 else system.s.rows == met
  {
    var won, answered;
    won, answered, at := ClaimEvent(system, claim, id, env);
    if !won {
      return if answered then NotClaimed else Abandoned, at;
    }
    var status := Settle(system, claim, env);
    return Wrote(status), at;
  }

  datatype OperatorError = NotFound | Conflict

  /** An operator's cancel: only events no claim is working on. */
  method CancelWebhook(system: WebhookSystem, id: EventId) returns (r: Result<(), OperatorError>)
    requires system.Valid()
    modifies system
    ensures system.Valid() && old(system.actions) <= system.actions
    ensures id !in old(system.s.rows) ==> r == Err(NotFound) && system.s == old(system.s)
    ensures id in old(system.s.rows) ==>
              (if Retryable(old(system.s.rows)[id].status)
               then (&& r == Ok(())
                     && system.s.rows == old(system.s.rows)[id := old(system.s.rows)[id].(status := Cancelled)])
               else r == Err(Conflict) && system.s.rows == old(system.s.rows))
    ensures r.Ok? <==> id in old(system.s.rows) && old(system.s.rows)[id].status in {Received, Skipped, Failed}
  {
    if id !in system.s.rows {
      return Err(NotFound);
    }
    var before := system.s.rows[id].status;
    system.Do(Cancel(id));
    return if before.Received? || before.Skipped? || before.Failed? then Ok(()) else Err(Conflict);
  }
}
