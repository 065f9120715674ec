/**
 * The refresh request as imperative code over the shared token store, with other requests acting
 * between its statements.
 */
module TokenRotation {
  import opened Prelude
  import opened RefreshTokens

  /** The request on whose behalf an action is taken. */
  function Actor(a: Action): Option<RequestId> {
    match a
    case Present(q, _, _, _) => Some(q)
    case ClaimToken(q, _, _) => Some(q)
    case Deny(q) => Some(q)
    case Mint(q, _, _, _) => Some(q)
    case RevokeFamily(q, _, _) => Some(q)
    case Stop(q) => Some(q)
    case _ => None
  }

  predicate SameRequest(s: State, t: State, q: RequestId) {
    (q in t.requests <==> q in s.requests) && (q in s.requests ==> t.requests[q] == s.requests[q])
  }

  lemma OthersKeepRequest(s: State, a: Action, q: RequestId)
    requires Enabled(s, a) && Actor(a) != Some(q)
    ensures SameRequest(s, Apply(s, a), q)
  {
  }

  /** The state was passed through at or after position `from`. */
  ghost predicate Visited(states: seq<State>, from: nat, met: State) {
    exists k :: from <= k < |states| && states[k] == met
  }

  /** The steps of one request in a run, oldest first. */
  function Mine(acts: seq<Action>, q: RequestId): Log<Action> {
    if acts == [] then NoSteps
    else
      var a := acts[|acts| - 1];
      var before := Mine(acts[..|acts| - 1], q);
      if Actor(a) == Some(q) then Then(before, a) else before
  }

  lemma MineAppend(acts: seq<Action>, a: Action, q: RequestId)
    ensures Mine(acts + [a], q) == if Actor(a) == Some(q) then Then(Mine(acts, q), a) else Mine(acts, q)
  {
    assert (acts + [a])[..|acts|] == acts;
  }

  /** Revoking a family, column by column: its live tokens carry the reason and the time, all others stay. */
  ghost predicate StrikesFamily(before: map<TokenId, Token>, after: map<TokenId, Token>, family: FamilyId,
                                reason: Reason, now: int) {
    && after.Keys == before.Keys
    && forall id :: id in before ==>
         after[id] == if before[id].family == family && !before[id].revoked
                      then before[id].(revoked := true, revokedAt := Some(now), reason := Some(reason))
                      else before[id]
  }

  /** The session is over for good, unless a rotation of the family is between its claim and its mint. */
  ghost predicate EndedUnlessRotating(s: State, family: FamilyId) {
    NeverActiveAgain(s, family) <==> forall q :: !InFlight(s, family, q)
  }

  lemma RevocationStrikes(s: State, q: RequestId, now: int, applied: bool)
    requires Inv(s) && Enabled(s, RevokeFamily(q, now, applied))
    ensures var t, r := Apply(s, RevokeFamily(q, now, applied)), s.requests[q];
            && q !in t.requests
            && (if !applied then t.tokens == s.tokens
                else StrikesFamily(s.tokens, t.tokens, r.family,
                                   if r.Denied? then AccountNotUsable else ReuseDetected, now))
  {
  }

  lemma RevocationEndsFamily(s: State, q: RequestId, now: int)
    requires Inv(s) && Enabled(s, RevokeFamily(q, now, true))
    ensures EndedUnlessRotating(Apply(s, RevokeFamily(q, now, true)), s.requests[q].family)
  {
    var a, family := RevokeFamily(q, now, true), s.requests[q].family;
    assert RequestRegistered(s, s.requests[q]);
    RevocationEndsSessionIff(s, a, family);
    RevocationLeavesRotations(s, a, family);
  }

  class TokenSystem {
    ghost const initial: State
    var s: State
    ghost var states: seq<State>
    ghost var actions: seq<Action>

    ghost predicate Valid()
      reads this
    {
      IsRun(states, actions) && states[0] == initial && Initial(initial) && states[|actions|] == s
    }

    constructor (initial: State)
      requires Initial(initial)
      ensures Valid() && this.initial == initial && s == initial && states == [initial] && actions == []
    {
      this.initial, s := initial, initial;
      states, actions := [initial], [];
    }

    /** Whatever happened so far, the invariant of the protocol holds. */
    lemma Safe()
      requires Valid()
      ensures Inv(s)
    {
      ReachableStatesAreSafe(states, actions, |actions|);
    }

    lemma OneContinuation()
      requires Valid()
      ensures forall family :: |ActiveTokens(s, family)| + |OpenRotations(s, family)| <= 1
    {
      forall family
        ensures |ActiveTokens(s, family)| + |OpenRotations(s, family)| <= 1
      {
        AtMostOneContinuation(states, actions, |actions|, family);
      }
    }

    method Do(a: Action)
      requires Valid() && Enabled(s, a)
      modifies this
      ensures Valid() && s == Apply(old(s), a)
      ensures states == old(states) + [s] && actions == old(actions) + [a]
    {
      AppendStep(states, actions, a);
      s := Apply(s, a);
      states, actions := states + [s], actions + [a];
    }

    method Others(q: RequestId, script: seq<Action>)
      requires Valid() && forall a :: a in script ==> Actor(a) != Some(q)
      modifies this
      ensures Valid() && Extends(old(actions), actions) && Extends(old(states), states) && SameRequest(old(s), s, q)
      ensures Mine(actions, q) == Mine(old(actions), q)
    {
      for k := 0 to |script|
        invariant Valid() && Extends(old(actions), actions) && Extends(old(states), states) && SameRequest(old(s), s, q)
        invariant Mine(actions, q) == Mine(old(actions), q)
      {
        if Enabled(s, script[k]) {
          OthersKeepRequest(s, script[k], q);
          MineAppend(actions, script[k], q);
          Do(script[k]);
        }
      }
    }

    /** Others act, then request `q` takes one step; `met` is the state it was taken in. */
    method Turn(q: RequestId, script: seq<Action>, a: Action) returns (ghost met: State)
      requires Valid() && Actor(a) == Some(q) && forall b :: b in script ==> Actor(b) != Some(q)
      requires forall t :: SameRequest(s, t, q) ==> Enabled(t, a)
      modifies this
      ensures Valid() && Extends(old(actions), actions)
      ensures SameRequest(old(s), met, q) && Enabled(met, a) && s == Apply(met, a)
      ensures Extends(old(states), states) && Visited(states, |old(actions)|, met)
      ensures |actions| > |old(actions)| && states[|actions| - 1] == met
      ensures Mine(actions, q) == Then(Mine(old(actions), q), a)
    {
      Others(q, script);
      met := s;
      MineAppend(actions, a, q);
      Do(a);
      assert states[|actions| - 1] == met;
    }

    /** Every state passed through satisfies the invariant of the protocol. */
    lemma MetSafe(from: nat, met: State)
      requires Valid() && Visited(states, from, met)
      ensures Inv(met)
    {
      var k :| from <= k < |states| && states[k] == met;
      ReachableStatesAreSafe(states, actions, k);
    }

    lemma EndedByNow(k: nat, family: FamilyId)
      requires Valid() && k < |states| && Ended(states[k], family)
      ensures NeverActiveAgain(s, family)
    {
      EndedForever(states, actions, k, |actions|, family);
      Safe();
      EndedIsNeverActive(s, family);
    }

    /**
     * Revokes the family a request denied or found reused. The session is over for good exactly if no rotation of
     * the family is between its claim and its mint.
     */
    method RevokeTokenFamily(q: RequestId, script: seq<Action>, now: int, applied: bool)
      requires Valid() && q in s.requests && (s.requests[q].Denied? || s.requests[q].Reused?)
      requires forall b :: b in script ==> Actor(b) != Some(q)
      modifies this
      ensures Valid() && Extends(old(actions), actions) && Extends(old(states), states) && q !in s.requests
      ensures Mine(actions, q) == Then(Mine(old(actions), q), RevokeFamily(q, now, applied))
      ensures |actions| > |old(actions)|
      ensures var met, family := states[|actions| - 1].tokens, old(s.requests[q].family);
              if applied
              then StrikesFamily(met, s.tokens, family,
                                 if old(s.requests[q].Denied?) then AccountNotUsable else ReuseDetected, now)
              else s.tokens == met
      ensures var family := old(s.requests[q].family);
              applied ==> EndedUnlessRotating(s, family)
    {
      ghost var from := |actions|;
      ghost var met := Turn(q, script, RevokeFamily(q, now, applied));
      MetSafe(from, met);
      RevocationStrikes(met, q, now, applied);
      if applied {
        RevocationEndsFamily(met, q, now);
      }
    }

    /** Logout: every live token of the session is revoked; other sessions and other users keep theirs. */
    method RevokeToken(user: UserId, family: FamilyId, now: int)
      requires Valid()
      modifies this
      ensures Valid() && Extends(old(actions), actions)
      ensures s == old(s).(tokens := RevokeForLogout(old(s.tokens), user, family, now))
      ensures s.tokens.Keys == old(s.tokens).Keys
      ensures forall id :: id in s.tokens ==>
                var t := old(s.tokens)[id];
                s.tokens[id] == if t.user == user && t.family == family && !t.revoked
                                then t.(revoked := true, revokedAt := Some(now), reason := Some(Logout)) else t
    {
      Do(LogoutFamily(user, family, now));
    }

    /** Revoke-all: every live token of the users is revoked. */
    method RevokeAllTokens(users: set<UserId>, reason: Reason, now: int)
      requires Valid()
      modifies this
      ensures Valid() && Extends(old(actions), actions) && s.requests == old(s.requests)
      ensures s.tokens.Keys == old(s.tokens).Keys
      ensures forall id :: id in s.tokens ==>
                var t := old(s.tokens)[id];
                s.tokens[id] == if t.user in users && !t.revoked
                                then t.(revoked := true, revokedAt := Some(now), reason := Some(reason)) else t
    {
      Do(RevokeUsers(users, reason, now));
    }

    /** Cleanup: tokens past their expiry are deleted, whatever else they are; the others stay as they are. */
    method CleanupExpiredTokens(now: int)
      requires Valid()
      modifies this
      ensures Valid() && Extends(old(actions), actions) && s.requests == old(s.requests)
      ensures forall id :: id in s.tokens <==> id in old(s.tokens) && old(s.tokens)[id].expiresAt >= now
      ensures forall id :: id in s.tokens ==> s.tokens[id] == old(s.tokens)[id]
    {
      Do(Cleanup(now));
    }

    /** Login: a first token in a family of its own. */
    method CreateTokenPair(user: UserId, family: FamilyId, id: TokenId, expiresAt: int)
      requires Valid() && family !in s.everFamilies && id !in s.everTokens
      modifies this
      ensures Valid() && Extends(old(actions), actions)
      ensures Active(s, family, id) && ChainOf(s, family) == [id]
      ensures s.tokens == old(s.tokens)[id := Token(user, family, false, None, None, expiresAt)]
    {
      Do(Login(user, family, id, expiresAt));
    }
  }

  /** How a refresh request ends. */
  datatype Ending =
    | NotFound
    | Rejected                     // expired, bad hash, or a client race inside the grace window
    | Reuse                        // a rotated token came back: the family is revoked
    | ClaimLost                    // the claim's reply did not arrive
    | AlreadyUsed                  // another request took the token
    | NotUsable                    // the account may not sign in: the family is revoked
    | MintFailed(stored: bool)     // no reply; the new token may have been stored nevertheless
    | Rotated(id: TokenId)

  /** What the request meets at each of its statements. */
  datatype Surroundings = Surroundings(
    before: nat -> seq<Action>,   // what others do before the k-th statement
    now: nat -> int,
    arrives: nat -> bool,         // whether the reply of the k-th statement arrives
    applied: nat -> bool,         // whether a statement without a reply was applied
    hashMatches: bool,
    accountUsable: bool,
    newId: TokenId,
    expiresAt: int)

  ghost predicate Foreign(env: Surroundings, q: RequestId) {
    forall k: nat, a :: a in env.before(k) ==> Actor(a) != Some(q)
  }

  /** The statement takes effect: its reply arrives, or it was applied without one. */
  predicate TakesEffect(env: Surroundings, k: nat) { env.arrives(k) || env.applied(k) }

  /** The statements of a request, by how it ends. */
  function Statements(before: Log<Action>, q: RequestId, id: TokenId, env: Surroundings, r: Ending): Log<Action> {
    var presented := Presenting(before, q, id, env);
    match r
    case NotFound => before
    case Rejected => presented
    case Reuse => Then(presented, RevokeFamily(q, env.now(1), TakesEffect(env, 1)))
    case _ => Exchanged(presented, q, env, r)
  }

  function Exchanged(before: Log<Action>, q: RequestId, env: Surroundings, r: Ending): Log<Action> {
    if r.ClaimLost? || r.AlreadyUsed? then Asked(before, q, env) else AfterClaim(Asked(before, q, env), q, env, r)
  }

  function Presenting(before: Log<Action>, q: RequestId, id: TokenId, env: Surroundings): Log<Action> {
    Then(before, Present(q, id, env.now(0), env.hashMatches))
  }

  /** The claim, or nothing when the statement never ran. */
  function Asked(before: Log<Action>, q: RequestId, env: Surroundings): Log<Action> {
    Then(before, if TakesEffect(env, 2) then ClaimToken(q, env.now(2), env.arrives(2)) else Action.Stop(q))
  }

  function AfterClaim(before: Log<Action>, q: RequestId, env: Surroundings, r: Ending): Log<Action> {
    if r.NotUsable? then Then(Then(before, Deny(q)), RevokeFamily(q, env.now(4), TakesEffect(env, 4)))
    else if r.Rotated? || r == MintFailed(true) then Then(before, Mint(q, env.newId, env.expiresAt, true))
    else Then(before, Action.Stop(q))
  }

  /** The new token is active, descends from the old one, and is the last of its family. */
  predicate Succeeds(s: State, id: TokenId, newId: TokenId) {
    && newId in s.tokens && !s.tokens[newId].revoked
    && newId in s.parents && s.parents[newId] == id
    && (var chain := ChainOf(s, s.tokens[newId].family); chain != [] && chain[|chain| - 1] == newId)
  }

  /** What the presented token's row, as it was read, leads to. */
  function Lookup(s: State, id: TokenId, env: Surroundings): Option<Request> {
    if id in s.tokens then Presented(id, s.tokens[id], env.now(0), env.hashMatches) else None
  }

  /** Looks the presented token up; a request that may go on is open afterwards. */
  method LookUp(system: TokenSystem, q: RequestId, id: TokenId, env: Surroundings)
    returns (found: bool, ghost met: State)
    requires system.Valid() && Foreign(env, q) && q !in system.s.requests
    modifies system
    ensures system.Valid() && Extends(old(system.actions), system.actions) && Extends(old(system.states), system.states)
    ensures Visited(system.states, |old(system.actions)|, met) && found == (id in met.tokens)
    ensures match Lookup(met, id, env)
            case None => q !in system.s.requests
            case Some(request) => q in system.s.requests && system.s.requests[q] == request
    ensures var before := Mine(old(system.actions), q);
            Mine(system.actions, q) == if found then Presenting(before, q, id, env) else before
  {
    system.Others(q, env.before(0));
    met := system.s;
    assert system.states[|system.actions|] == met;
    ghost var states := system.states;
    assert Visited(states, |old(system.actions)|, met);
    found := id in system.s.tokens;
    if found {
      MineAppend(system.actions, Present(q, id, env.now(0), env.hashMatches), q);
      system.Do(Present(q, id, env.now(0), env.hashMatches));
    }
    VisitedLater(states, system.states, |old(system.actions)|, met);
  }

  /** Reads the presented token: rejected, recognised as reuse, or (None) ready to be claimed. */
  method PresentToken(system: TokenSystem, q: RequestId, id: TokenId, env: Surroundings)
    returns (r: Option<Ending>, ghost met: State)
    requires system.Valid() && Foreign(env, q) && q !in system.s.requests
    modifies system
    ensures system.Valid() && Extends(old(system.actions), system.actions) && Extends(old(system.states), system.states)
    ensures Visited(system.states, |old(system.actions)|, met)
    ensures match r
            case None => id in met.tokens && q in system.s.requests && system.s.requests[q] == Read(id, met.tokens[id])
            case Some(_) => q !in system.s.requests
    ensures r == Some(NotFound) <==> id !in met.tokens
    ensures r == Some(Rejected) <==> id in met.tokens && Lookup(met, id, env).None?
    ensures r == Some(Reuse) <==> Lookup(met, id, env).Some? && Lookup(met, id, env).value.Reused?
    ensures r.None? <==> Lookup(met, id, env).Some? && Lookup(met, id, env).value.Read?
    // in terms of the stored row: a token rotated less than ten seconds ago is a race, any other revoked one is reuse
    ensures id in met.tokens ==>
              var t, now := met.tokens[id], env.now(0);
              var race := t.reason == Some(Reason.Rotated) && t.revokedAt.Some? && now - t.revokedAt.value < 10_000;
              r == if t.revoked then Some(if race then Rejected else Reuse)
                   else if t.expiresAt < now || !env.hashMatches then Some(Rejected) else None
    ensures r == Some(Reuse) && TakesEffect(env, 1) ==> EndedUnlessRotating(system.s, met.tokens[id].family)
    ensures Mine(system.actions, q)
         == if r.None? then Presenting(Mine(old(system.actions), q), q, id, env)
            else Statements(Mine(old(system.actions), q), q, id, env, r.value)
  {
    var found;
    found, met := LookUp(system, q, id, env);
    if !found {
      return Some(NotFound), met;
    }
    if q !in system.s.requests {
      return Some(Rejected), met;
    }
    if system.s.requests[q].Reused? {
      ghost var states := system.states;
      system.RevokeTokenFamily(q, env.before(1), env.now(1), TakesEffect(env, 1));
      VisitedLater(states, system.states, |old(system.actions)|, met);
      return Some(Reuse), met;
    }
    return None, met;
  }

  lemma VisitedLater(states: seq<State>, later: seq<State>, from: nat, met: State)
    requires Extends(states, later) && Visited(states, from, met)
    ensures Visited(later, from, met)
  {
    var k :| from <= k < |states| && states[k] == met;
    assert later[k] == met;
  }

  /** Takes the token so that no concurrent request can rotate it. */
  method ClaimPresented(system: TokenSystem, q: RequestId, env: Surroundings)
    returns (r: Option<Ending>, ghost met: State)
    requires system.Valid() && Foreign(env, q) && q in system.s.requests && system.s.requests[q].Read?
    modifies system
    ensures system.Valid() && Extends(old(system.actions), system.actions) && Extends(old(system.states), system.states)
    ensures Visited(system.states, |old(system.actions)|, met)
    ensures var id := old(system.s.requests[q].id);
            r == (if !env.arrives(2) then Some(ClaimLost)
                  else if !Rotatable(met.tokens, id) then Some(AlreadyUsed) else None)
    ensures match r
            case None =>
              && q in system.s.requests
              && system.s.requests[q] == Claimed(old(system.s.requests[q].id), old(system.s.requests[q].copy))
            case Some(_) => q !in system.s.requests
    ensures Mine(system.actions, q) == Asked(Mine(old(system.actions), q), q, env)
    // an unrevoked token is marked as rotated now; the claim changes nothing else
    ensures var id := old(system.s.requests[q].id);
            system.s.tokens ==
            if TakesEffect(env, 2) && id in met.tokens && !met.tokens[id].revoked
            then met.tokens[id := met.tokens[id].(revoked := true, revokedAt := Some(env.now(2)),
                                                  reason := Some(Reason.Rotated))]
            else met.tokens
  {
    if TakesEffect(env, 2) {
      met := system.Turn(q, env.before(2), ClaimToken(q, env.now(2), env.arrives(2)));
    } else {
      met := system.Turn(q, env.before(2), Action.Stop(q));
    }
    return if !env.arrives(2) then Some(ClaimLost) else if q in system.s.requests then None else Some(AlreadyUsed), met;
  }

  /** The account may not sign in: the request gives its token up and revokes the family, which ends it anyway. */
  method RefuseAccount(system: TokenSystem, q: RequestId, env: Surroundings)
    requires system.Valid() && Foreign(env, q) && q in system.s.requests && system.s.requests[q].Claimed?
    modifies system
    ensures system.Valid() && Extends(old(system.actions), system.actions) && Extends(old(system.states), system.states)
    ensures q !in system.s.requests
    ensures Mine(system.actions, q)
         == Then(Then(Mine(old(system.actions), q), Deny(q)), RevokeFamily(q, env.now(4), TakesEffect(env, 4)))
    ensures NeverActiveAgain(system.s, old(system.s.requests[q].copy.family))
  {
    ghost var family := system.s.requests[q].copy.family;
    system.Safe();
    DenialEndsFamily(system.s, q);
    MineAppend(system.actions, Deny(q), q);
    system.Do(Deny(q));
    ghost var n := |system.actions|;
    system.RevokeTokenFamily(q, env.before(4), env.now(4), TakesEffect(env, 4));
    system.EndedByNow(n, family);
  }

  /** With the token taken: refuses an unusable account, or mints the successor. */
  method ReplaceClaimed(system: TokenSystem, q: RequestId, env: Surroundings) returns (r: Ending)
    requires system.Valid() && Foreign(env, q) && q in system.s.requests && system.s.requests[q].Claimed?
    modifies system
    ensures system.Valid() && Extends(old(system.actions), system.actions) && Extends(old(system.states), system.states)
    ensures q !in system.s.requests && (r.NotUsable? || r.MintFailed? || r.Rotated?)
    ensures r.NotUsable? <==> !env.accountUsable
    ensures r.Rotated? ==> env.arrives(3)
    ensures r == MintFailed(true) ==> !env.arrives(3) && env.applied(3)
    ensures r == MintFailed(false) ==> !TakesEffect(env, 3) || env.newId in system.s.everTokens
    ensures Mine(system.actions, q) == AfterClaim(Mine(old(system.actions), q), q, env, r)
    ensures r.Rotated? ==> r.id == env.newId
    ensures r.Rotated? || r == MintFailed(true) ==> Succeeds(system.s, old(system.s.requests[q].id), env.newId)
    // the successor belongs to the same user and session; a refused account has no session left
    ensures var copy := old(system.s.requests[q].copy);
            && (r.Rotated? || r == MintFailed(true) ==>
                  system.s.tokens[env.newId] == Token(copy.user, copy.family, false, None, None, env.expiresAt))
            && (r.NotUsable? ==> NeverActiveAgain(system.s, copy.family))
  {
    system.Others(q, env.before(3));
    if !env.accountUsable {
      RefuseAccount(system, q, env);
      return NotUsable;
    }
    if !TakesEffect(env, 3) || env.newId in system.s.everTokens {
      MineAppend(system.actions, Action.Stop(q), q);
      system.Do(Action.Stop(q));
      return MintFailed(false);
    }
    MineAppend(system.actions, Mint(q, env.newId, env.expiresAt, true), q);
    system.Do(Mint(q, env.newId, env.expiresAt, true));
    return if env.arrives(3) then Ending.Rotated(env.newId) else MintFailed(true);
  }

  /**
   * Rotates a refresh token, with exactly the statements its ending calls for. On success one new token
   * exists, rotated from the presented one and the last of its family; whatever happens the request
   * leaves nothing open behind it. `read` and `asked` are the states the lookup and the claim met.
   */
  method RotateRefreshToken(system: TokenSystem, q: RequestId, id: TokenId, env: Surroundings)
    returns (r: Ending, ghost read: State, ghost asked: State)
    requires system.Valid() && Foreign(env, q) && q !in system.s.requests
    modifies system
    ensures system.Valid() && Extends(old(system.actions), system.actions) && q !in system.s.requests
    ensures Extends(old(system.states), system.states)
    ensures Mine(system.actions, q) == Statements(Mine(old(system.actions), q), q, id, env, r)
    ensures Visited(system.states, |old(system.actions)|, read) && Visited(system.states, |old(system.actions)|, asked)
    ensures r.NotFound? <==> id !in read.tokens
    ensures r.Rejected? <==> id in read.tokens && Lookup(read, id, env).None?
    ensures r.Reuse? <==> Lookup(read, id, env).Some? && Lookup(read, id, env).value.Reused?
    ensures r.ClaimLost? ==> !env.arrives(2)
    ensures r.AlreadyUsed? ==> !Rotatable(asked.tokens, id)
    ensures r.NotUsable? || r.MintFailed? || r.Rotated? ==> env.arrives(2) && Rotatable(asked.tokens, id)
    ensures r.NotUsable? ==> !env.accountUsable
    ensures r.MintFailed? || r.Rotated? ==> env.accountUsable
    ensures r.Rotated? ==> r.id == env.newId && Succeeds(system.s, id, r.id)
    // in terms of the stored row: a token rotated less than ten seconds ago is a race, any other revoked one is reuse
    ensures id in read.tokens ==>
              var t, now := read.tokens[id], env.now(0);
              var race := t.reason == Some(Reason.Rotated) && t.revokedAt.Some? && now - t.revokedAt.value < 10_000;
              && (r.Reuse? <==> t.revoked && !race)
              && (r.Rejected? <==> if t.revoked then race else t.expiresAt < now || !env.hashMatches)
              && (r.Rotated? ==> system.s.tokens[r.id] == Token(t.user, t.family, false, None, None, env.expiresAt))
    ensures r.Reuse? && TakesEffect(env, 1) ==> EndedUnlessRotating(system.s, read.tokens[id].family)
    ensures r.NotUsable? ==> NeverActiveAgain(system.s, read.tokens[id].family)
    // whatever else happened meanwhile, no family has two ways to continue
    ensures forall family :: |ActiveTokens(system.s, family)| + |OpenRotations(system.s, family)| <= 1
  {
    var ended;
    ended, read := PresentToken(system, q, id, env);
    if ended.Some? {
      system.OneContinuation();
      return ended.value, read, read;
    }
    ghost var states := system.states;
    r, asked := ExchangePresented(system, q, env);
    system.OneContinuation();
    VisitedLater(states, system.states, |old(system.actions)|, read);
  }

  /** From the accepted token to the end: the claim, and what follows a claim that was won. */
  method ExchangePresented(system: TokenSystem, q: RequestId, env: Surroundings) returns (r: Ending, ghost asked: State)
    requires system.Valid() && Foreign(env, q) && q in system.s.requests && system.s.requests[q].Read?
    modifies system
    ensures system.Valid() && Extends(old(system.actions), system.actions) && Extends(old(system.states), system.states)
    ensures q !in system.s.requests && Visited(system.states, |old(system.actions)|, asked)
    ensures !r.NotFound? && !r.Rejected? && !r.Reuse?
    ensures Mine(system.actions, q) == Exchanged(Mine(old(system.actions), q), q, env, r)
    ensures r.ClaimLost? <==> !env.arrives(2)
    ensures r.AlreadyUsed? <==> env.arrives(2) && !Rotatable(asked.tokens, old(system.s.requests[q].id))
    ensures r.NotUsable? ==> !env.accountUsable
    ensures r.MintFailed? || r.Rotated? ==> env.accountUsable
    ensures r.Rotated? ==> r.id == env.newId && Succeeds(system.s, old(system.s.requests[q].id), r.id)
    ensures var copy := old(system.s.requests[q].copy);
            && (r.Rotated? ==>
                  system.s.tokens[r.id] == Token(copy.user, copy.family, false, None, None, env.expiresAt))
            && (r.NotUsable? ==> NeverActiveAgain(system.s, copy.family))
  {
    var ended;
    ended, asked := ClaimPresented(system, q, env);
    if ended.Some? {
      return ended.value, asked;
    }
    ghost var states := system.states;
    r := ReplaceClaimed(system, q, env);
    VisitedLater(states, system.states, |old(system.actions)|, asked);
  }
}
