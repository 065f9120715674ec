/**
 * Refresh-token families as a step system: login, rotation (read, claim, account check, mint),
 * logout, revoke-all, reuse detection and cleanup, interleaved at the grain of single statements.
 * Requests may stop at any point.
 */
module RefreshTokens {
  import opened Prelude

  type TokenId = string
  type FamilyId = string
  type UserId = string
  type RequestId = string

  const ROTATION_GRACE_MS: int := 10_000

  datatype Reason = Rotated | Logout | RevokedAll | AccountNotUsable | ReuseDetected

  datatype Token = Token(
    user: UserId,
    family: FamilyId,
    revoked: bool,
    revokedAt: Option<int>,
    reason: Option<Reason>,
    expiresAt: int)

  /** A refresh request in progress, with the copy of the token it read. */
  datatype Request =
    | Read(id: TokenId, copy: Token)
    | Claimed(id: TokenId, copy: Token)        // the token is taken, the new one not minted yet
    | Denied(family: FamilyId)                 // account not usable: the family is revoked next
    | Reused(family: FamilyId)                 // a rotated token came back: the family is revoked next

  datatype State = State(
    tokens: map<TokenId, Token>,
    requests: map<RequestId, Request>,
    everTokens: set<TokenId>,
    everFamilies: set<FamilyId>,
    claimed: multiset<TokenId>,                // history: successful rotation claims
    chains: map<FamilyId, seq<TokenId>>,       // history: tokens of a family in minting order
    parents: map<TokenId, TokenId>)            // history: the token a token was rotated from

  datatype Action =
    | Login(user: UserId, family: FamilyId, id: TokenId, expiresAt: int)
    | Present(request: RequestId, id: TokenId, now: int, valid: bool)
    | ClaimToken(request: RequestId, now: int, replied: bool)
    | Deny(request: RequestId)
    | Mint(request: RequestId, id: TokenId, expiresAt: int, applied: bool)
    | RevokeFamily(request: RequestId, now: int, applied: bool)
    | Stop(request: RequestId)
    | LogoutFamily(user: UserId, family: FamilyId, now: int)
    | RevokeUsers(users: set<UserId>, reason: Reason, now: int)
    | Cleanup(now: int)

  // -------------------------------------------------------------------------- statements

  function Revoke(t: Token, reason: Reason, now: int): Token {
    t.(revoked := true, revokedAt := Some(now), reason := Some(reason))
  }

  function RevokeInFamily(tokens: map<TokenId, Token>, family: FamilyId, reason: Reason, now: int)
    : map<TokenId, Token>
  {
    map id | id in tokens ::
      if tokens[id].family == family && !tokens[id].revoked then Revoke(tokens[id], reason, now) else tokens[id]
  }

  function RevokeForLogout(tokens: map<TokenId, Token>, user: UserId, family: FamilyId, now: int): map<TokenId, Token> {
    map id | id in tokens ::
      if tokens[id].user == user && tokens[id].family == family && !tokens[id].revoked
      then Revoke(tokens[id], Logout, now) else tokens[id]
  }

  function RevokeOfUsers(tokens: map<TokenId, Token>, users: set<UserId>, reason: Reason, now: int)
    : map<TokenId, Token>
  {
    map id | id in tokens ::
      if tokens[id].user in users && !tokens[id].revoked then Revoke(tokens[id], reason, now) else tokens[id]
  }

  /** A revoked token inside the grace window is a client race, not reuse. */
  predicate RecentlyRotated(t: Token, now: int) {
    t.reason == Some(Rotated) && t.revokedAt.Some? && now - t.revokedAt.value < ROTATION_GRACE_MS
  }

  /** What a presented token leads to: a new request state, or rejection. */
  function Presented(id: TokenId, t: Token, now: int, valid: bool): Option<Request> {
    if t.revoked then (if RecentlyRotated(t, now) then None else Some(Reused(t.family)))
    else if t.expiresAt < now || !valid then None
    else Some(Read(id, t))
  }

  predicate Rotatable(tokens: map<TokenId, Token>, id: TokenId) {
    id in tokens && !tokens[id].revoked
  }

  // ------------------------------------------------------------------------------- steps

  predicate Enabled(s: State, a: Action) {
    match a
    case Login(_, family, id, _) => family !in s.everFamilies && id !in s.everTokens
    case Present(request, id, _, _) => request !in s.requests && id in s.tokens
    case ClaimToken(request, _, _) => request in s.requests && s.requests[request].Read?
    case Deny(request) => request in s.requests && s.requests[request].Claimed?
    case Mint(request, id, _, _) => request in s.requests && s.requests[request].Claimed? && id !in s.everTokens
    case RevokeFamily(request, _, _) =>
      request in s.requests && (s.requests[request].Denied? || s.requests[request].Reused?)
    case Stop(request) => request in s.requests
    case _ => true
  }

  function Without(s: State, request: RequestId): map<RequestId, Request> { s.requests - {request} }

  function ApplyLogin(s: State, user: UserId, family: FamilyId, id: TokenId, expiresAt: int): State {
    s.(tokens := s.tokens[id := Token(user, family, false, None, None, expiresAt)],
       everTokens := s.everTokens + {id}, everFamilies := s.everFamilies + {family},
       chains := s.chains[family := [id]])
  }

  function ApplyClaim(s: State, request: RequestId, now: int, replied: bool): State
    requires Enabled(s, ClaimToken(request, now, replied))
  {
    var r := s.requests[request];
    if !Rotatable(s.tokens, r.id) then s.(requests := Without(s, request))
    else s.(tokens := s.tokens[r.id := Revoke(s.tokens[r.id], Rotated, now)],
            claimed := s.claimed + multiset{r.id},
            requests := if replied then s.requests[request := Claimed(r.id, r.copy)] else Without(s, request))
  }

  function ApplyMint(s: State, request: RequestId, id: TokenId, expiresAt: int, applied: bool): State
    requires Enabled(s, Mint(request, id, expiresAt, applied))
  {
    var r := s.requests[request];
    if !applied then s.(requests := Without(s, request))
    else s.(tokens := s.tokens[id := Token(r.copy.user, r.copy.family, false, None, None, expiresAt)],
            everTokens := s.everTokens + {id},
            chains := s.chains[r.copy.family := ChainOf(s, r.copy.family) + [id]],
            parents := s.parents[id := r.id],
            requests := Without(s, request))
  }

  function ChainOf(s: State, family: FamilyId): seq<TokenId> {
    if family in s.chains then s.chains[family] else []
  }

  function Apply(s: State, a: Action): State
    requires Enabled(s, a)
  {
    match a
    case Login(user, family, id, expiresAt) => ApplyLogin(s, user, family, id, expiresAt)
    case Present(request, id, now, valid) =>
      (match Presented(id, s.tokens[id], now, valid)
       case None => s
       case Some(r) => s.(requests := s.requests[request := r]))
    case ClaimToken(request, now, replied) => ApplyClaim(s, request, now, replied)
    case Deny(request) => s.(requests := s.requests[request := Denied(s.requests[request].copy.family)])
    case Mint(request, id, expiresAt, applied) => ApplyMint(s, request, id, expiresAt, applied)
    case RevokeFamily(request, now, applied) =>
      var r := s.requests[request];
      var reason := if r.Denied? then AccountNotUsable else ReuseDetected;
      s.(tokens := if applied then RevokeInFamily(s.tokens, r.family, reason, now) else s.tokens,
         requests := Without(s, request))
    case Stop(request) => s.(requests := Without(s, request))
    case LogoutFamily(user, family, now) => s.(tokens := RevokeForLogout(s.tokens, user, family, now))
    case RevokeUsers(users, reason, now) => s.(tokens := RevokeOfUsers(s.tokens, users, reason, now))
    case Cleanup(now) => s.(tokens := map id | id in s.tokens && s.tokens[id].expiresAt >= now :: s.tokens[id])
  }

  predicate Initial(s: State) {
    && s.tokens == map[] && s.requests == map[] && s.everTokens == {} && s.everFamilies == {}
    && s.claimed == multiset{} && s.chains == map[] && s.parents == map[]
  }

  ghost predicate Step(s: State, a: Action, t: State) {
    Enabled(s, a) && t == Apply(s, a)
  }

  ghost predicate IsRun(ss: seq<State>, acts: seq<Action>) {
    && |ss| == |acts| + 1
    && forall i :: 0 <= i < |acts| ==> Step(ss[i], acts[i], ss[i + 1])
  }

  lemma AppendStep(ss: seq<State>, acts: seq<Action>, a: Action)
    requires IsRun(ss, acts) && Enabled(ss[|acts|], a)
    ensures IsRun(ss + [Apply(ss[|acts|], a)], acts + [a])
  {
    var ss', acts' := ss + [Apply(ss[|acts|], a)], acts + [a];
    forall i | 0 <= i < |acts'|
      ensures Step(ss'[i], acts'[i], ss'[i + 1])
    {
      if i < |acts| {
        assert Step(ss[i], acts[i], ss[i + 1]);
      }
    }
  }

  // --------------------------------------------------------------------------- invariant

  predicate Active(s: State, family: FamilyId, id: TokenId) {
    id in s.tokens && !s.tokens[id].revoked && s.tokens[id].family == family
  }

  predicate InFlight(s: State, family: FamilyId, request: RequestId) {
    request in s.requests && s.requests[request].Claimed? && s.requests[request].copy.family == family
  }

  /** What may continue a family: an active token, or a claimed rotation. */
  datatype Stem = TokenStem(id: TokenId) | RequestStem(request: RequestId)

  predicate Continues(s: State, family: FamilyId, stem: Stem) {
    match stem
    case TokenStem(id) => Active(s, family, id)
    case RequestStem(request) => InFlight(s, family, request)
  }

  /** The newest token of a family behind a stem. */
  function StemToken(s: State, stem: Stem): TokenId {
    match stem
    case TokenStem(id) => id
    case RequestStem(request) =>
      if request in s.requests && s.requests[request].Claimed? then s.requests[request].id else ""
  }

  ghost predicate SingleStem(s: State) {
    forall family, a, b :: Continues(s, family, a) && Continues(s, family, b) ==> a == b
  }

  /** A stem is the last token of its family's chain. */
  ghost predicate StemsLast(s: State) {
    forall family, stem :: Continues(s, family, stem) ==>
      ChainOf(s, family) != [] && StemToken(s, stem) == ChainOf(s, family)[|ChainOf(s, family)| - 1]
  }

  ghost predicate TokensRegistered(s: State) {
    && s.tokens.Keys <= s.everTokens && s.parents.Keys <= s.everTokens
    && (forall id :: id in s.tokens ==> s.tokens[id].family in s.everFamilies)
  }

  /** A request's copy names the family and user of the token it read, and a family to be revoked exists. */
  ghost predicate RequestRegistered(s: State, r: Request) {
    if r.Denied? || r.Reused? then r.family in s.everFamilies
    else
      && r.copy.family in s.everFamilies && r.id in s.everTokens
      && (r.id in s.tokens ==> SameOwner(s.tokens[r.id], r.copy))
  }

  ghost predicate RequestsRegistered(s: State) {
    forall q :: q in s.requests ==> RequestRegistered(s, s.requests[q])
  }

  ghost predicate ChainsRegistered(s: State) {
    && s.chains.Keys == s.everFamilies
    && (forall family, i :: family in s.chains && 0 <= i < |s.chains[family]| ==> s.chains[family][i] in s.everTokens)
  }

  ghost predicate Registered(s: State) {
    TokensRegistered(s) && RequestsRegistered(s) && ChainsRegistered(s)
  }

  predicate SameOwner(a: Token, b: Token) { a.family == b.family && a.user == b.user }

  /** A chain has no repeats, and each token in it was rotated from the one before. */
  ghost predicate Linear(s: State, chain: seq<TokenId>) {
    && (forall i, j :: 0 <= i < j < |chain| ==> chain[i] != chain[j])
    && (forall i :: 0 < i < |chain| ==> chain[i] in s.parents && s.parents[chain[i]] == chain[i - 1])
  }

  ghost predicate ChainsLinear(s: State) {
    forall family :: family in s.chains ==> Linear(s, s.chains[family])
  }

  /** No token is claimed twice, and an active one has not been claimed. */
  ghost predicate ClaimedOnce(s: State) {
    && (forall id :: s.claimed[id] <= 1)
    && (forall id :: id in s.claimed ==> id in s.everTokens && (id in s.tokens ==> s.tokens[id].revoked))
  }

  /** Every stored token is on the line of its family. */
  ghost predicate TokensOnLine(s: State) {
    forall id :: id in s.tokens ==> id in ChainOf(s, s.tokens[id].family)
  }

  /** An open rotation claimed its token, and so did the rotation that minted a successor. */
  ghost predicate ClaimsRecorded(s: State) {
    && (forall q :: q in s.requests && s.requests[q].Claimed? ==> s.requests[q].id in s.claimed)
    && (forall id :: id in s.parents ==> s.parents[id] in s.claimed)
  }

  ghost predicate Inv(s: State) {
    && Registered(s) && SingleStem(s) && StemsLast(s) && ChainsLinear(s) && ClaimedOnce(s)
    && TokensOnLine(s) && ClaimsRecorded(s)
  }

  // ------------------------------------------------------------------------ preservation

  lemma TokensRegisteredKept(s: State, a: Action)
    requires Registered(s) && Enabled(s, a)
    ensures TokensRegistered(Apply(s, a))
  {
    if a.Mint? {
      assert RequestRegistered(s, s.requests[a.request]);
    }
  }

  lemma RequestsRegisteredKept(s: State, a: Action)
    requires Registered(s) && Enabled(s, a)
    ensures RequestsRegistered(Apply(s, a))
  {
    var t := Apply(s, a);
    forall q | q in t.requests
      ensures RequestRegistered(t, t.requests[q])
    {
      if q in s.requests {
        assert RequestRegistered(s, s.requests[q]);
        RequestStaysRegistered(s, a, s.requests[q]);
      }
    }
  }

  /** Tokens keep their owner, and ids and families are never handed out twice. */
  lemma RequestStaysRegistered(s: State, a: Action, r: Request)
    requires Registered(s) && Enabled(s, a) && RequestRegistered(s, r)
    ensures RequestRegistered(Apply(s, a), r)
  {
  }

  lemma ChainsRegisteredKept(s: State, a: Action)
    requires Registered(s) && Enabled(s, a)
    ensures ChainsRegistered(Apply(s, a))
  {
    var t := Apply(s, a);
    if a.Mint? {
      assert RequestRegistered(s, s.requests[a.request]);
    }
    forall family, i | family in t.chains && 0 <= i < |t.chains[family]|
      ensures t.chains[family][i] in t.everTokens
    {
      if family in s.chains && i < |s.chains[family]| {
        assert s.chains[family][i] in s.everTokens;
      }
    }
  }

  lemma RegisteredKept(s: State, a: Action)
    requires Registered(s) && Enabled(s, a)
    ensures Registered(Apply(s, a))
  {
    TokensRegisteredKept(s, a);
    RequestsRegisteredKept(s, a);
    ChainsRegisteredKept(s, a);
  }

  /** Where a stem comes from: it was there, or login, a claim or a mint produced it from the old one. */
  lemma StemOrigin(s: State, a: Action, family: FamilyId, stem: Stem)
    requires Registered(s) && Enabled(s, a) && Continues(Apply(s, a), family, stem)
    ensures Continues(s, family, stem)
      || (a.Login? && family == a.family && stem == TokenStem(a.id))
      || (a.ClaimToken? && stem == RequestStem(a.request) && Continues(s, family, TokenStem(s.requests[a.request].id)))
      || (a.Mint? && stem == TokenStem(a.id) && Continues(s, family, RequestStem(a.request)))
  {
    if a.ClaimToken? {
      assert RequestRegistered(s, s.requests[a.request]);
    }
  }

  /** A claim ends its token, a mint ends its request. */
  lemma StemConsumed(s: State, a: Action, family: FamilyId)
    requires Enabled(s, a)
    ensures a.ClaimToken? ==> !Continues(Apply(s, a), family, TokenStem(s.requests[a.request].id))
    ensures a.Mint? ==> !Continues(Apply(s, a), family, RequestStem(a.request))
  {
  }

  lemma SingleStemKept(s: State, a: Action)
    requires Registered(s) && SingleStem(s) && Enabled(s, a)
    ensures SingleStem(Apply(s, a))
  {
    var t := Apply(s, a);
    forall family, x, y | Continues(t, family, x) && Continues(t, family, y)
      ensures x == y
    {
      StemOrigin(s, a, family, x);
      StemOrigin(s, a, family, y);
      StemConsumed(s, a, family);
    }
  }

  lemma StemsLastKept(s: State, a: Action)
    requires Registered(s) && SingleStem(s) && StemsLast(s) && Enabled(s, a)
    ensures StemsLast(Apply(s, a))
  {
    var t := Apply(s, a);
    forall family, stem | Continues(t, family, stem)
      ensures ChainOf(t, family) != [] && StemToken(t, stem) == ChainOf(t, family)[|ChainOf(t, family)| - 1]
    {
      StemOrigin(s, a, family, stem);
      StemConsumed(s, a, family);
      if a.Mint? && Continues(s, family, stem) && InFlight(s, family, a.request) {
        assert Continues(s, family, RequestStem(a.request));
      }
    }
  }

  lemma ChainsLinearKept(s: State, a: Action)
    requires Registered(s) && StemsLast(s) && ChainsLinear(s) && Enabled(s, a)
    ensures ChainsLinear(Apply(s, a))
  {
    var t := Apply(s, a);
    forall family | family in t.chains
      ensures Linear(t, t.chains[family])
    {
      if a.Mint? && a.applied && family == s.requests[a.request].copy.family {
        assert Continues(s, family, RequestStem(a.request));
        assert Linear(s, s.chains[family]);
      } else if family in s.chains {
        assert Linear(s, s.chains[family]);
      }
    }
  }

  lemma ClaimedOnceKept(s: State, a: Action)
    requires Registered(s) && ClaimedOnce(s) && Enabled(s, a)
    ensures ClaimedOnce(Apply(s, a))
  {
  }

  lemma TokensOnLineKept(s: State, a: Action)
    requires Registered(s) && TokensOnLine(s) && Enabled(s, a)
    ensures TokensOnLine(Apply(s, a))
  {
    var t := Apply(s, a);
    forall id | id in t.tokens
      ensures id in ChainOf(t, t.tokens[id].family)
    {
      if id in s.tokens {
        assert id in ChainOf(s, s.tokens[id].family);
        assert t.tokens[id].family == s.tokens[id].family;
        ChainsGrow(s, a, t.tokens[id].family);
      }
    }
  }

  lemma ChainsGrow(s: State, a: Action, family: FamilyId)
    requires Registered(s) && Enabled(s, a)
    ensures ChainOf(s, family) <= ChainOf(Apply(s, a), family)
  {
  }

  lemma ClaimsRecordedKept(s: State, a: Action)
    requires ClaimsRecorded(s) && Enabled(s, a)
    ensures ClaimsRecorded(Apply(s, a))
  {
  }

  lemma StepKeepsInv(s: State, a: Action)
    requires Inv(s) && Enabled(s, a)
    ensures Inv(Apply(s, a))
  {
    RegisteredKept(s, a);
    SingleStemKept(s, a);
    StemsLastKept(s, a);
    ChainsLinearKept(s, a);
    ClaimedOnceKept(s, a);
    TokensOnLineKept(s, a);
    ClaimsRecordedKept(s, a);
  }

  lemma {:induction false} RunKeepsInv(ss: seq<State>, acts: seq<Action>, n: nat)
    requires IsRun(ss, acts) && Inv(ss[0]) && n < |ss|
    ensures Inv(ss[n])
  {
    if n > 0 {
      RunKeepsInv(ss, acts, n - 1);
      assert Step(ss[n - 1], acts[n - 1], ss[n - 1 + 1]);
      StepKeepsInv(ss[n - 1], acts[n - 1]);
    }
  }

  lemma ReachableStatesAreSafe(ss: seq<State>, acts: seq<Action>, n: nat)
    requires IsRun(ss, acts) && Initial(ss[0]) && n < |ss|
    ensures Inv(ss[n])
  {
    RunKeepsInv(ss, acts, n);
  }

  // ------------------------------------------------------------------------ main results

  function ActiveTokens(s: State, family: FamilyId): set<TokenId> {
    set id | id in s.tokens && Active(s, family, id)
  }

  function OpenRotations(s: State, family: FamilyId): set<RequestId> {
    set q | q in s.requests && InFlight(s, family, q)
  }

  /** A family never has more than one way to continue: active tokens plus open rotations are at most one. */
  lemma AtMostOneContinuation(ss: seq<State>, acts: seq<Action>, n: nat, family: FamilyId)
    requires IsRun(ss, acts) && Initial(ss[0]) && n < |ss|
    ensures |ActiveTokens(ss[n], family)| + |OpenRotations(ss[n], family)| <= 1
  {
    ReachableStatesAreSafe(ss, acts, n);
    var s := ss[n];
    var ids, requests := ActiveTokens(s, family), OpenRotations(s, family);
    forall x, y | x in ids && y in ids ensures x == y {
      assert Continues(s, family, TokenStem(x)) && Continues(s, family, TokenStem(y));
    }
    forall x, y | x in requests && y in requests ensures x == y {
      assert Continues(s, family, RequestStem(x)) && Continues(s, family, RequestStem(y));
    }
    forall x, q | x in ids && q in requests ensures false {
      assert Continues(s, family, TokenStem(x)) && Continues(s, family, RequestStem(q));
    }
    AtMostOneElement(ids);
    AtMostOneElement(requests);
  }

  lemma AtMostOneElement(xs: set<string>)
    requires forall x, y :: x in xs && y in xs ==> x == y
    ensures |xs| <= 1
  {
    if xs != {} {
      var x :| x in xs;
      assert xs == {x};
    }
  }

  /**
   * The tokens ever stored for a family form one line: no token twice, each rotated from its predecessor by
   * the only claim the predecessor ever got, every stored token on the line, and an active one at its end.
   */
  lemma FamilyIsALine(ss: seq<State>, acts: seq<Action>, n: nat, family: FamilyId)
    requires IsRun(ss, acts) && Initial(ss[0]) && n < |ss|
    ensures var chain := ChainOf(ss[n], family);
            && Linear(ss[n], chain)
            && (forall i :: 0 <= i < |chain| - 1 ==> ss[n].claimed[chain[i]] == 1)
            && (forall id :: id in ss[n].tokens && ss[n].tokens[id].family == family ==> id in chain)
            && (forall id :: Active(ss[n], family, id) ==> chain != [] && id == chain[|chain| - 1])
    ensures forall id :: ss[n].claimed[id] <= 1
  {
    ReachableStatesAreSafe(ss, acts, n);
    var chain := ChainOf(ss[n], family);
    forall i | 0 <= i < |chain| - 1
      ensures ss[n].claimed[chain[i]] == 1
    {
      assert ss[n].parents[chain[i + 1]] == chain[i + 1 - 1];
    }
    forall id | Active(ss[n], family, id)
      ensures chain != [] && id == chain[|chain| - 1]
    {
      assert Continues(ss[n], family, TokenStem(id));
    }
  }

  ghost predicate Ended(s: State, family: FamilyId) {
    family in s.everFamilies && forall stem :: !Continues(s, family, stem)
  }

  /** A family without an active token and without an open rotation stays that way forever. */
  lemma EndedForever(ss: seq<State>, acts: seq<Action>, i: nat, j: nat, family: FamilyId)
    requires IsRun(ss, acts) && Initial(ss[0]) && i <= j < |ss| && Ended(ss[i], family)
    ensures Ended(ss[j], family)
  {
    StaysEnded(ss, acts, i, j, family);
  }

  lemma {:induction false} StaysEnded(ss: seq<State>, acts: seq<Action>, i: nat, j: nat, family: FamilyId)
    requires IsRun(ss, acts) && Inv(ss[0]) && i <= j < |ss| && Ended(ss[i], family)
    ensures Ended(ss[j], family)
    decreases j - i
  {
    if i < j {
      StaysEnded(ss, acts, i, j - 1, family);
      RunKeepsInv(ss, acts, j - 1);
      assert Step(ss[j - 1], acts[j - 1], ss[j - 1 + 1]);
      EndedStep(ss[j - 1], acts[j - 1], family);
    }
  }

  lemma EndedStep(s: State, a: Action, family: FamilyId)
    requires Registered(s) && Enabled(s, a) && Ended(s, family)
    ensures Ended(Apply(s, a), family)
  {
    forall stem | Continues(Apply(s, a), family, stem)
      ensures false
    {
      StemOrigin(s, a, family, stem);
    }
  }

  /** All tokens of a family belong to one user. */
  ghost predicate OneUser(s: State, family: FamilyId, user: UserId) {
    forall id :: id in s.tokens && s.tokens[id].family == family ==> s.tokens[id].user == user
  }

  /** Tokens of one family name the same user. */
  ghost predicate TokensAgree(s: State) {
    forall x, y :: x in s.tokens && y in s.tokens && s.tokens[x].family == s.tokens[y].family ==>
      s.tokens[x].user == s.tokens[y].user
  }

  /** So do open rotations and the tokens of their family. */
  ghost predicate RotationsAgree(s: State) {
    forall x, q :: x in s.tokens && InFlight(s, s.tokens[x].family, q) ==> s.tokens[x].user == s.requests[q].copy.user
  }

  ghost predicate UsersAgree(s: State) {
    TokensAgree(s) && RotationsAgree(s)
  }

  /** The owner of a token that stays; a minted token takes it from its open rotation. */
  lemma TokenOwners(s: State, a: Action, x: TokenId)
    requires Registered(s) && Enabled(s, a) && x in Apply(s, a).tokens
    ensures x in s.tokens ==> SameOwner(Apply(s, a).tokens[x], s.tokens[x])
    ensures || x in s.tokens
            || (a.Login? && a.family !in s.everFamilies && Apply(s, a).tokens[x].family == a.family)
            || (a.Mint? && x == a.id && SameOwner(Apply(s, a).tokens[x], s.requests[a.request].copy)
                && InFlight(s, Apply(s, a).tokens[x].family, a.request))
  {
  }

  lemma TokensAgreeKept(s: State, a: Action)
    requires Inv(s) && UsersAgree(s) && Enabled(s, a)
    ensures TokensAgree(Apply(s, a))
  {
    var t := Apply(s, a);
    forall x, y | x in t.tokens && y in t.tokens && t.tokens[x].family == t.tokens[y].family
      ensures t.tokens[x].user == t.tokens[y].user
    {
      TokenOwners(s, a, x);
      TokenOwners(s, a, y);
    }
  }

  lemma RotationOwners(s: State, a: Action, family: FamilyId, q: RequestId)
    requires Registered(s) && Enabled(s, a) && InFlight(Apply(s, a), family, q)
    ensures q in s.requests && Apply(s, a).requests[q].copy == s.requests[q].copy && family in s.everFamilies
    ensures || InFlight(s, family, q)
            || (a.ClaimToken? && a.request == q && s.requests[q].id in s.tokens
                && SameOwner(s.tokens[s.requests[q].id], s.requests[q].copy))
  {
    if q in s.requests {
      assert RequestRegistered(s, s.requests[q]);
    }
  }

  lemma RotationsAgreeKept(s: State, a: Action)
    requires Inv(s) && UsersAgree(s) && Enabled(s, a)
    ensures RotationsAgree(Apply(s, a))
  {
    var t := Apply(s, a);
    forall x, q | x in t.tokens && InFlight(t, t.tokens[x].family, q)
      ensures t.tokens[x].user == t.requests[q].copy.user
    {
      var family := t.tokens[x].family;
      TokenOwners(s, a, x);
      RotationOwners(s, a, family, q);
      if x !in s.tokens {
        assert InFlight(s, family, q);
        assert Continues(s, family, RequestStem(q)) && Continues(s, family, RequestStem(a.request));
      }
    }
  }

  lemma {:induction false} OwnersAgree(ss: seq<State>, acts: seq<Action>, n: nat)
    requires IsRun(ss, acts) && Initial(ss[0]) && n < |ss|
    ensures UsersAgree(ss[n])
  {
    if n > 0 {
      OwnersAgree(ss, acts, n - 1);
      ReachableStatesAreSafe(ss, acts, n - 1);
      assert Step(ss[n - 1], acts[n - 1], ss[n - 1 + 1]);
      TokensAgreeKept(ss[n - 1], acts[n - 1]);
      RotationsAgreeKept(ss[n - 1], acts[n - 1]);
    }
  }

  lemma FamilyHasOneUser(ss: seq<State>, acts: seq<Action>, n: nat, family: FamilyId)
    requires IsRun(ss, acts) && Initial(ss[0]) && n < |ss|
    ensures UsersAgree(ss[n])
    ensures exists user :: OneUser(ss[n], family, user)
  {
    OwnersAgree(ss, acts, n);
    if id :| id in ss[n].tokens && ss[n].tokens[id].family == family {
      assert OneUser(ss[n], family, ss[n].tokens[id].user);
    } else {
      assert OneUser(ss[n], family, "");
    }
  }

  /** The action revokes the active token of the family: a logout, a revoke-all, or a completed family revocation. */
  ghost predicate Revokes(s: State, a: Action, family: FamilyId)
    requires Enabled(s, a)
  {
    || (a.LogoutFamily? && a.family == family && OneUser(s, family, a.user))
    || (a.RevokeUsers? && exists user :: user in a.users && OneUser(s, family, user))
    || (a.RevokeFamily? && a.applied && s.requests[a.request].family == family)
  }

  /** From here on, whatever happens, the family never has an active token again. */
  ghost predicate NeverActiveAgain(s: State, family: FamilyId) {
    forall ss: seq<State>, acts: seq<Action>, n: nat, id ::
      IsRun(ss, acts) && ss[0] == s && n < |ss| ==> !Active(ss[n], family, id)
  }

  /**
   * A logout, a revoke-all of the user, or a completed reuse detection ends the session for every continuation
   * exactly when no rotation of that family is between its claim and its mint at that moment.
   */
  lemma RevocationEndsSessionIff(s: State, a: Action, family: FamilyId)
    requires Inv(s) && Enabled(s, a) && family in s.everFamilies && Revokes(s, a, family)
    ensures NeverActiveAgain(Apply(s, a), family) <==> forall q :: !InFlight(s, family, q)
    ensures Ended(Apply(s, a), family) <==> forall q :: !InFlight(s, family, q)
  {
    var t := Apply(s, a);
    StepKeepsInv(s, a);
    RevocationLeavesRotations(s, a, family);
    if q :| InFlight(s, family, q) {
      assert Continues(t, family, RequestStem(q));
      RotationOutlives(t, family, q);
    } else {
      forall stem ensures !Continues(t, family, stem) {
        match stem
        case TokenStem(id) => assert !Active(t, family, id);
        case RequestStem(q) => assert !InFlight(s, family, q);
      }
      EndedIsNeverActive(t, family);
    }
  }

  lemma EndedIsNeverActive(s: State, family: FamilyId)
    requires Inv(s) && Ended(s, family)
    ensures NeverActiveAgain(s, family)
  {
    forall ss: seq<State>, acts: seq<Action>, n: nat, id | IsRun(ss, acts) && ss[0] == s && n < |ss|
      ensures !Active(ss[n], family, id)
    {
      StaysEnded(ss, acts, 0, n, family);
      assert !Continues(ss[n], family, TokenStem(id));
    }
  }

  /** Refusing the account ends the session before anything is revoked: the claimed token was its only stem. */
  lemma DenialEndsFamily(s: State, q: RequestId)
    requires Inv(s) && Enabled(s, Deny(q))
    ensures Ended(Apply(s, Deny(q)), s.requests[q].copy.family)
  {
    var family := s.requests[q].copy.family;
    assert RequestRegistered(s, s.requests[q]);
    forall stem | Continues(Apply(s, Deny(q)), family, stem)
      ensures false
    {
      StemOrigin(s, Deny(q), family, stem);
      assert Continues(s, family, RequestStem(q));
    }
  }

  lemma RevocationLeavesRotations(s: State, a: Action, family: FamilyId)
    requires Enabled(s, a) && Revokes(s, a, family)
    ensures forall id :: !Active(Apply(s, a), family, id)
    ensures forall q :: InFlight(Apply(s, a), family, q) <==> InFlight(s, family, q)
  {
  }

  /** An open rotation can mint an active token in one more step. */
  lemma RotationOutlives(t: State, family: FamilyId, q: RequestId)
    requires InFlight(t, family, q)
    ensures !NeverActiveAgain(t, family)
  {
    var id := FreshId(t.everTokens);
    var mint := Mint(q, id, 0, true);
    var u := Apply(t, mint);
    AppendStep([t], [], mint);
    var ss, acts := [t] + [u], [] + [mint];
    assert ss[0] == t && IsRun(ss, acts) && Active(ss[1], family, id);
  }

  lemma FreshId(used: set<string>) returns (id: string)
    ensures id !in used
    ensures forall other :: other in used ==> |other| < |id|
    decreases |used|
  {
    if used == {} {
      id := "x";
    } else {
      var other :| other in used;
      var longer := FreshId(used - {other});
      id := longer + other + "x";
      assert |id| > |longer| && |id| > |other|;
    }
  }

  // ---------------------------------------------------------- a session that outlives its logout

  const NOBODY := State(map[], map[], {}, {}, multiset{}, map[], map[])

  /** Login, a refresh that reads and claims the token, a logout, and the refresh minting its new token. */
  function RacingLogout(): seq<Action> {
    [ Login("user", "family", "first", 1_000), Present("refresh", "first", 0, true), ClaimToken("refresh", 0, true),
      LogoutFamily("user", "family", 1), Mint("refresh", "second", 1_000, true) ]
  }

  const FIRST := Token("user", "family", false, None, None, 1_000)

  /** The racing run after each of its steps. */
  function RacingState(k: nat): State {
    if k == 0 then NOBODY
    else
      var ids, families := {"first"}, {"family"};
      var claimed := if k < 3 then multiset{} else multiset{"first"};
      var first := if k < 3 then FIRST else Revoke(FIRST, Rotated, 0);
      var requests := if k == 1 || k > 4 then map[] else if k == 2 then map["refresh" := Read("first", FIRST)]
                      else map["refresh" := Claimed("first", FIRST)];
      if k <= 4 then State(map["first" := first], requests, ids, families, claimed, map["family" := ["first"]], map[])
      else State(map["first" := first, "second" := FIRST], requests, ids + {"second"}, families, claimed,
                 map["family" := ["first", "second"]], map["second" := "first"])
  }

  lemma RefreshReadsAndClaims()
    ensures forall k :: 0 <= k < 3 ==> Step(RacingState(k), RacingLogout()[k], RacingState(k + 1))
  {
    var acts := RacingLogout();
    assert Apply(RacingState(0), acts[0]) == RacingState(1);
    assert Apply(RacingState(1), acts[1]).requests == RacingState(2).requests;
    var t := Apply(RacingState(2), acts[2]);
    assert t.tokens == RacingState(3).tokens && t.requests == RacingState(3).requests;
  }

  lemma LogoutThenMint()
    ensures forall k :: 3 <= k < 5 ==> Step(RacingState(k), RacingLogout()[k], RacingState(k + 1))
  {
    var acts := RacingLogout();
    assert Apply(RacingState(3), acts[3]).tokens == RacingState(4).tokens;
    var t := Apply(RacingState(4), acts[4]);
    assert t.tokens == RacingState(5).tokens && t.requests == RacingState(5).requests;
    assert t.everTokens == RacingState(5).everTokens && ["first"] + ["second"] == ["first", "second"];
    assert t.chains == RacingState(5).chains;
  }

  /** After a run from an empty store whose last step but one is a logout, the session is active. */
  lemma RotationOutlivesLogout()
    ensures exists ss: seq<State> ::
              && IsRun(ss, RacingLogout()) && Initial(ss[0])
              && ActiveTokens(ss[4], "family") == {} && Active(ss[5], "family", "second")
  {
    RefreshReadsAndClaims();
    LogoutThenMint();
    var ss := seq(6, k requires k >= 0 => RacingState(k));
    forall k | 0 <= k < 5
      ensures Step(ss[k], RacingLogout()[k], ss[k + 1])
    {
      assert ss[k] == RacingState(k) && ss[k + 1] == RacingState(k + 1);
    }
    assert IsRun(ss, RacingLogout());
  }
}
