/**
 * What `verifyJWT` promises, proved about `VerifyJwtSpec`: where the credential comes
 * from, which branch each kind of token takes, what every rejection leaves behind, what a
 * rotation writes, and the trust boundary of the refresh token: only the token currently
 * stored for its subject can mint a new pair, and a token once superseded never can again.
 */
module AuthProperties {
  import opened Base
  import opened JsString
  import opened Jwt
  import opened AuthMiddleware

  /** The same request with its refresh cookie replaced, or removed when `v` is None. */
  function WithRefreshCookie(st: State, v: Option<string>): State {
    var cookies := st.ex.req.cookies;
    var updated := if v.Some? then cookies[REFRESH_COOKIE := v.value] else cookies - {REFRESH_COOKIE};
    st.(ex := st.ex.(req := st.ex.req.(cookies := updated)))
  }

  /** The refresh cookie is not part of the access credential. */
  lemma RefreshCookieNotAccessCredential(st: State, v: Option<string>)
    ensures PresentedAccessToken(WithRefreshCookie(st, v).ex.req) == PresentedAccessToken(st.ex.req)
  {
    var req := st.ex.req;
    var req' := WithRefreshCookie(st, v).ex.req;
    assert ACCESS_COOKIE != REFRESH_COOKIE;
    assert (ACCESS_COOKIE in req'.cookies) == (ACCESS_COOKIE in req.cookies);
    assert ACCESS_COOKIE in req.cookies ==> req'.cookies[ACCESS_COOKIE] == req.cookies[ACCESS_COOKIE];
  }

  /** Credential extraction: a non-empty `accessToken` cookie wins; otherwise the
      `Authorization` header is used with its first "Bearer " removed; a falsy result
      means no credential. A presented token is never empty. */
  lemma AccessTokenSources(req: Request)
    ensures Cookie(req, ACCESS_COOKIE).Some? ==> PresentedAccessToken(req) == Cookie(req, ACCESS_COOKIE)
    ensures Cookie(req, ACCESS_COOKIE).None? && req.authorization.Some?
              && OccursAt(req.authorization.value, BEARER_PREFIX, 0) ==>
      var rest := req.authorization.value[|BEARER_PREFIX|..];
      PresentedAccessToken(req) == if rest == "" then None else Some(rest)
    ensures PresentedAccessToken(req).None? <==>
      && Cookie(req, ACCESS_COOKIE).None?
      && (req.authorization.None? || ReplaceFirst(req.authorization.value, BEARER_PREFIX, "") == "")
    ensures PresentedAccessToken(req).Some? ==> PresentedAccessToken(req).value != ""
  {
    if Cookie(req, ACCESS_COOKIE).None? && req.authorization.Some? && OccursAt(req.authorization.value, BEARER_PREFIX, 0) {
      ReplacePrefix(req.authorization.value, BEARER_PREFIX);
    }
  }

  /** Neither an `accessToken` cookie nor an `Authorization` header: 401 "Unauthorized
      request", and nothing is attached, set or stored. */
  lemma NoCredentialRejected(st: State, cfg: Config, now: int, saveFails: bool)
    requires st.signer.Valid()
    requires ACCESS_COOKIE !in st.ex.req.cookies && st.ex.req.authorization.None?
    ensures VerifyJwtSpec(st, cfg, now, saveFails) == Step(st, Fail(ApiError(401, MSG_UNAUTHORIZED)))
  {
  }

  /** A valid access token of an existing user: `next()` with the user attached without
      password, refresh token and PIN; no cookie, no flag, no store change, whatever the
      refresh cookie holds. */
  lemma ValidAccessTokenPasses(st: State, cfg: Config, now: int, saveFails: bool, v: Option<string>, sub: UserId)
    requires st.signer.Valid()
    requires PresentedAccessToken(st.ex.req).Some?
    requires st.signer.Decode(Access, PresentedAccessToken(st.ex.req).value, now) == Verified(sub)
    requires sub in st.users
    ensures
      var st' := WithRefreshCookie(st, v);
      var r := VerifyJwtSpec(st', cfg, now, saveFails);
      && r.outcome == Next
      && r.state.users == st.users && r.state.signer == st.signer
      && r.state.ex == st'.ex.(user := r.state.ex.user)
      && r.state.ex.user.Some? && r.state.ex.user.value.id == st.users[sub].id
      && r.state.ex.user.value.profile == st.users[sub].profile
      && r.state.ex.user.value.password.None? && r.state.ex.user.value.pin.None?
      && r.state.ex.user.value.refreshToken.None?
  {
    RefreshCookieNotAccessCredential(st, v);
  }

  /** An access token that fails for a reason other than expiry, or that names no user:
      401 with the library's message or "Invalid Access Token"; the refresh cookie is
      never consulted and nothing changes. */
  lemma NonExpiryFailureRejected(st: State, cfg: Config, now: int, saveFails: bool, v: Option<string>)
    requires st.signer.Valid()
    requires PresentedAccessToken(st.ex.req).Some?
    requires
      var d := st.signer.Decode(Access, PresentedAccessToken(st.ex.req).value, now);
      d.Malformed? || (d.Verified? && d.sub !in st.users)
    ensures
      var d := st.signer.Decode(Access, PresentedAccessToken(st.ex.req).value, now);
      var st' := WithRefreshCookie(st, v);
      VerifyJwtSpec(st', cfg, now, saveFails)
        == Step(st', Fail(ApiError(401, if d.Malformed? then MessageOrFallback(d.message) else MSG_INVALID_ACCESS)))
  {
    RefreshCookieNotAccessCredential(st, v);
  }

  /** An expired access token with no refresh cookie: 401, nothing changes. */
  lemma ExpiredWithoutRefreshRejected(st: State, cfg: Config, now: int, saveFails: bool)
    requires st.signer.Valid()
    requires PresentedAccessToken(st.ex.req).Some?
    requires st.signer.Decode(Access, PresentedAccessToken(st.ex.req).value, now) == Expired
    requires Cookie(st.ex.req, REFRESH_COOKIE).None?
    ensures VerifyJwtSpec(st, cfg, now, saveFails) == Step(st, Fail(ApiError(401, MSG_NO_REFRESH)))
  {
  }

  /** The refresh check holds for `presented` at `now`: it verifies and equals the token
      stored for its subject. */
  predicate RefreshAccepted(st: State, presented: Token, now: int) {
    var d := st.signer.Decode(Refresh, presented, now);
    d.Verified? && d.sub in st.users && st.users[d.sub].refreshToken == Some(presented)
  }

  /** An expired access token with a refresh cookie that fails verification, names no user
      or differs from the stored token: 401 "Invalid refresh token", nothing changes. */
  lemma InvalidRefreshRejected(st: State, cfg: Config, now: int, saveFails: bool)
    requires st.signer.Valid()
    requires PresentedAccessToken(st.ex.req).Some?
    requires st.signer.Decode(Access, PresentedAccessToken(st.ex.req).value, now) == Expired
    requires Cookie(st.ex.req, REFRESH_COOKIE).Some?
    requires !RefreshAccepted(st, Cookie(st.ex.req, REFRESH_COOKIE).value, now)
    ensures VerifyJwtSpec(st, cfg, now, saveFails) == Step(st, Fail(ApiError(401, MSG_INVALID_REFRESH)))
  {
  }

  /** A failure while generating or saving the new pair is a 401 as well, never a success,
      and nothing is stored. */
  lemma GenerationFailureRejected(st: State, cfg: Config, now: int)
    requires st.signer.Valid()
    requires PresentedAccessToken(st.ex.req).Some?
    requires st.signer.Decode(Access, PresentedAccessToken(st.ex.req).value, now) == Expired
    requires Cookie(st.ex.req, REFRESH_COOKIE).Some?
    requires RefreshAccepted(st, Cookie(st.ex.req, REFRESH_COOKIE).value, now)
    ensures VerifyJwtSpec(st, cfg, now, true) == Step(st, Fail(ApiError(401, MSG_INVALID_REFRESH)))
  {
  }

  /** Rotation: with an expired access token and an accepted refresh token, the user's
      stored token is replaced by a freshly signed one different from the presented one,
      the two cookies are appended with their fixed max-ages, http-only and same-site
      strict, the user is attached without secrets and the refresh flag is raised. */
  lemma RotationOnExpiry(st: State, cfg: Config, now: int, sub: UserId)
    requires st.signer.Valid()
    requires PresentedAccessToken(st.ex.req).Some?
    requires st.signer.Decode(Access, PresentedAccessToken(st.ex.req).value, now) == Expired
    requires Cookie(st.ex.req, REFRESH_COOKIE).Some?
    requires RefreshAccepted(st, Cookie(st.ex.req, REFRESH_COOKIE).value, now)
    requires st.signer.Decode(Refresh, Cookie(st.ex.req, REFRESH_COOKIE).value, now) == Verified(sub)
    ensures
      var presented := Cookie(st.ex.req, REFRESH_COOKIE).value;
      var r := VerifyJwtSpec(st, cfg, now, false);
      var ex := r.state.ex;
      && r.outcome == Next
      && sub in r.state.users && r.state.users[sub].refreshToken.Some?
      && var minted := r.state.users[sub].refreshToken.value;
      && minted != presented
      && minted !in st.signer.issued
      && r.state.users == st.users[sub := st.users[sub].(refreshToken := Some(minted))]
      && |ex.setCookies| == |st.ex.setCookies| + 2
      && ex.setCookies[..|st.ex.setCookies|] == st.ex.setCookies
      && var a := ex.setCookies[|st.ex.setCookies|];
      && var b := ex.setCookies[|st.ex.setCookies| + 1];
      && a.name == "accessToken" && a.options == CookieOptions(true, cfg.production, "strict", 86_400_000)
      && b == SetCookie("refreshToken", minted, CookieOptions(true, cfg.production, "strict", 864_000_000))
      && (cfg.accessTtl > 0 ==> r.state.signer.Decode(Access, a.value, now) == Verified(sub))
      && (cfg.refreshTtl > 0 ==> r.state.signer.Decode(Refresh, minted, now) == Verified(sub))
      && ex.tokenRefreshed
      && ex.user == Some(WithoutSecrets(r.state.users[sub]))
      && ex.req == st.ex.req && ex.headers == st.ex.headers
  {
  }

  /** Every failure is a 401 that leaves store, signer and exchange as they were; every
      success has a user attached. */
  lemma FailuresAre401AndChangeNothing(st: State, cfg: Config, now: int, saveFails: bool)
    requires st.signer.Valid()
    ensures
      var r := VerifyJwtSpec(st, cfg, now, saveFails);
      && (r.outcome.Fail? ==> r.outcome.error.status == 401 && r.state == st)
      && (r.outcome.Next? ==> r.state.ex.user.Some?)
  {
  }

  /** Only the stored refresh token mints: if the call changed the user store, the access
      token had expired, the refresh cookie verified for some user and equalled the token
      stored for that user, and only that user's stored token changed. */
  lemma OnlyStoredTokenMints(st: State, cfg: Config, now: int, saveFails: bool)
    requires st.signer.Valid()
    ensures
      var r := VerifyJwtSpec(st, cfg, now, saveFails);
      r.state.users != st.users || r.state.ex.tokenRefreshed != st.ex.tokenRefreshed
        || r.state.ex.setCookies != st.ex.setCookies ==>
      && PresentedAccessToken(st.ex.req).Some?
      && st.signer.Decode(Access, PresentedAccessToken(st.ex.req).value, now) == Expired
      && Cookie(st.ex.req, REFRESH_COOKIE).Some?
      && RefreshAccepted(st, Cookie(st.ex.req, REFRESH_COOKIE).value, now)
      && var sub := st.signer.Decode(Refresh, Cookie(st.ex.req, REFRESH_COOKIE).value, now).sub;
      && sub in r.state.users
      && r.state.users == st.users[sub := st.users[sub].(refreshToken := r.state.users[sub].refreshToken)]
  {
  }

  /** A token the server has signed that is no longer the one stored for its subject. */
  ghost predicate Retired(users: Users, signer: Signer, t: Token) {
    && t in signer.issued
    && var sub := signer.issued[t].sub;
    (sub !in users || users[sub].refreshToken != Some(t))
  }

  /** A retired token is never accepted by the refresh check, at any time. */
  lemma RetiredNeverAccepted(st: State, t: Token, now: int)
    requires Retired(st.users, st.signer, t)
    ensures !RefreshAccepted(st, t, now)
  {
  }

  /** A rotation retires the presented token. */
  lemma RotationRetiresPresented(st: State, cfg: Config, now: int)
    requires st.signer.Valid()
    requires PresentedAccessToken(st.ex.req).Some?
    requires st.signer.Decode(Access, PresentedAccessToken(st.ex.req).value, now) == Expired
    requires Cookie(st.ex.req, REFRESH_COOKIE).Some?
    requires RefreshAccepted(st, Cookie(st.ex.req, REFRESH_COOKIE).value, now)
    ensures
      var r := VerifyJwtSpec(st, cfg, now, false);
      Retired(r.state.users, r.state.signer, Cookie(st.ex.req, REFRESH_COOKIE).value)
  {
    var sub := st.signer.Decode(Refresh, Cookie(st.ex.req, REFRESH_COOKIE).value, now).sub;
    RotationOnExpiry(st, cfg, now, sub);
  }

  /** Once retired, always retired: no call of the gate makes a retired token the stored
      one again, because every token it stores is freshly signed. */
  lemma RetiredStaysRetired(st: State, cfg: Config, now: int, saveFails: bool, t: Token)
    requires st.signer.Valid()
    requires Retired(st.users, st.signer, t)
    ensures
      var r := VerifyJwtSpec(st, cfg, now, saveFails);
      Retired(r.state.users, r.state.signer, t)
  {
    var r := VerifyJwtSpec(st, cfg, now, saveFails);
    if r.state.users != st.users {
      OnlyStoredTokenMints(st, cfg, now, saveFails);
      var sub := st.signer.Decode(Refresh, Cookie(st.ex.req, REFRESH_COOKIE).value, now).sub;
      RotationOnExpiry(st, cfg, now, sub);
    }
  }

  /** One later request to the gate: its exchange, the clock and whether saving fails. */
  datatype Call = Call(ex: Exchange, now: int, saveFails: bool)

  /** The user store and signer after the gate has handled `calls` in order. */
  function Run(users: Users, signer: Signer, cfg: Config, calls: seq<Call>): (r: (Users, Signer))
    requires signer.Valid()
    ensures r.1.Valid()
    decreases |calls|
  {
    if calls == [] then (users, signer)
    else
      var step := VerifyJwtSpec(State(users, signer, calls[0].ex), cfg, calls[0].now, calls[0].saveFails);
      Run(step.state.users, step.state.signer, cfg, calls[1..])
  }

  /** Single use: a token retired before a run of requests is still retired after it, so
      presenting it can never again pass the refresh check. */
  lemma {:induction false} RetiredForever(users: Users, signer: Signer, cfg: Config, calls: seq<Call>, t: Token, now: int)
    requires signer.Valid()
    requires Retired(users, signer, t)
    ensures
      var (users', signer') := Run(users, signer, cfg, calls);
      && Retired(users', signer', t)
      && forall ex :: !RefreshAccepted(State(users', signer', ex), t, now)
    decreases |calls|
  {
    if calls != [] {
      var st := State(users, signer, calls[0].ex);
      RetiredStaysRetired(st, cfg, calls[0].now, calls[0].saveFails, t);
      var step := VerifyJwtSpec(st, cfg, calls[0].now, calls[0].saveFails);
      RetiredForever(step.state.users, step.state.signer, cfg, calls[1..], t, now);
    }
  }

  /** Superseded refresh token: right after a rotation, presenting the previous refresh
      token with an expired access token is rejected with "Invalid refresh token". */
  lemma SupersededTokenRejected(st: State, cfg: Config, now: int, ex2: Exchange, now2: int, saveFails2: bool)
    requires st.signer.Valid()
    requires PresentedAccessToken(st.ex.req).Some?
    requires st.signer.Decode(Access, PresentedAccessToken(st.ex.req).value, now) == Expired
    requires Cookie(st.ex.req, REFRESH_COOKIE).Some?
    requires RefreshAccepted(st, Cookie(st.ex.req, REFRESH_COOKIE).value, now)
    requires
      var r := VerifyJwtSpec(st, cfg, now, false);
      && PresentedAccessToken(ex2.req).Some?
      && r.state.signer.Decode(Access, PresentedAccessToken(ex2.req).value, now2) == Expired
      && Cookie(ex2.req, REFRESH_COOKIE) == Cookie(st.ex.req, REFRESH_COOKIE)
    ensures
      var r := VerifyJwtSpec(st, cfg, now, false);
      var st2 := State(r.state.users, r.state.signer, ex2);
      VerifyJwtSpec(st2, cfg, now2, saveFails2) == Step(st2, Fail(ApiError(401, MSG_INVALID_REFRESH)))
  {
    RotationRetiresPresented(st, cfg, now);
    var r := VerifyJwtSpec(st, cfg, now, false);
    RetiredNeverAccepted(State(r.state.users, r.state.signer, ex2), Cookie(st.ex.req, REFRESH_COOKIE).value, now2);
  }

  /** A freshly issued access token authenticates its user until it expires. */
  lemma IssuedAccessTokenAuthenticates(
    users: Users, signer: Signer, cfg: Config, id: UserId, now: int, ex: Exchange, later: int, saveFails: bool)
    requires signer.Valid()
    requires GenerateTokens(users, signer, cfg, id, now, false).Ok?
    requires now <= later < now + cfg.accessTtl
    requires
      var rot := GenerateTokens(users, signer, cfg, id, now, false).value;
      Cookie(ex.req, ACCESS_COOKIE) == Some(rot.pair.accessToken)
    ensures
      var rot := GenerateTokens(users, signer, cfg, id, now, false).value;
      var r := VerifyJwtSpec(State(rot.users, rot.signer, ex), cfg, later, saveFails);
      r.outcome == Next && r.state.users == rot.users && r.state.ex.user == Some(WithoutSecrets(rot.users[id]))
  {
    var rot := GenerateTokens(users, signer, cfg, id, now, false).value;
    ExpiryIsFinal(rot.signer, Access, rot.pair.accessToken, now, later);
  }

  /** `X-Token-Refreshed: true` is on the finished response exactly when the gate rotated
      the caller's tokens; no other header is touched. */
  lemma RefreshHeaderIffRotation(st: State, cfg: Config, now: int, saveFails: bool)
    requires st.signer.Valid()
    requires !st.ex.tokenRefreshed && REFRESHED_HEADER !in st.ex.headers
    ensures
      var r := VerifyJwtSpec(st, cfg, now, saveFails);
      var ex := WithRefreshHeader(r.state.ex);
      && (REFRESHED_HEADER in ex.headers <==> r.state.users != st.users)
      && (REFRESHED_HEADER in ex.headers ==> ex.headers[REFRESHED_HEADER] == "true")
      && forall h :: h != REFRESHED_HEADER ==> (h in ex.headers <==> h in st.ex.headers)
  {
    var r := VerifyJwtSpec(st, cfg, now, saveFails);
    if r.state.ex.tokenRefreshed {
      OnlyStoredTokenMints(st, cfg, now, saveFails);
      var sub := st.signer.Decode(Refresh, Cookie(st.ex.req, REFRESH_COOKIE).value, now).sub;
      RotationOnExpiry(st, cfg, now, sub);
    }
  }

  /** The `finish` listener as written throws on every response that rotated the tokens:
      the header write comes after the head has been sent. */
  lemma RotationBreaksFinishListener(st: State, cfg: Config, now: int)
    requires st.signer.Valid()
    requires PresentedAccessToken(st.ex.req).Some?
    requires st.signer.Decode(Access, PresentedAccessToken(st.ex.req).value, now) == Expired
    requires Cookie(st.ex.req, REFRESH_COOKIE).Some?
    requires RefreshAccepted(st, Cookie(st.ex.req, REFRESH_COOKIE).value, now)
    ensures
      var r := VerifyJwtSpec(st, cfg, now, false);
      && r.outcome == Next
      && FinishListenerAsWritten(r.state.ex) == Threw(ERR_HTTP_HEADERS_SENT)
  {
    var sub := st.signer.Decode(Refresh, Cookie(st.ex.req, REFRESH_COOKIE).value, now).sub;
    RotationOnExpiry(st, cfg, now, sub);
  }
}
