/**
 * The session gate in front of every protected route: `verifyJWT`, the token rotation it
 * falls back to when the access token has expired (`generateAccessAndRefreshTokens`), and
 * the rule of `addTokenRefreshHeaders` that turns the per-request refresh flag into a
 * response header.
 *
 * The user collection is a map from `_id` to the stored document; one request/response
 * pair is an `Exchange`. `VerifyJwtSpec` is the whole decision as a function of the state
 * before the call; `Gate.VerifyJwt` performs it step by step on the mutable state.
 */
module AuthMiddleware {
  import opened Base
  import opened JsString
  import opened Jwt

  const ACCESS_COOKIE: string := "accessToken"
  const REFRESH_COOKIE: string := "refreshToken"
  const BEARER_PREFIX: string := "Bearer "
  /** 24 hours, in milliseconds. */
  const ACCESS_MAX_AGE: nat := 24 * 60 * 60 * 1000
  /** 10 days, in milliseconds. */
  const REFRESH_MAX_AGE: nat := 10 * 24 * 60 * 60 * 1000
  const REFRESHED_HEADER: string := "X-Token-Refreshed"

  const MSG_UNAUTHORIZED: string := "Unauthorized request"
  const MSG_INVALID_ACCESS: string := "Invalid Access Token"
  const MSG_NO_REFRESH: string := "Access token expired and no refresh token provided"
  const MSG_INVALID_REFRESH: string := "Invalid refresh token"
  const MSG_FALLBACK: string := "Invalid access token"
  const MSG_GENERATION: string := "Something went wrong while generating tokens"

  /** A user document as far as authentication is concerned; `profile` stands for every
      field the middleware passes along untouched. */
  datatype UserDoc = UserDoc(
    id: UserId,
    password: Option<string>,
    pin: Option<string>,
    refreshToken: Option<Token>,
    profile: string)

  type Users = map<UserId, UserDoc>

  /** `.select("-password -refreshToken -pin")`: the document with its secrets withheld. */
  function WithoutSecrets(u: UserDoc): (v: UserDoc)
    ensures v.password.None? && v.refreshToken.None? && v.pin.None?
    ensures v.id == u.id && v.profile == u.profile
  {
    u.(password := None, refreshToken := None, pin := None)
  }

  /** The parts of an incoming request the gate reads: the parsed cookies and the
      `Authorization` header. */
  datatype Request = Request(cookies: map<string, string>, authorization: Option<string>)

  datatype CookieOptions = CookieOptions(httpOnly: bool, secure: bool, sameSite: string, maxAge: nat)

  /** One `res.cookie(name, value, options)` call. */
  datatype SetCookie = SetCookie(name: string, value: string, options: CookieOptions)

  /** One request/response pair: the request, the `req.user` slot, the `req.tokenRefreshed`
      flag, the cookies set on the response in order, and the response headers. */
  datatype Exchange = Exchange(
    req: Request,
    user: Option<UserDoc>,
    tokenRefreshed: bool,
    setCookies: seq<SetCookie>,
    headers: map<string, string>)

  /** How the middleware ends: `next()` is called, or an `ApiError` is thrown. */
  datatype Outcome = Next | Fail(error: ApiError)

  datatype TokenPair = TokenPair(accessToken: Token, refreshToken: Token)

  /** Deployment settings: token lifetimes in seconds (set by the user model, which is
      not part of this model) and whether `NODE_ENV` is "production". */
  datatype Config = Config(accessTtl: nat, refreshTtl: nat, production: bool)

  /** The effect of a successful rotation. */
  datatype Rotation = Rotation(users: Users, signer: Signer, pair: TokenPair)

  /** Everything the gate reads and writes while handling one request. */
  datatype State = State(users: Users, signer: Signer, ex: Exchange)

  datatype Step = Step(state: State, outcome: Outcome)

  /** `req.cookies?.[name]`, where a missing and an empty cookie are both falsy. */
  function Cookie(req: Request, name: string): (r: Option<string>)
    ensures r.Some? <==> name in req.cookies && req.cookies[name] != ""
    ensures r.Some? ==> r.value == req.cookies[name] && r.value != ""
  {
    if name in req.cookies && req.cookies[name] != "" then Some(req.cookies[name]) else None
  }

  /** `req.cookies?.accessToken || req.header("Authorization")?.replace("Bearer ", "")`,
      with a falsy result read as "no credential". */
  function PresentedAccessToken(req: Request): (r: Option<Token>)
    ensures r.Some? ==> r.value != ""
    ensures Cookie(req, ACCESS_COOKIE).Some? ==> r == Cookie(req, ACCESS_COOKIE)
    ensures r.None? ==> Cookie(req, ACCESS_COOKIE).None?
    ensures Cookie(req, ACCESS_COOKIE).None? && req.authorization.None? ==> r.None?
    ensures Cookie(req, ACCESS_COOKIE).None? && req.authorization.Some? ==>
      var t := ReplaceFirst(req.authorization.value, BEARER_PREFIX, "");
      r == if t == "" then None else Some(t)
  {
    match Cookie(req, ACCESS_COOKIE)
    case Some(t) => Some(t)
    case None =>
      match req.authorization
      case None => None
      case Some(h) =>
        var t := ReplaceFirst(h, BEARER_PREFIX, "");
        if t == "" then None else Some(t)
  }

  /** `error?.message || "Invalid access token"`. */
  function MessageOrFallback(message: string): (m: string)
    ensures m != ""
    ensures message != "" ==> m == message
    ensures message == "" ==> m == MSG_FALLBACK
  {
    if message == "" then MSG_FALLBACK else message
  }

  /** The error every rejection ends in once the outer `catch` has rethrown it. */
  function Unauthorized(message: string): (e: ApiError)
    ensures e.status == 401 && e.message != ""
    ensures message != "" ==> e.message == message
  {
    ApiError(401, MessageOrFallback(message))
  }

  function Reject(st: State, message: string): Step {
    Step(st, Fail(Unauthorized(message)))
  }

  /** The cookie options of a rotation: script-inaccessible, same-site only, sent over
      HTTPS only in production, and kept for one day. */
  function AccessCookieOptions(cfg: Config): (o: CookieOptions)
    ensures o.httpOnly && o.sameSite == "strict"
    ensures o.secure <==> cfg.production
    ensures o.maxAge == 86_400_000
  {
    CookieOptions(true, cfg.production, "strict", ACCESS_MAX_AGE)
  }

  /** The access cookie's options with a lifetime ten times as long. */
  function RefreshCookieOptions(cfg: Config): (o: CookieOptions)
    ensures o.(maxAge := ACCESS_MAX_AGE) == AccessCookieOptions(cfg)
    ensures o.maxAge == 10 * AccessCookieOptions(cfg).maxAge == 864_000_000
  {
    AccessCookieOptions(cfg).(maxAge := REFRESH_MAX_AGE)
  }

  /** `generateAccessAndRefreshTokens(id)`: sign a new pair for the user and store the new
      refresh token in place of the old one. A missing user or a failed `save` turns into
      a 500 error, and then nothing is stored. */
  function GenerateTokens(users: Users, signer: Signer, cfg: Config, id: UserId, now: int, saveFails: bool)
    : (r: Result<Rotation, ApiError>)
    requires signer.Valid()
    ensures r.Ok? <==> id in users && !saveFails
    ensures r.Err? ==> r.error == ApiError(500, MSG_GENERATION)
    ensures r.Ok? ==> r.value.signer.Valid()
    ensures r.Ok? ==> forall k: Kind, t: Token, time: int ::
      t in signer.issued ==> r.value.signer.Decode(k, t, time) == signer.Decode(k, t, time)
    ensures r.Ok? ==>
      var p := r.value.pair;
      && r.value.users == users[id := users[id].(refreshToken := Some(p.refreshToken))]
      && p.accessToken !in signer.issued && p.refreshToken !in signer.issued
      && p.accessToken != p.refreshToken
      && r.value.signer.Decode(Access, p.accessToken, now) == (if cfg.accessTtl > 0 then Verified(id) else Expired)
      && r.value.signer.Decode(Refresh, p.refreshToken, now) == (if cfg.refreshTtl > 0 then Verified(id) else Expired)
  {
    if id !in users || saveFails then Err(ApiError(500, MSG_GENERATION))
    else
      var (s1, access) := signer.Issue(Access, id, now, cfg.accessTtl);
      var (s2, refresh) := s1.Issue(Refresh, id, now, cfg.refreshTtl);
      Ok(Rotation(users[id := users[id].(refreshToken := Some(refresh))], s2, TokenPair(access, refresh)))
  }

  /** The expired-access branch of `verifyJWT`: the refresh cookie must verify and equal the
      token stored for its subject; then the pair is rotated, both cookies are set, the user
      is reloaded without secrets and the refresh flag is raised. */
  function RefreshSpec(st: State, cfg: Config, now: int, saveFails: bool): (r: Step)
    requires st.signer.Valid()
    ensures r.state.signer.Valid()
  {
    match Cookie(st.ex.req, REFRESH_COOKIE)
    case None => Reject(st, MSG_NO_REFRESH)
    case Some(presented) =>
      match st.signer.Decode(Refresh, presented, now)
      case Verified(sub) =>
        if sub !in st.users || st.users[sub].refreshToken != Some(presented) then
          Reject(st, MSG_INVALID_REFRESH)
        else
          (match GenerateTokens(st.users, st.signer, cfg, sub, now, saveFails)
           case Err(_) => Reject(st, MSG_INVALID_REFRESH)
           case Ok(rot) =>
             var cookies := [SetCookie(ACCESS_COOKIE, rot.pair.accessToken, AccessCookieOptions(cfg)),
                             SetCookie(REFRESH_COOKIE, rot.pair.refreshToken, RefreshCookieOptions(cfg))];
             var ex := st.ex.(setCookies := st.ex.setCookies + cookies,
                              user := Some(WithoutSecrets(rot.users[sub])),
                              tokenRefreshed := true);
             Step(State(rot.users, rot.signer, ex), Next))
      case _ => Reject(st, MSG_INVALID_REFRESH)
  }

  /** `verifyJWT` for one request, as a function of the state before the call. */
  function VerifyJwtSpec(st: State, cfg: Config, now: int, saveFails: bool): (r: Step)
    requires st.signer.Valid()
    ensures r.state.signer.Valid()
  {
    match PresentedAccessToken(st.ex.req)
    case None => Reject(st, MSG_UNAUTHORIZED)
    case Some(token) =>
      match st.signer.Decode(Access, token, now)
      case Verified(sub) =>
        if sub in st.users then Step(st.(ex := st.ex.(user := Some(WithoutSecrets(st.users[sub])))), Next)
        else Reject(st, MSG_INVALID_ACCESS)
      case Malformed(message) => Reject(st, message)
      case Expired => RefreshSpec(st, cfg, now, saveFails)
  }

  /** When a handler touches the response: while it is still being written, or from a
      `finish` listener, once head and body have been sent. */
  datatype Phase = Writing | Finished

  /** Node's error code for a header write after the head has been sent. */
  const ERR_HTTP_HEADERS_SENT: string := "ERR_HTTP_HEADERS_SENT"

  /** The effect of `res.setHeader`: the updated response, or the error it throws. */
  datatype HeaderWrite = Written(ex: Exchange) | Threw(code: string)

  /** `res.setHeader(name, value)` in a given phase: it throws once the head is sent. */
  function SetHeader(ex: Exchange, phase: Phase, name: string, value: string): (r: HeaderWrite)
    ensures r.Threw? <==> phase == Finished
    ensures r.Threw? ==> r.code == ERR_HTTP_HEADERS_SENT
    ensures r.Written? ==> r.ex == ex.(headers := ex.headers[name := value])
  {
    if phase == Finished then Threw(ERR_HTTP_HEADERS_SENT)
    else Written(ex.(headers := ex.headers[name := value]))
  }

  /** The `finish` listener of `addTokenRefreshHeaders` as the source registers it: by the
      time it runs the response is finished, so the header write throws. */
  function FinishListenerAsWritten(ex: Exchange): (r: HeaderWrite)
    ensures r.Threw? <==> ex.tokenRefreshed
    ensures r.Written? ==> r.ex == ex
  {
    if ex.tokenRefreshed then SetHeader(ex, Finished, REFRESHED_HEADER, "true") else Written(ex)
  }

  /** The refresh-header rule applied while the response is still being written, so that
      `X-Token-Refreshed: true` reaches the client. */
  function WithRefreshHeader(ex: Exchange): (r: Exchange)
    ensures ex.tokenRefreshed ==> SetHeader(ex, Writing, REFRESHED_HEADER, "true") == Written(r)
    ensures r.req == ex.req && r.user == ex.user && r.tokenRefreshed == ex.tokenRefreshed
    ensures r.setCookies == ex.setCookies
    ensures ex.tokenRefreshed ==> REFRESHED_HEADER in r.headers && r.headers[REFRESHED_HEADER] == "true"
    ensures !ex.tokenRefreshed ==> r.headers == ex.headers
    ensures forall h :: h != REFRESHED_HEADER ==> (h in r.headers <==> h in ex.headers)
  {
    if ex.tokenRefreshed then ex.(headers := ex.headers[REFRESHED_HEADER := "true"]) else ex
  }

  /** The mutable state of the server around one request: the user collection, the
      signing side of the token library, and the request/response being handled. */
  class Gate {
    var users: Users
    var signer: Signer
    var ex: Exchange
    const cfg: Config

    ghost predicate Valid()
      reads this
    {
      signer.Valid()
    }

    /** A request arrives: nothing is attached to it yet. */
    constructor (cfg: Config, users: Users, signer: Signer, req: Request)
      requires signer.Valid()
      ensures Valid()
      ensures this.cfg == cfg && this.users == users && this.signer == signer
      ensures ex == Exchange(req, None, false, [], map[])
    {
      this.cfg := cfg;
      this.users := users;
      this.signer := signer;
      this.ex := Exchange(req, None, false, [], map[]);
    }

    method GenerateAccessAndRefreshTokens(id: UserId, now: int, saveFails: bool)
        returns (r: Result<TokenPair, ApiError>)
      requires Valid()
      modifies this
      ensures Valid() && ex == old(ex)
      ensures match GenerateTokens(old(users), old(signer), cfg, id, now, saveFails)
        case Ok(rot) => r == Ok(rot.pair) && users == rot.users && signer == rot.signer
        case Err(e) => r == Err(e) && users == old(users) && signer == old(signer)
    {
      if id !in users {
        return Err(ApiError(500, MSG_GENERATION));
      }
      var user := users[id];
      var (s1, accessToken) := signer.Issue(Access, id, now, cfg.accessTtl);
      var (s2, refreshToken) := s1.Issue(Refresh, id, now, cfg.refreshTtl);
      user := user.(refreshToken := Some(refreshToken));
      if saveFails {
        return Err(ApiError(500, MSG_GENERATION));
      }
      users := users[id := user];
      signer := s2;
      r := Ok(TokenPair(accessToken, refreshToken));
    }

    method VerifyJwt(now: int, saveFails: bool) returns (outcome: Outcome)
      requires Valid()
      modifies this
      ensures Valid()
      ensures Step(State(users, signer, ex), outcome)
           == VerifyJwtSpec(old(State(users, signer, ex)), cfg, now, saveFails)
    {
      var token := PresentedAccessToken(ex.req);
      if token.None? {
        return Fail(Unauthorized(MSG_UNAUTHORIZED));
      }
      var decoded := signer.Decode(Access, token.value, now);
      if decoded.Verified? {
        if decoded.sub !in users {
          return Fail(Unauthorized(MSG_INVALID_ACCESS));
        }
        ex := ex.(user := Some(WithoutSecrets(users[decoded.sub])));
        return Next;
      }
      if decoded.Malformed? {
        return Fail(Unauthorized(decoded.message));
      }
      outcome := RefreshAccessToken(now, saveFails);
    }

    /** The expired-access branch of `verifyJWT`, performed on the mutable state. */
    method RefreshAccessToken(now: int, saveFails: bool) returns (outcome: Outcome)
      requires Valid()
      modifies this
      ensures Valid()
      ensures Step(State(users, signer, ex), outcome)
           == RefreshSpec(old(State(users, signer, ex)), cfg, now, saveFails)
    {
      var presented := Cookie(ex.req, REFRESH_COOKIE);
      if presented.None? {
        return Fail(Unauthorized(MSG_NO_REFRESH));
      }
      var refreshDecoded := signer.Decode(Refresh, presented.value, now);
      if !refreshDecoded.Verified? {
        return Fail(Unauthorized(MSG_INVALID_REFRESH));
      }
      var sub := refreshDecoded.sub;
      if sub !in users || users[sub].refreshToken != Some(presented.value) {
        return Fail(Unauthorized(MSG_INVALID_REFRESH));
      }
      var generated := GenerateAccessAndRefreshTokens(sub, now, saveFails);
      if generated.Err? {
        return Fail(Unauthorized(MSG_INVALID_REFRESH));
      }
      var pair := generated.value;
      var cookies := [SetCookie(ACCESS_COOKIE, pair.accessToken, AccessCookieOptions(cfg)),
                      SetCookie(REFRESH_COOKIE, pair.refreshToken, RefreshCookieOptions(cfg))];
      ex := ex.(setCookies := ex.setCookies + cookies, user := Some(WithoutSecrets(users[sub])),
                tokenRefreshed := true);
      outcome := Next;
    }

    /** `addTokenRefreshHeaders` with its header written before the response is sent (the
        source's `finish` listener is `FinishListenerAsWritten`). */
    method AddTokenRefreshHeaders()
      modifies this
      ensures ex == WithRefreshHeader(old(ex))
      ensures users == old(users) && signer == old(signer)
    {
      if ex.tokenRefreshed {
        ex := ex.(headers := ex.headers[REFRESHED_HEADER := "true"]);
      }
    }
  }
}
