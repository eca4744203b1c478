/** The request guards: `authenticate` picks the access token from the
    Authorization header or the `token` cookie, verifies it and attaches the
    payload to the request; `authorize` checks the attached role. */
module AuthMiddleware {
  import opened Wrappers
  import opened Types
  import opened JsStrings

  const Bearer: string := "Bearer "

  /** A header token is used unless it is empty or one of the strings a
      client writes when it has no token. */
  predicate Acceptable(t: string) {
    t != "" && t != "undefined" && t != "null"
  }

  /** The token the Authorization header offers: the header must start with
      "Bearer ", the token is the second space-separated piece, and it is
      taken only when acceptable. */
  function HeaderToken(authorization: Option<string>): (t: Option<string>)
    ensures t.Some? ==> authorization.Some? && StartsWith(authorization.value, Bearer)
    ensures t.Some? ==> Acceptable(t.value) && ' ' !in t.value
  {
    if authorization.Some? && StartsWith(authorization.value, Bearer) then
      var h := authorization.value;
      assert h == "Bearer" + h[6..];
      SplitHead("Bearer", h[6..], {' '});
      var piece := Split(h, {' '})[1];
      if Acceptable(piece) then Some(piece) else None
    else None
  }

  /** `Bearer <token>`, possibly followed by more space-separated text, offers
      exactly `<token>` when it is acceptable, and nothing otherwise. */
  lemma {:induction false} BearerHeaderRoundTrip(token: string, rest: string)
    requires ' ' !in token
    requires rest == [] || rest[0] == ' '
    ensures HeaderToken(Some(Bearer + token + rest)) == if Acceptable(token) then Some(token) else None
  {
    var h := Bearer + token + rest;
    assert h == "Bearer" + h[6..];
    assert h[6..] == " " + token + rest;
    SplitHead("Bearer", h[6..], {' '});
    assert h[6..][1..] == token + rest;
    SplitHead(token, rest, {' '});
  }

  /** The token authenticate verifies: the header's when acceptable,
      otherwise a truthy `token` cookie, otherwise none. */
  function SelectToken(authorization: Option<string>, cookie: Option<string>): (t: Option<string>)
    ensures HeaderToken(authorization).Some? ==> t == HeaderToken(authorization)
    ensures HeaderToken(authorization).None? ==> t == (if TruthyString(cookie) then cookie else None)
    ensures t.Some? ==> t.value != ""
  {
    var fromHeader := HeaderToken(authorization);
    if fromHeader.Some? then fromHeader
    else if TruthyString(cookie) then cookie
    else None
  }

  /** A header whose token is "undefined" or "null" falls back to the cookie. */
  lemma PlaceholderFallsBackToCookie(placeholder: string, cookie: Option<string>)
    requires placeholder == "undefined" || placeholder == "null"
    ensures SelectToken(Some(Bearer + placeholder), cookie) == (if TruthyString(cookie) then cookie else None)
  {
    BearerHeaderRoundTrip(placeholder, []);
    assert Bearer + placeholder + [] == Bearer + placeholder;
  }

  /** What `jwt.verify(token, JWT_SECRET)` does with a token string: decode
      it, throw a JsonWebTokenError (bad signature, malformed, expired), or
      throw some other error. */
  datatype VerifyOutcome = Decoded(payload: Payload) | JsonWebTokenError | OtherError(error: Error)

  /** The parts of an Express request the guards read and write. */
  class Request {
    const authorization: Option<string>
    const cookieToken: Option<string>
    var user: Option<Payload>

    constructor(authorization: Option<string>, cookieToken: Option<string>)
      ensures this.authorization == authorization && this.cookieToken == cookieToken
      ensures user.None?
    {
      this.authorization := authorization;
      this.cookieToken := cookieToken;
      user := None;
    }
  }

  /** authenticate: returns what `next` is called with (None for `next()`).
      With no token it is 401 "Access token required"; a token the library
      rejects is 401 "Invalid or expired token"; any other error is passed on
      unchanged; a decoded token sets `req.user` to its payload. `req.user`
      is written only on success. */
  method Authenticate(req: Request, verify: string -> VerifyOutcome) returns (next: Option<Error>)
    modifies req
    ensures var t := SelectToken(req.authorization, req.cookieToken);
      && (t.None? ==> next == Some(ApiError(401, AccessTokenRequired)) && req.user == old(req.user))
      && (t.Some? ==> match verify(t.value)
            case Decoded(p) => next.None? && req.user == Some(p)
            case JsonWebTokenError => next == Some(ApiError(401, InvalidToken)) && req.user == old(req.user)
            case OtherError(e) => next == Some(e) && req.user == old(req.user))
  {
    var token := SelectToken(req.authorization, req.cookieToken);
    if token.None? {
      return Some(ApiError(401, AccessTokenRequired));
    }
    match verify(token.value)
    case Decoded(p) =>
      req.user := Some(p);
      next := None;
    case JsonWebTokenError =>
      next := Some(ApiError(401, InvalidToken));
    case OtherError(e) =>
      next := Some(e);
  }

  /** authorize(...roles): 401 without an authenticated user, 403 when the
      user's role is not among `roles`, otherwise `next()`. */
  function Authorize(user: Option<Payload>, roles: seq<Role>): (next: Option<Error>)
    ensures next.None? <==> user.Some? && user.value.role in roles
    ensures user.None? ==> next == Some(ApiError(401, NotAuthenticated))
    ensures user.Some? && user.value.role !in roles ==> next == Some(ApiError(403, InsufficientPermissions))
  {
    if user.None? then Some(ApiError(401, NotAuthenticated))
    else if user.value.role !in roles then Some(ApiError(403, InsufficientPermissions))
    else None
  }

  /** Allowing more roles never turns a pass into a refusal. */
  lemma AuthorizeMonotone(user: Option<Payload>, roles: seq<Role>, more: seq<Role>)
    requires forall r :: r in roles ==> r in more
    requires Authorize(user, roles).None?
    ensures Authorize(user, more).None?
  {
  }
}
