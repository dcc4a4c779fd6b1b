/** backend/api/helpers/security_helper.py: issuing and checking JSON Web
    Tokens, and the three request guards (`jwt_required`, `admin_required`,
    `creator_required`) that decide whether a route handler runs.

    The signing library is a parameter: `encode` signs a claim set (or fails,
    for instance when the secret key is not configured), and `decode` tells
    what checking a token against the secret and the current time gives. The
    handler is a parameter too: what running it would produce. */
module Security {

  import opened Outcomes
  import opened Text
  import opened Tables

  /** The claim set of a token. `role` and `user_id` are whatever the token
      carries; `None` is a missing claim. Times are seconds. */
  datatype Claims = Claims(role: Option<string>, userId: Option<Id>, exp: int, iat: int)

  /** What `jwt.decode` makes of a token. */
  datatype Decoded = Verified(claims: Claims) | ExpiredSignature | InvalidToken

  /** What running the wrapped route handler would do. */
  datatype HandlerOutcome = Returns(body: string) | RaisesValueError(message: string) | RaisesOther(message: string)

  /** What the guarded route answers: the handler's own response, a JSON error
      `{"status": "error", "message": ...}` with an HTTP status, or an
      exception that escapes the guard. */
  datatype Response = Handled(body: string) | Rejected(status: nat, message: string) | Raised(message: string)

  /** A token lives one hour. */
  const TokenLifetime: int := 3600

  const MissingHeader: string := "Authorization header missing"
  const Expired: string := "Token expired. Please log in again"
  const Invalid: string := "Invalid token"

  // ---------------------------------------------------------------------
  // generate_jwt, verify_jwt

  /** `generate_jwt(user_id, role)` at time `now`. */
  function GenerateJwt(userId: Id, role: string, now: int, encode: Claims -> Option<string>): (r: Result<string>)
    ensures r.Ok? <==> encode(Claims(Some(role), Some(userId), now + TokenLifetime, now)).Some?
    ensures r.Ok? ==> r.value == encode(Claims(Some(role), Some(userId), now + TokenLifetime, now)).value
    ensures r.Err? ==> r.error == RuntimeError("Failed to generate JWT: ")
  {
    var claims := Claims(Some(role), Some(userId), now + TokenLifetime, now);
    match encode(claims)
    case Some(token) => Ok(token)
    case None => Err(RuntimeError("Failed to generate JWT: "))
  }

  /** `verify_jwt(token)`: the claims, or a ValueError naming the reason. */
  function VerifyJwt(decode: string -> Decoded, token: string): (r: Result<Claims>)
    ensures r.Ok? <==> decode(token).Verified?
    ensures r.Ok? ==> r.value == decode(token).claims
    ensures decode(token) == ExpiredSignature ==> r == Err(ValueError(Expired))
    ensures decode(token) == InvalidToken ==> r == Err(ValueError(Invalid))
  {
    match decode(token)
    case Verified(claims) => Ok(claims)
    case ExpiredSignature => Err(ValueError(Expired))
    case InvalidToken => Err(ValueError(Invalid))
  }

  // ---------------------------------------------------------------------
  // The Authorization header

  const Bearer: string := "Bearer "

  /** The header is present, non-empty and starts with "Bearer ". */
  predicate HasBearer(header: Option<string>) {
    header.Some? && |header.value| >= |Bearer| && header.value[..|Bearer|] == Bearer
  }

  /** `auth_header.split(" ")[1]`, once the header passed the check. */
  function BearerToken(header: Option<string>): (token: Option<string>)
    ensures token.Some? <==> HasBearer(header)
    ensures token.Some? ==> ' ' !in token.value
    ensures token.Some? ==> token.value == Split(header.value[|Bearer|..], ' ')[0]
  {
    if !HasBearer(header) then None
    else
      var h := header.value;
      assert h == "Bearer" + [' '] + h[|Bearer|..];
      SplitAfterWord("Bearer", h[|Bearer|..], ' ');
      SplitPieces(h[|Bearer|..], ' ');
      Some(Split(h, ' ')[1])
  }

  /** The header a client builds from a token is read back as that token. */
  lemma BearerTokenRoundTrip(token: string)
    requires ' ' !in token
    ensures BearerToken(Some(Bearer + token)) == Some(token)
  {
    assert (Bearer + token)[|Bearer|..] == token;
    SplitNoSeparator(token, ' ');
  }

  /** Anything after a further space is ignored. */
  lemma BearerTokenStopsAtSpace(token: string, trailer: string)
    requires ' ' !in token
    ensures BearerToken(Some(Bearer + token + " " + trailer)) == Some(token)
  {
    var h := Bearer + token + " " + trailer;
    assert h[|Bearer|..] == token + [' '] + trailer;
    SplitAfterWord(token, trailer, ' ');
  }

  // ---------------------------------------------------------------------
  // The guards

  /** The handler's outcome once the guard let the request through: a
      ValueError it raises is answered like a bad token, with 401. */
  function RunHandler(h: HandlerOutcome): (r: Response)
    ensures h.Returns? ==> r == Handled(h.body)
    ensures h.RaisesValueError? ==> r == Rejected(401, h.message)
    ensures h.RaisesOther? ==> r == Raised(h.message)
  {
    match h
    case Returns(body) => Handled(body)
    case RaisesValueError(m) => Rejected(401, m)
    case RaisesOther(m) => Raised(m)
  }

  /** `jwt_required(f)`: the handler runs with the token's `user_id`. */
  function JwtRequired(header: Option<string>, decode: string -> Decoded, handler: Id -> HandlerOutcome): (r: Response)
    ensures !HasBearer(header) ==> r == Rejected(401, MissingHeader)
    ensures HasBearer(header) && decode(BearerToken(header).value) == ExpiredSignature ==> r == Rejected(401, Expired)
    ensures HasBearer(header) && decode(BearerToken(header).value) == InvalidToken ==> r == Rejected(401, Invalid)
    // the handler's response is served only for a verified token, with its user id
    ensures r.Handled? ==>
      (&& HasBearer(header) && decode(BearerToken(header).value).Verified?
       && decode(BearerToken(header).value).claims.userId.Some?
       && handler(decode(BearerToken(header).value).claims.userId.value) == Returns(r.body))
    // a verified token without a user id raises KeyError out of the guard
    ensures (&& HasBearer(header) && decode(BearerToken(header).value).Verified?
             && decode(BearerToken(header).value).claims.userId.None?) ==> r == Raised("KeyError: 'user_id'")
  {
    match BearerToken(header)
    case None => Rejected(401, MissingHeader)
    case Some(token) =>
      match VerifyJwt(decode, token)
      case Err(e) => Rejected(401, e.message)
      case Ok(claims) =>
        match claims.userId
        case None => Raised("KeyError: 'user_id'")
        case Some(userId) => RunHandler(handler(userId))
  }

  /** The logged-in session user, when the session layer is available. `role`
      is the text the role converts to. */
  datatype SessionUser = SessionUser(isAuthenticated: bool, role: string)

  /** The session user passes `str(role).lower() == wanted`. */
  predicate SessionGrants(session: Option<SessionUser>, wanted: string) {
    session.Some? && session.value.isAuthenticated && Lower(session.value.role) == wanted
  }

  /** The shared body of `admin_required` and `creator_required`: a session
      user with the wanted role goes straight to the handler; if that handler
      raises, the exception is swallowed and the token path below runs (and
      the handler with it, once more). */
  function RoleRequired(wanted: string, denial: string, session: Option<SessionUser>, header: Option<string>,
                        decode: string -> Decoded, handler: HandlerOutcome): (r: Response)
    ensures SessionGrants(session, wanted) && handler.Returns? ==> r == Handled(handler.body)
    ensures !SessionGrants(session, wanted) && !HasBearer(header) ==> r == Rejected(401, MissingHeader)
    ensures !(SessionGrants(session, wanted) && handler.Returns?) && HasBearer(header) ==>
      match decode(BearerToken(header).value)
      case ExpiredSignature => r == Rejected(401, Expired)
      case InvalidToken => r == Rejected(401, Invalid)
      case Verified(claims) => r == (if claims.role != Some(wanted) then Rejected(403, denial) else RunHandler(handler))
    // the handler's response is served only to a matching session user or a
    // verified token claiming the wanted role
    ensures r.Handled? ==>
      (&& handler == Returns(r.body)
       && (|| SessionGrants(session, wanted)
           || (&& HasBearer(header) && decode(BearerToken(header).value).Verified?
               && decode(BearerToken(header).value).claims.role == Some(wanted))))
  {
    if SessionGrants(session, wanted) && handler.Returns? then Handled(handler.body)
    else
      match BearerToken(header)
      case None => Rejected(401, MissingHeader)
      case Some(token) =>
        match VerifyJwt(decode, token)
        case Err(e) => Rejected(401, e.message)
        case Ok(claims) =>
          if claims.role != Some(wanted) then Rejected(403, denial)
          else RunHandler(handler)
  }

  /** `admin_required(f)`. */
  function AdminRequired(session: Option<SessionUser>, header: Option<string>, decode: string -> Decoded, handler: HandlerOutcome): (r: Response)
    ensures SessionGrants(session, "admin") && handler.Returns? ==> r == Handled(handler.body)
    ensures !SessionGrants(session, "admin") && !HasBearer(header) ==> r == Rejected(401, MissingHeader)
    ensures r.Handled? ==>
      (&& handler == Returns(r.body)
       && (|| SessionGrants(session, "admin")
           || (&& HasBearer(header) && decode(BearerToken(header).value).Verified?
               && decode(BearerToken(header).value).claims.role == Some("admin"))))
  {
    RoleRequired("admin", "Admins only", session, header, decode, handler)
  }

  /** `creator_required(f)`. */
  function CreatorRequired(session: Option<SessionUser>, header: Option<string>, decode: string -> Decoded, handler: HandlerOutcome): (r: Response)
    ensures SessionGrants(session, "creator") && handler.Returns? ==> r == Handled(handler.body)
    ensures !SessionGrants(session, "creator") && !HasBearer(header) ==> r == Rejected(401, MissingHeader)
    ensures r.Handled? ==>
      (&& handler == Returns(r.body)
       && (|| SessionGrants(session, "creator")
           || (&& HasBearer(header) && decode(BearerToken(header).value).Verified?
               && decode(BearerToken(header).value).claims.role == Some("creator"))))
  {
    RoleRequired("creator", "Creators only", session, header, decode, handler)
  }

  // ---------------------------------------------------------------------
  // Issued tokens and the guards

  /** The signing library inverts itself on this claim set: the token decodes
      to the claims it was made from (the token has not expired yet). */
  ghost predicate DecodesBack(encode: Claims -> Option<string>, decode: string -> Decoded, c: Claims) {
    encode(c).Some? && ' ' !in encode(c).value && decode(encode(c).value) == Verified(c)
  }

  /** A token returned by `generate_jwt`, presented as a bearer token, runs
      the handler of a `jwt_required` route with the user id it was issued for. */
  lemma IssuedTokenPassesJwtRequired(userId: Id, role: string, now: int, encode: Claims -> Option<string>,
                                     decode: string -> Decoded, handler: Id -> HandlerOutcome)
    requires DecodesBack(encode, decode, Claims(Some(role), Some(userId), now + TokenLifetime, now))
    ensures GenerateJwt(userId, role, now, encode).Ok?
    ensures JwtRequired(Some(Bearer + GenerateJwt(userId, role, now, encode).value), decode, handler)
      == RunHandler(handler(userId))
  {
    BearerTokenRoundTrip(GenerateJwt(userId, role, now, encode).value);
  }

  /** Such a token opens an admin route exactly when it was issued for the
      role "admin"; otherwise the answer is 403 "Admins only". */
  lemma IssuedTokenAtAdminRoute(userId: Id, role: string, now: int, encode: Claims -> Option<string>,
                                decode: string -> Decoded, handler: HandlerOutcome)
    requires DecodesBack(encode, decode, Claims(Some(role), Some(userId), now + TokenLifetime, now))
    ensures GenerateJwt(userId, role, now, encode).Ok?
    ensures AdminRequired(None, Some(Bearer + GenerateJwt(userId, role, now, encode).value), decode, handler)
      == if role == "admin" then RunHandler(handler) else Rejected(403, "Admins only")
  {
    BearerTokenRoundTrip(GenerateJwt(userId, role, now, encode).value);
  }

  /** A creator's token does not open an admin route, and an admin's token
      does not open a creator route: the role claim must match exactly. */
  lemma RolesDoNotCross(header: Option<string>, decode: string -> Decoded, handler: HandlerOutcome)
    requires HasBearer(header) && decode(BearerToken(header).value).Verified?
    ensures decode(BearerToken(header).value).claims.role == Some("creator") ==>
      AdminRequired(None, header, decode, handler) == Rejected(403, "Admins only")
    ensures decode(BearerToken(header).value).claims.role == Some("admin") ==>
      CreatorRequired(None, header, decode, handler) == Rejected(403, "Creators only")
  {
  }

  /** The session check folds case ("Admin" passes), the token check does
      not: a token claiming "Admin" is refused. */
  lemma SessionFoldsCaseTokenDoesNot(header: Option<string>, decode: string -> Decoded, body: string)
    requires HasBearer(header) && decode(BearerToken(header).value) == Verified(Claims(Some("Admin"), None, 0, 0))
    ensures AdminRequired(Some(SessionUser(true, "Admin")), None, decode, Returns(body)) == Handled(body)
    ensures AdminRequired(None, header, decode, Returns(body)) == Rejected(403, "Admins only")
  {
    assert Lower("Admin") == "admin";
  }

  /** A session user whose handler raises is not served by the session path:
      without a bearer header the guard answers 401. */
  lemma SessionHandlerFailureFallsThrough(message: string)
    ensures AdminRequired(Some(SessionUser(true, "admin")), None, (t: string) => InvalidToken, RaisesOther(message))
      == Rejected(401, MissingHeader)
  {
  }
}
