/**
 * The two request guards of the backend: `userAuth` (any signed-in user)
 * and `adminAuth` (administrators only). Each takes a token from the
 * cookie or the Authorization header, verifies it, loads the user and
 * either rejects the request or passes it on (`next`) with that user.
 * Token verification and the user lookup are parameters.
 */
module AuthMiddleware {
  import opened Wrappers
  import Text
  import opened Models

  /** What `jwt.verify` gives: the decoded user id, or the name of the error it threw. */
  datatype Verdict = Decoded(id: Id) | VerifyFailed(errorName: string)

  /** What `findById` gives: the user, nothing, or the name of the error it threw. */
  datatype Lookup = Found(user: User) | NotFound | LookupFailed(errorName: string)

  /** A rejection with its status and message, or the request passed on once to `next` with the user. */
  datatype AuthOutcome = Rejected(status: int, message: string) | Proceed(user: User)

  const NoToken := "Unauthorized: No token provided"
  const NoUser := "Unauthorized: User not found"
  const BearerPrefix := "Bearer "

  // ------------------------------------------------------------- userAuth

  /**
   * The token `userAuth` uses: the cookie when it is non-empty, otherwise
   * the text after a case-sensitive "Bearer " at the head of the header.
   */
  function UserToken(cookie: Option<string>, authorization: Option<string>): (r: Option<string>)
    ensures Truthy(cookie) ==> r == cookie
    ensures !Truthy(cookie) && r.Some? ==>
              authorization.Some? && authorization.value == BearerPrefix + r.value
    ensures !Truthy(cookie) && Truthy(authorization) && Text.StartsWith(authorization.value, BearerPrefix) ==>
              r.Some?
    ensures !Truthy(cookie) && !(Truthy(authorization) && Text.StartsWith(authorization.value, BearerPrefix)) ==>
              r.None?
  {
    if Truthy(cookie) then cookie
    else if Truthy(authorization) && Text.StartsWith(authorization.value, BearerPrefix) then
      Some(authorization.value[|BearerPrefix|..])
    else None
  }

  /** A header of the form "Bearer <token>" (section 2.1 of RFC 6750) yields the token. */
  lemma BearerHeader(t: string)
    ensures UserToken(None, Some(BearerPrefix + t)) == Some(t)
  {
    var h := BearerPrefix + t;
    assert h[..|BearerPrefix|] == BearerPrefix;
    assert h[|BearerPrefix|..] == t;
  }

  /** The scheme name is matched case-sensitively: a lower-case "bearer " header gives no token. */
  lemma LowerCaseSchemeIgnored(t: string)
    ensures UserToken(None, Some("bearer " + t)) == None
  {
    var h := "bearer " + t;
    assert h[0] == 'b' != BearerPrefix[0];
  }

  /** The catch block: the message chosen by the name of the error thrown. */
  function UserCatchMessage(errorName: string): (r: string)
    ensures errorName == "JsonWebTokenError" <==> r == "Unauthorized: Invalid token"
    ensures errorName == "TokenExpiredError" <==> r == "Unauthorized: Token expired"
    ensures r != "Unauthorized: Invalid token" && r != "Unauthorized: Token expired" ==>
              r == "Unauthorized: Token verification failed"
  {
    if errorName == "JsonWebTokenError" then "Unauthorized: Invalid token"
    else if errorName == "TokenExpiredError" then "Unauthorized: Token expired"
    else "Unauthorized: Token verification failed"
  }

  /** `userAuth`: no token, a failed verification, an unknown user or a failed lookup is a 401. */
  function UserAuth(cookie: Option<string>, authorization: Option<string>,
                    verify: string -> Verdict, findById: Id -> Lookup): (r: AuthOutcome)
    ensures r.Rejected? ==> r.status == 401
    ensures !Truthy(UserToken(cookie, authorization)) ==> r == Rejected(401, NoToken)
    ensures r.Proceed? <==>
              && Truthy(UserToken(cookie, authorization))
              && verify(UserToken(cookie, authorization).value).Decoded?
              && findById(verify(UserToken(cookie, authorization).value).id).Found?
    ensures r.Proceed? ==> findById(verify(UserToken(cookie, authorization).value).id) == Found(r.user)
    ensures Truthy(UserToken(cookie, authorization)) && verify(UserToken(cookie, authorization).value).Decoded?
            && findById(verify(UserToken(cookie, authorization).value).id).NotFound? ==>
              r == Rejected(401, NoUser)
  {
    var token := UserToken(cookie, authorization);
    if !Truthy(token) then Rejected(401, NoToken)
    else match verify(token.value)
      case VerifyFailed(name) => Rejected(401, UserCatchMessage(name))
      case Decoded(id) =>
        match findById(id)
        case LookupFailed(name) => Rejected(401, UserCatchMessage(name))
        case NotFound => Rejected(401, NoUser)
        case Found(u) => Proceed(u)
  }

  /** The header is never consulted when a cookie token is present. */
  lemma CookiePreferred(cookie: Option<string>, h1: Option<string>, h2: Option<string>,
                        verify: string -> Verdict, findById: Id -> Lookup)
    requires Truthy(cookie)
    ensures UserAuth(cookie, h1, verify, findById) == UserAuth(cookie, h2, verify, findById)
  {
  }

  // ------------------------------------------------------------ adminAuth

  /** `authorization?.split(' ')[1]`: the second space-separated field, if any. */
  function SecondField(h: string): (r: Option<string>)
    ensures r.Some? ==> ' ' !in r.value
  {
    var parts := Text.Split(h, ' ');
    if |parts| > 1 then Some(parts[1]) else None
  }

  /** The token `adminAuth` uses: the cookie when non-empty, else the header's second field. */
  function AdminToken(cookie: Option<string>, authorization: Option<string>): (r: Option<string>)
    ensures Truthy(cookie) ==> r == cookie
    ensures !Truthy(cookie) && authorization.None? ==> r.None?
    ensures !Truthy(cookie) && r.Some? ==> ' ' !in r.value
  {
    if Truthy(cookie) then cookie
    else if authorization.Some? then SecondField(authorization.value)
    else None
  }

  /** Any scheme word is accepted: "<scheme> <token>" yields the token, with no check of the scheme. */
  lemma AnySchemeAccepted(scheme: string, t: string)
    requires ' ' !in scheme && ' ' !in t
    ensures AdminToken(None, Some(scheme + " " + t)) == Some(t)
  {
    Text.SplitAfterPiece(scheme, ' ', t);
    Text.SplitNoSep(t, ' ');
    assert scheme + " " + t == scheme + [' '] + t;
  }

  /** A header without a space gives no token. */
  lemma NoSpaceNoToken(h: string)
    requires ' ' !in h
    ensures AdminToken(None, Some(h)) == None
  {
    Text.SplitNoSep(h, ' ');
  }

  /**
   * The two guards read the header differently: on "Bearer <t>" with a
   * space-free token they agree, on a token holding a space `userAuth`
   * keeps all of it and `adminAuth` only its first word, and a non-Bearer
   * scheme is refused by one and accepted by the other.
   */
  lemma HeaderParsingsDiffer(t: string, u: string, scheme: string)
    requires ' ' !in t && ' ' !in u && ' ' !in scheme && scheme != "Bearer"
    ensures UserToken(None, Some(BearerPrefix + t)) == AdminToken(None, Some(BearerPrefix + t)) == Some(t)
    ensures UserToken(None, Some(BearerPrefix + t + " " + u)) == Some(t + " " + u)
    ensures AdminToken(None, Some(BearerPrefix + t + " " + u)) == Some(t)
    ensures AdminToken(None, Some(scheme + " " + t)) == Some(t)
    ensures UserToken(None, Some(scheme + " " + t)) == None
  {
    assert BearerPrefix == "Bearer" + " ";
    BearerHeader(t);
    AnySchemeAccepted("Bearer", t);
    assert BearerPrefix + t + " " + u == BearerPrefix + (t + " " + u);
    BearerHeader(t + " " + u);
    assert BearerPrefix + t + " " + u == "Bearer" + [' '] + (t + [' '] + u);
    Text.SplitAfterPiece("Bearer", ' ', t + [' '] + u);
    Text.SplitAfterPiece(t, ' ', u);
    AnySchemeAccepted(scheme, t);
    OtherSchemeRefused(scheme, t);
  }

  /** A header whose first word is not exactly "Bearer" gives `userAuth` no token. */
  lemma OtherSchemeRefused(scheme: string, t: string)
    requires ' ' !in scheme && scheme != "Bearer"
    ensures UserToken(None, Some(scheme + " " + t)) == None
  {
    var h := scheme + " " + t;
    if |h| >= |BearerPrefix| {
      var k := |scheme|;
      if k < 6 {
        assert h[..7][k] == ' ' != BearerPrefix[k];
      } else if k == 6 {
        assert h[..7][..6] == scheme != BearerPrefix[..6];
      } else {
        assert h[..7][6] == scheme[6] != ' ';
      }
    }
  }

  const NotAdmin := "Forbidden: Admin access required"

  /**
   * `adminAuth`: no token or an unknown user is a 401, a user whose role
   * is not "admin" a 403, and any thrown error a 401 "Invalid token".
   */
  function AdminAuth(cookie: Option<string>, authorization: Option<string>,
                     verify: string -> Verdict, findById: Id -> Lookup): (r: AuthOutcome)
    ensures r.Rejected? ==> r.status == 401 || r.status == 403
    ensures !Truthy(AdminToken(cookie, authorization)) ==> r == Rejected(401, NoToken)
    ensures r.Proceed? ==> r.user.role == AdminRole
    ensures r.Proceed? <==>
              && Truthy(AdminToken(cookie, authorization))
              && verify(AdminToken(cookie, authorization).value).Decoded?
              && findById(verify(AdminToken(cookie, authorization).value).id).Found?
              && findById(verify(AdminToken(cookie, authorization).value).id).user.role == AdminRole
    ensures r == Rejected(403, NotAdmin) <==>
              && Truthy(AdminToken(cookie, authorization))
              && verify(AdminToken(cookie, authorization).value).Decoded?
              && findById(verify(AdminToken(cookie, authorization).value).id).Found?
              && findById(verify(AdminToken(cookie, authorization).value).id).user.role != AdminRole
  {
    var token := AdminToken(cookie, authorization);
    if !Truthy(token) then Rejected(401, NoToken)
    else match verify(token.value)
      case VerifyFailed(name) => Rejected(401, "Unauthorized: Invalid token")
      case Decoded(id) =>
        match findById(id)
        case LookupFailed(name) => Rejected(401, "Unauthorized: Invalid token")
        case NotFound => Rejected(401, NoUser)
        case Found(u) => if u.role != AdminRole then Rejected(403, NotAdmin) else Proceed(u)
  }

  /**
   * With a cookie token, the admin guard is the user guard plus the role
   * check: every request it lets through, the user guard lets through with
   * the same user.
   */
  lemma AdminImpliesUser(cookie: Option<string>, authorization: Option<string>,
                         verify: string -> Verdict, findById: Id -> Lookup)
    requires Truthy(cookie)
    requires AdminAuth(cookie, authorization, verify, findById).Proceed?
    ensures UserAuth(cookie, authorization, verify, findById) == AdminAuth(cookie, authorization, verify, findById)
  {
  }
}
