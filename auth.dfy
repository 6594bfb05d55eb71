/** The access guard that runs before every authenticated handler: it picks
    the access token from the request, verifies it, loads the user it names
    and attaches that user, without its secrets, to the request. */
module Auth {
  import opened Strings
  import opened Users
  import Session
  import Controller

  /** The parts of a request the guard reads: the `accessToken` cookie and
      the `Authorization` header; None is `undefined`. */
  datatype AuthRequest = AuthRequest(accessCookie: Option<string>, authorization: Option<string>)

  /** How the guard ends: `req.user` set to `user` and `next()` called once,
      or rejected with an error and `next` never called. */
  datatype GuardOutcome = Next(user: Document) | Reject(error: ApiError)

  const BearerPrefix := "Bearer "
  const UnauthorizedRequest := "Unauthorized request"
  const InvalidAccessToken := "Invalid Access Token"

  /** `req.cookies?.accessToken || req.header("Authorization")?.replace("Bearer ", "")`. */
  function SelectToken(cookie: Option<string>, authorization: Option<string>): Option<string> {
    if Truthy(cookie) then cookie
    else match authorization
      case None => None
      case Some(h) => Some(ReplaceFirst(h, BearerPrefix, ""))
  }

  /** A non-empty cookie wins over the header; otherwise the header is used
      with its first "Bearer " removed, and a header without one is used as
      it is. */
  lemma SelectTokenPrefersCookie(cookie: Option<string>, authorization: Option<string>)
    ensures Truthy(cookie) ==> SelectToken(cookie, authorization) == cookie
    ensures !Truthy(cookie) && authorization.None? ==> SelectToken(cookie, authorization).None?
    ensures !Truthy(cookie) && authorization.Some? && IndexOf(authorization.value, BearerPrefix).None? ==>
              SelectToken(cookie, authorization) == authorization
    ensures !Truthy(cookie) && authorization.Some? && IndexOf(authorization.value, BearerPrefix).Some? ==>
              var h, i := authorization.value, IndexOf(authorization.value, BearerPrefix).value;
              SelectToken(cookie, authorization) == Some(h[..i] + h[i + |BearerPrefix|..])
  {
    if authorization.Some? {
      ReplaceFirstRemoves(authorization.value, BearerPrefix);
    }
  }

  /** A header "Bearer t" yields the token t when there is no cookie. */
  lemma BearerHeaderYieldsToken(cookie: Option<string>, t: string)
    requires !Truthy(cookie)
    ensures SelectToken(cookie, Some(BearerPrefix + t)) == Some(t)
  {
    ReplaceFirstOfPrefix(BearerPrefix, t);
  }

  /** "Bearer abc" becomes "abc". */
  lemma BearerExample()
    ensures SelectToken(None, Some("Bearer abc")) == Some("abc")
  {
    assert "Bearer abc" == BearerPrefix + "abc";
    BearerHeaderYieldsToken(None, "abc");
  }

  /** The guard `verifyJwt`. `verify` is `jwt.verify` with the access-token
      secret. It only reads the store. */
  method VerifyJwt(store: Controller.UserController, req: AuthRequest, verify: string -> Session.Claim)
    returns (outcome: GuardOutcome)
    ensures var token := SelectToken(req.accessCookie, req.authorization);
      && (outcome.Next? <==>
            Truthy(token) && verify(token.value).Verified? && verify(token.value).id in store.users)
      && (outcome.Next? ==>
            var id := verify(token.value).id;
            outcome.user == WithoutSecrets(id, store.users[id]))
      && (outcome.Reject? ==> outcome.error.statusCode == 401)
      && (!Truthy(token) ==> outcome == Reject(ApiError(401, UnauthorizedRequest)))
  {
    var token := SelectToken(req.accessCookie, req.authorization);
    if !Truthy(token) {
      return Reject(ApiError(401, UnauthorizedRequest));
    }
    var decoded := verify(token.value);
    if decoded.Rejected? {
      // the catch rethrows every error as a 401 with its message
      return Reject(ApiError(401, if decoded.message == "" then InvalidAccessToken else decoded.message));
    }
    var user := store.FindById(decoded.id);
    if user.None? {
      return Reject(ApiError(401, InvalidAccessToken));
    }
    return Next(WithoutSecrets(decoded.id, user.value));
  }
}
