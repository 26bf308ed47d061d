/** `verifyJWT` of `src/middlewares/auth.middleware.ts`: find the access token in the
    `accessToken` cookie or the `Authorization` header, verify it, load the user it names,
    attach that user to the request and pass control on. */
module Auth {
  import opened Common
  import opened Accounts

  const BearerPrefix := "Bearer "
  const UnauthorizedMessage := "Unauthorized request"
  const InvalidAccessMessage := "Invalid Access Token!"

  /** `req.cookies?.accessToken || req.header("Authorization")?.replace("Bearer ", "")`:
      the cookie when it is a non-empty string, otherwise the header with the first
      occurrence of "Bearer " removed (wherever it is), otherwise nothing. */
  function ExtractToken(cookies: Cookies, authorization: Option<string>): (t: Option<string>)
    ensures cookies.CookieJar? && Present(cookies.accessToken) ==> t == cookies.accessToken
    ensures !(cookies.CookieJar? && Present(cookies.accessToken)) ==>
      (t.Some? <==> authorization.Some?)
  {
    if cookies.CookieJar? && Present(cookies.accessToken) then cookies.accessToken
    else if authorization.None? then None
    else Some(ReplaceFirst(authorization.value, BearerPrefix, ""))
  }

  /** The outcome of the middleware: the authenticated user, or what it throws. */
  function Authenticate(accounts: seq<Account>, crypto: Crypto, cookies: Cookies,
                        authorization: Option<string>): Result<Account>
  {
    var token := ExtractToken(cookies, authorization);
    if !Present(token) then Fail(ApiError(401, UnauthorizedMessage))
    else match crypto.verifyAccess(token.value)
      case VerifyError(name, message) => Fail(Fault(name, message))
      case Claims(id) =>
        if id.None? || FindById(accounts, id.value).None? then Fail(ApiError(401, InvalidAccessMessage))
        else Ok(accounts[FindById(accounts, id.value).value])
  }

  /** The middleware on a request: on success `req.user` is set and `next()` is called once;
      on failure `asyncHandler` passes what was thrown to `next` and `req.user` is left as it
      was. */
  method VerifyJWT(req: Request, accounts: seq<Account>, crypto: Crypto, cookies: Cookies,
                   authorization: Option<string>)
    modifies req
    ensures var r := Authenticate(accounts, crypto, cookies, authorization);
      && (r.Ok? ==> req.user == Some(r.value) && req.nextCalls == old(req.nextCalls) + [None])
      && (r.Fail? ==> req.user == old(req.user) && req.nextCalls == old(req.nextCalls) + [Some(r.thrown)])
  {
    var token := ExtractToken(cookies, authorization);
    if !Present(token) {
      req.nextCalls := req.nextCalls + [Some(ApiError(401, UnauthorizedMessage))];
      return;
    }
    var decoded := crypto.verifyAccess(token.value);
    if decoded.VerifyError? {
      req.nextCalls := req.nextCalls + [Some(Fault(decoded.name, decoded.message))];
      return;
    }
    if decoded.id.None? {
      req.nextCalls := req.nextCalls + [Some(ApiError(401, InvalidAccessMessage))];
      return;
    }
    var found := FindById(accounts, decoded.id.value);
    if found.None? {
      req.nextCalls := req.nextCalls + [Some(ApiError(401, InvalidAccessMessage))];
      return;
    }
    req.user := Some(accounts[found.value]);
    req.nextCalls := req.nextCalls + [None];
  }

  /** A request is authenticated exactly when a non-empty token is found, it verifies under
      the access secret to claims with an `_id`, and a user with that id exists; the user
      attached is that one. No token is 401 "Unauthorized request", verification errors reach
      the error handler unchanged, and claims naming no user are 401 "Invalid Access Token!". */
  lemma AuthenticateOutcomes(accounts: seq<Account>, crypto: Crypto, cookies: Cookies, authorization: Option<string>)
    ensures var token := ExtractToken(cookies, authorization);
      var r := Authenticate(accounts, crypto, cookies, authorization);
      && (r.Ok? <==>
            Present(token) && crypto.verifyAccess(token.value).Claims? &&
            crypto.verifyAccess(token.value).id.Some? &&
            FindById(accounts, crypto.verifyAccess(token.value).id.value).Some?)
      && (r.Ok? ==> r.value.id == crypto.verifyAccess(token.value).id.value && r.value in accounts)
      && (!Present(token) ==> r == Fail(ApiError(401, UnauthorizedMessage)))
      && (Present(token) && crypto.verifyAccess(token.value).VerifyError? ==>
            r == Fail(Fault(crypto.verifyAccess(token.value).name, crypto.verifyAccess(token.value).message)))
      && (Present(token) && crypto.verifyAccess(token.value).Claims? &&
          (crypto.verifyAccess(token.value).id.None? ||
           FindById(accounts, crypto.verifyAccess(token.value).id.value).None?) ==>
            r == Fail(ApiError(401, InvalidAccessMessage)))
  {
  }

  /** With no usable cookie, a header "Bearer <t>" yields exactly `t`. */
  lemma BearerHeaderYieldsToken(cookies: Cookies, t: string)
    requires !(cookies.CookieJar? && Present(cookies.accessToken))
    ensures ExtractToken(cookies, Some(BearerPrefix + t)) == Some(t)
  {
    var h := BearerPrefix + t;
    assert h[..|BearerPrefix|] == BearerPrefix;
    ReplaceFirstPrefix(h, BearerPrefix);
    assert h[|BearerPrefix|..] == t;
  }

  /** The header "Bearer " alone leaves the empty string, which is rejected like a missing
      token. */
  lemma BareBearerIsUnauthorized(accounts: seq<Account>, crypto: Crypto, cookies: Cookies)
    requires !(cookies.CookieJar? && Present(cookies.accessToken))
    ensures Authenticate(accounts, crypto, cookies, Some(BearerPrefix)) == Fail(ApiError(401, UnauthorizedMessage))
  {
    BearerHeaderYieldsToken(cookies, "");
    assert BearerPrefix + "" == BearerPrefix;
  }

  /** A header without "Bearer " is taken whole as the token. */
  lemma HeaderWithoutPrefixIsTheToken(cookies: Cookies, h: string)
    requires !(cookies.CookieJar? && Present(cookies.accessToken))
    requires !Includes(h, BearerPrefix)
    ensures ExtractToken(cookies, Some(h)) == Some(h)
  {
  }

  /** `replace` is not anchored: "Bearer " is removed from the middle of a header too, and
      the text before it stays in the token. */
  lemma ReplaceIsUnanchored(cookies: Cookies, before: string, t: string)
    requires !(cookies.CookieJar? && Present(cookies.accessToken))
    requires !Includes(before + "B", BearerPrefix)
    ensures ExtractToken(cookies, Some(before + BearerPrefix + t)) == Some(before + t)
  {
    var h := before + BearerPrefix + t;
    assert OccursAt(h, BearerPrefix, |before|) by {
      assert h[|before|..|before| + |BearerPrefix|] == BearerPrefix;
    }
    var b := before + "B";
    forall j | 0 <= j < |before| ensures !OccursAt(h, BearerPrefix, j) {
      if j + |BearerPrefix| <= |b| {
        assert !OccursAt(b, BearerPrefix, j);
        assert b[j..j + |BearerPrefix|] == h[j..j + |BearerPrefix|];
      } else {
        var d := |before| - j;
        assert h[j + d] == 'B' && BearerPrefix[d] != 'B';
        assert j + |BearerPrefix| <= |h| ==> h[j..j + |BearerPrefix|][d] != BearerPrefix[d];
      }
    }
    assert IndexOf(h, BearerPrefix) == Some(|before|);
    assert h[..|before|] == before;
    assert h[|before| + |BearerPrefix|..] == t;
    assert ReplaceFirst(h, BearerPrefix, "") == before + "" + t;
    assert before + "" + t == before + t;
  }
}
