/** The earlier JavaScript versions of the account handlers, `src/controllers/users.controller.js`.
    They differ from the TypeScript ones in validation (no password-length checks), in the
    error mapping of token generation and refresh, and in how refresh finds its token. */
module UsersLegacy {
  import opened Common
  import opened Accounts
  import Email
  import UC = UsersController

  const GenerateFailure := "Unable to generate refresh and access token !"

  // ---------------------------------------------------------------------------
  // generateAccessAndRefreshToken (users.controller.js:8-21)

  /** Every failure, including a missing user (`user.generateAccessToken` on `null`), is
      reported with the same 500. */
  function GenerateStep(accounts: seq<Account>, userId: UserId, signing: Signing): UC.Step<TokenPair>
  {
    match FindById(accounts, userId)
    case None => UC.Step(Fail(ApiError(500, GenerateFailure)), accounts)
    case Some(i) =>
      match signing
      case SigningFailed(_) => UC.Step(Fail(ApiError(500, GenerateFailure)), accounts)
      case Signed(access, refresh) =>
        UC.Step(Ok(TokenPair(access, refresh)), WithRefreshToken(accounts, i, Some(refresh)))
  }

  method GenerateAccessAndRefreshToken(store: UserStore, userId: UserId, signing: Signing)
    returns (r: Result<TokenPair>)
    requires store.Valid()
    modifies store
    ensures store.Valid()
    ensures UC.Step(r, store.accounts) == GenerateStep(old(store.accounts), userId, signing)
  {
    var found := FindById(store.accounts, userId);
    if found.None? || signing.SigningFailed? {
      return Fail(ApiError(500, GenerateFailure));
    }
    store.SetRefreshToken(found.value, Some(signing.refresh));
    r := Ok(TokenPair(signing.access, signing.refresh));
  }

  /** The legacy generator succeeds exactly when the TypeScript one does, with the same
      tokens and the same stored state; its failures all carry the one fixed message. */
  lemma GenerateAgreesWithTypeScript(accounts: seq<Account>, userId: UserId, signing: Signing)
    requires UniqueIds(accounts)
    ensures var st := GenerateStep(accounts, userId, signing);
      var ts := UC.GenerateStep(accounts, userId, signing);
      && st.accounts == ts.accounts
      && (st.result.Ok? <==> ts.result.Ok?)
      && (st.result.Ok? ==> st.result == ts.result && StoredToken(st.accounts, userId) == Some(st.result.value.refreshToken))
      && (st.result.Fail? ==> st.result == Fail(ApiError(500, GenerateFailure)))
  {
    UC.GenerateStoresReturnedToken(accounts, userId, signing);
  }

  // ---------------------------------------------------------------------------
  // registerUser, validation steps (users.controller.js:36-72)

  /** The checks before the upload: blank fields, e-mail format, existing user, avatar. There
      is no password-length check. */
  function RegisterChecks(body: UC.RegisterBody, accounts: seq<Account>, avatarPath: Option<string>): Result<()>
  {
    if UC.Blank(body.fullName) || UC.Blank(body.email) || UC.Blank(body.username) || UC.Blank(body.password) then
      Fail(ApiError(400, UC.FieldRequiredMessage))
    else if body.email.None? then Fail(ReadOfUndefined("toLowerCase"))
    else if !Email.EmailAccepted(body.email.value) then Fail(ApiError(400, UC.EmailFormatMessage))
    else if UC.Taken(accounts, body.username, body.email) then Fail(ApiError(409, UC.UserExistsMessage))
    else if !Present(avatarPath) then Fail(ApiError(400, UC.AvatarRequiredMessage))
    else Ok(())
  }

  /** With a password of 8 to 16 characters the two versions decide alike; with any other
      password that is sent and not blank, the TypeScript version answers 400 while the
      legacy one goes on as if the password were fine. */
  lemma RegisterDiffersOnlyInPasswordLength(body: UC.RegisterBody, accounts: seq<Account>, avatarPath: Option<string>)
    ensures body.password.Some? && UC.PasswordLengthOk(body.password.value) ==>
      RegisterChecks(body, accounts, avatarPath) == UC.RegisterChecks(body, accounts, avatarPath)
    ensures body.password.Some? && !UC.PasswordLengthOk(body.password.value) &&
            !UC.Blank(body.fullName) && !UC.Blank(body.email) && !UC.Blank(body.username) && !UC.Blank(body.password) ==>
      UC.RegisterChecks(body, accounts, avatarPath) == Fail(ApiError(400, UC.PasswordLengthMessage))
  {
  }

  /** The legacy checks never look at the password's length: any two passwords that are not
      blank, sent or not, get the same answer for the same request. */
  lemma RegisterIgnoresPassword(body: UC.RegisterBody, accounts: seq<Account>, avatarPath: Option<string>,
                                p: Option<string>, q: Option<string>)
    requires !UC.Blank(p) && !UC.Blank(q)
    ensures RegisterChecks(body.(password := p), accounts, avatarPath) ==
            RegisterChecks(body.(password := q), accounts, avatarPath)
  {
  }

  /** A one-character password passes the legacy checks for an otherwise acceptable request. */
  lemma RegisterAcceptsShortPassword(body: UC.RegisterBody, accounts: seq<Account>, avatarPath: Option<string>)
    requires body.password == Some("x")
    requires !UC.Blank(body.fullName) && !UC.Blank(body.username)
    requires body.email.Some? && Email.MatchesPattern(body.email.value)
    requires !UC.Taken(accounts, body.username, body.email) && Present(avatarPath)
    ensures RegisterChecks(body, accounts, avatarPath).Ok?
    ensures UC.RegisterChecks(body, accounts, avatarPath) == Fail(ApiError(400, UC.PasswordLengthMessage))
  {
    UC.MatchingEmailNotBlank(body.email.value);
    TrimEmptyIff("x");
    assert !UC.Blank(body.password);
    assert !UC.PasswordLengthOk(body.password.value);
    assert Email.EmailAccepted(body.email.value);
  }

  // ---------------------------------------------------------------------------
  // loginUser (users.controller.js:121-160)

  function LoginStep(accounts: seq<Account>, crypto: Crypto, email: Option<string>, password: string,
                     signing: Signing): UC.Step<UC.LoginResponse>
  {
    match UC.FindLoginUser(accounts, email)
    case None => UC.Step(Fail(ApiError(404, UC.NoUserMessage)), accounts)
    case Some(i) =>
      if !crypto.passwordMatches(accounts[i].password, password) then
        UC.Step(Fail(ApiError(401, UC.WrongPasswordMessage)), accounts)
      else
        var gen := GenerateStep(accounts, accounts[i].id, signing);
        match gen.result
        case Fail(e) => UC.Step(Fail(e), gen.accounts)
        case Ok(pair) =>
          UC.Step(Ok(UC.LoginResponse(accounts[i].id, pair.accessToken, pair.accessToken, pair.refreshToken)),
                  gen.accounts)
  }

  method LoginUser(store: UserStore, crypto: Crypto, email: Option<string>, password: string, signing: Signing)
    returns (r: Result<UC.LoginResponse>)
    requires store.Valid()
    modifies store
    ensures store.Valid()
    ensures UC.Step(r, store.accounts) == LoginStep(old(store.accounts), crypto, email, password, signing)
  {
    var found := UC.FindLoginUser(store.accounts, email);
    if found.None? {
      return Fail(ApiError(404, UC.NoUserMessage));
    }
    var user := store.accounts[found.value];
    if !crypto.passwordMatches(user.password, password) {
      return Fail(ApiError(401, UC.WrongPasswordMessage));
    }
    var tokens := GenerateAccessAndRefreshToken(store, user.id, signing);
    match tokens {
      case Fail(e) => r := Fail(e);
      case Ok(pair) => r := Ok(UC.LoginResponse(user.id, pair.accessToken, pair.accessToken, pair.refreshToken));
    }
  }

  /** Unknown e-mail is 404 and a wrong password 401, whatever the password's length; a
      success stores the returned refresh token on that user and touches nothing else. */
  lemma LoginOutcomes(accounts: seq<Account>, crypto: Crypto, email: Option<string>, password: string,
                      signing: Signing)
    requires UniqueIds(accounts)
    ensures var st := LoginStep(accounts, crypto, email, password, signing);
      && (UC.FindLoginUser(accounts, email).None? ==>
            st == UC.Step(Fail(ApiError(404, UC.NoUserMessage)), accounts))
      && (UC.FindLoginUser(accounts, email).Some? &&
          !crypto.passwordMatches(accounts[UC.FindLoginUser(accounts, email).value].password, password) ==>
            st == UC.Step(Fail(ApiError(401, UC.WrongPasswordMessage)), accounts))
      && (st.result.Fail? ==> st.accounts == accounts)
      && (st.result.Ok? ==>
            && StoredToken(st.accounts, st.result.value.userId) == Some(st.result.value.refreshCookie)
            && OnlyTokenOf(accounts, st.accounts, st.result.value.userId)
            && st.result.value.bodyAccessToken == st.result.value.accessCookie)
  {
    var found := UC.FindLoginUser(accounts, email);
    if found.Some? {
      FindOwnId(accounts, found.value);
      UC.GenerateStoresReturnedToken(accounts, accounts[found.value].id, signing);
    }
  }

  // ---------------------------------------------------------------------------
  // logoutUser (users.controller.js:162-185)

  /** `$set: { refreshToken: undefined }` on the authenticated user: the stored token is gone,
      as with the TypeScript `$unset`. */
  method LogoutUser(store: UserStore, userId: UserId) returns (r: Result<()>)
    requires store.Valid()
    modifies store
    ensures store.Valid()
    ensures r == Ok(()) && store.accounts == UC.LogoutStep(old(store.accounts), userId)
    ensures StoredToken(store.accounts, userId) == None
  {
    UC.LogoutClearsAndIsIdempotent(store.accounts, userId);
    var found := FindById(store.accounts, userId);
    if found.Some? {
      store.SetRefreshToken(found.value, None);
    }
    r := Ok(());
  }

  // ---------------------------------------------------------------------------
  // refreshAccessToken (users.controller.js:187-230)

  /** The JSON body of a refresh request: its `refreshToken` field, if any. */
  datatype RefreshBody = RefreshBody(refreshToken: Option<string>)

  /** What a successful refresh sends: the new access token in the body, both tokens as
      cookies. */
  datatype RefreshResponse = RefreshResponse(bodyAccessToken: Token, accessCookie: Token, refreshCookie: Token)

  /** The `try` block and its `catch`: every failure is a 401 carrying the thrown message, or
      "Invalid refresh token" when that message is empty. */
  function RefreshFromToken(accounts: seq<Account>, crypto: Crypto, token: Token, signing: Signing): UC.Step<RefreshResponse>
  {
    var thrownMessage :=
      match crypto.verifyRefresh(token)
      case VerifyError(_, m) => Some(m)
      case Claims(id) =>
        if id.None? || FindById(accounts, id.value).None? then Some(UC.InvalidRefreshMessage)
        else if signing.SigningFailed? then Some(GenerateFailure)
        else None;
    match thrownMessage
    case Some(m) => UC.Step(Fail(ApiError(401, if m != "" then m else UC.RefreshFallbackMessage)), accounts)
    case None =>
      var gen := GenerateStep(accounts, crypto.verifyRefresh(token).id.value, signing);
      UC.Step(Ok(RefreshResponse(signing.access, signing.access, signing.refresh)), gen.accounts)
  }

  /** The handler as written: it reads `req.cookie.refreshToken`. An Express request has
      `cookies` (set by the cookie parser) and no `cookie` property, so that read throws a
      `TypeError` before anything else happens, whatever the request carries. */
  function RefreshAsWritten(accounts: seq<Account>, crypto: Crypto, cookies: Cookies, body: RefreshBody,
                            signing: Signing): UC.Step<RefreshResponse>
  {
    UC.Step(Fail(ReadOfUndefined("refreshToken")), accounts)
  }

  /** `req.cookies?.refreshToken || req.body.refreshToken`: a non-empty cookie wins over the
      body's field. */
  function IncomingToken(cookies: Cookies, body: RefreshBody): Option<string>
  {
    if cookies.CookieJar? && Present(cookies.refreshToken) then cookies.refreshToken else body.refreshToken
  }

  /** The handler reading its token through `IncomingToken`, as evidently intended. */
  function Refresh(accounts: seq<Account>, crypto: Crypto, cookies: Cookies, body: RefreshBody,
                   signing: Signing): UC.Step<RefreshResponse>
  {
    var incoming := IncomingToken(cookies, body);
    if !Present(incoming) then UC.Step(Fail(ApiError(401, UC.InvalidRefreshMessage)), accounts)
    else RefreshFromToken(accounts, crypto, incoming.value, signing)
  }

  method RefreshAccessToken(store: UserStore, crypto: Crypto, cookies: Cookies, body: RefreshBody, signing: Signing)
    returns (r: Result<RefreshResponse>)
    requires store.Valid()
    modifies store
    ensures store.Valid()
    ensures UC.Step(r, store.accounts) == Refresh(old(store.accounts), crypto, cookies, body, signing)
  {
    var incoming := IncomingToken(cookies, body);
    if !Present(incoming) {
      return Fail(ApiError(401, UC.InvalidRefreshMessage));
    }
    var decoded := crypto.verifyRefresh(incoming.value);
    if decoded.VerifyError? {
      var m := decoded.message;
      return Fail(ApiError(401, if m != "" then m else UC.RefreshFallbackMessage));
    }
    if decoded.id.None? || FindById(store.accounts, decoded.id.value).None? {
      return Fail(ApiError(401, UC.InvalidRefreshMessage));
    }
    var tokens := GenerateAccessAndRefreshToken(store, decoded.id.value, signing);
    match tokens {
      case Fail(e) => r := Fail(ApiError(401, e.message));
      case Ok(pair) => r := Ok(RefreshResponse(pair.accessToken, pair.accessToken, pair.refreshToken));
    }
  }

  /** As written, no refresh request can succeed: even a valid token for an existing user in
      a well-formed cookie ends in the `TypeError`, and the stored token never rotates. The
      corrected handler refreshes that same request. */
  lemma RefreshAsWrittenNeverSucceeds(accounts: seq<Account>, crypto: Crypto, t: Token, id: UserId,
                                      access: Token, rotated: Token)
    requires UniqueIds(accounts)
    requires t != "" && crypto.verifyRefresh(t) == Claims(Some(id)) && FindById(accounts, id).Some?
    ensures var asWritten := RefreshAsWritten(accounts, crypto, CookieJar(None, Some(t)), RefreshBody(None), Signed(access, rotated));
      && asWritten.accounts == accounts
      && asWritten.result.Fail? && asWritten.result.thrown.Fault? && asWritten.result.thrown.name == TypeError
    ensures var fixed := Refresh(accounts, crypto, CookieJar(None, Some(t)), RefreshBody(None), Signed(access, rotated));
      && fixed.result == Ok(RefreshResponse(access, access, rotated))
      && StoredToken(fixed.accounts, id) == Some(rotated)
  {
    WithRefreshTokenFacts(accounts, FindById(accounts, id).value, Some(rotated));
  }

  /** The corrected handler: with no token in the cookie or the body the answer is 401
      "Invalid refresh token!". Every failure in the `try` is a 401 carrying the thrown
      message, or "Invalid refresh token" when that message is empty: the verifier's own
      message, "Invalid refresh token!" for a token naming no user, and the 500's message
      when token generation fails. No failure changes the collection; a success stores the
      refresh token it sets as a cookie, and the body carries the access token. */
  lemma RefreshOutcomes(accounts: seq<Account>, crypto: Crypto, cookies: Cookies, body: RefreshBody, signing: Signing)
    requires UniqueIds(accounts)
    ensures var st := Refresh(accounts, crypto, cookies, body, signing);
      var incoming := IncomingToken(cookies, body);
      && (st.result.Fail? ==>
            st.accounts == accounts && st.result.thrown.ApiError? && st.result.thrown.statusCode == 401)
      && (!Present(incoming) ==> st.result == Fail(ApiError(401, UC.InvalidRefreshMessage)))
      && (Present(incoming) ==>
            var d := crypto.verifyRefresh(incoming.value);
            && (d.VerifyError? ==>
                  st.result == Fail(ApiError(401, if d.message != "" then d.message else UC.RefreshFallbackMessage)))
            && (d.Claims? && (d.id.None? || FindById(accounts, d.id.value).None?) ==>
                  st.result == Fail(ApiError(401, UC.InvalidRefreshMessage)))
            && (d.Claims? && d.id.Some? && FindById(accounts, d.id.value).Some? && signing.SigningFailed? ==>
                  var gen := GenerateStep(accounts, d.id.value, signing).result;
                  gen.Fail? && st.result == Fail(ApiError(401, gen.thrown.message))))
      && (st.result.Ok? ==>
            && Present(incoming)
            && var id := crypto.verifyRefresh(incoming.value).id.value;
               && StoredToken(st.accounts, id) == Some(st.result.value.refreshCookie)
               && OnlyTokenOf(accounts, st.accounts, id)
               && st.result.value.bodyAccessToken == st.result.value.accessCookie)
  {
    var incoming := IncomingToken(cookies, body);
    if Present(incoming) {
      var d := crypto.verifyRefresh(incoming.value);
      if d.Claims? && d.id.Some? {
        UC.GenerateStoresReturnedToken(accounts, d.id.value, signing);
      }
    }
  }

  // ---------------------------------------------------------------------------
  // changeCurrentPassword (users.controller.js:263-280)

  function ChangePasswordStep(accounts: seq<Account>, crypto: Crypto, userId: UserId,
                              oldPassword: string, newPassword: string): UC.Step<()>
  {
    match FindById(accounts, userId)
    case None => UC.Step(Fail(ApiError(400, UC.ChangePasswordNoUserMessage)), accounts)
    case Some(i) =>
      if !crypto.passwordMatches(accounts[i].password, oldPassword) then
        UC.Step(Fail(ApiError(400, UC.OldPasswordMessage)), accounts)
      else UC.Step(Ok(()), accounts[i := accounts[i].(password := newPassword)])
  }

  method ChangeCurrentPassword(store: UserStore, crypto: Crypto, userId: UserId,
                               oldPassword: string, newPassword: string) returns (r: Result<()>)
    requires store.Valid()
    modifies store
    ensures store.Valid()
    ensures UC.Step(r, store.accounts) == ChangePasswordStep(old(store.accounts), crypto, userId, oldPassword, newPassword)
  {
    var found := FindById(store.accounts, userId);
    if found.None? {
      return Fail(ApiError(400, UC.ChangePasswordNoUserMessage));
    }
    if !crypto.passwordMatches(store.accounts[found.value].password, oldPassword) {
      return Fail(ApiError(400, UC.OldPasswordMessage));
    }
    store.SetPassword(found.value, newPassword);
    r := Ok(());
  }

  /** Any new password is accepted once the old one matches, even the empty string; the two
      versions agree whenever the new password has 8 to 16 characters. */
  lemma ChangePasswordAcceptsAnyLength(accounts: seq<Account>, crypto: Crypto, userId: UserId,
                                       oldPassword: string, newPassword: string)
    ensures var st := ChangePasswordStep(accounts, crypto, userId, oldPassword, newPassword);
      && (st.result.Ok? <==>
            FindById(accounts, userId).Some? &&
            crypto.passwordMatches(accounts[FindById(accounts, userId).value].password, oldPassword))
      && (UC.PasswordLengthOk(newPassword) ==>
            st == UC.ChangePasswordStep(accounts, crypto, userId, oldPassword, Some(newPassword)))
  {
  }

  // ---------------------------------------------------------------------------
  // updateDetails (users.controller.js:282-307)

  function UpdateDetailsStep(accounts: seq<Account>, userId: UserId, fullName: Option<string>,
                             email: Option<string>): UC.Step<Account>
  {
    if !Present(fullName) || !Present(email) then UC.Step(Fail(ApiError(400, UC.AllFieldsMessage)), accounts)
    else match FindById(accounts, userId)
      case None => UC.Step(Fail(ApiError(404, UC.UserNotFoundMessage)), accounts)
      case Some(i) =>
        var updated := accounts[i].(fullName := fullName.value, email := email.value);
        UC.Step(Ok(updated), accounts[i := updated])
  }

  method UpdateDetails(store: UserStore, userId: UserId, fullName: Option<string>, email: Option<string>)
    returns (r: Result<Account>)
    requires store.Valid()
    modifies store
    ensures store.Valid()
    ensures UC.Step(r, store.accounts) == UpdateDetailsStep(old(store.accounts), userId, fullName, email)
  {
    if !Present(fullName) || !Present(email) {
      return Fail(ApiError(400, UC.AllFieldsMessage));
    }
    var found := FindById(store.accounts, userId);
    if found.None? {
      return Fail(ApiError(404, UC.UserNotFoundMessage));
    }
    var i := found.value;
    store.SetDetails(i, fullName.value, email.value);
    r := Ok(store.accounts[i]);
  }

  /** Both fields are required; a success sets exactly `fullName` and `email` on that user,
      with the e-mail stored as sent (neither validated nor lower-cased). */
  lemma UpdateDetailsSetsBoth(accounts: seq<Account>, userId: UserId, fullName: Option<string>, email: Option<string>)
    ensures var st := UpdateDetailsStep(accounts, userId, fullName, email);
      && (st.result.Ok? <==> Present(fullName) && Present(email) && FindById(accounts, userId).Some?)
      && (st.result.Fail? ==> st.accounts == accounts)
      && (st.result.Ok? ==>
            var i := FindById(accounts, userId).value;
            && st.result.value == accounts[i].(fullName := fullName.value, email := email.value)
            && st.accounts == accounts[i := st.result.value]
            && UniqueIds(accounts) == UniqueIds(st.accounts))
  {
    var st := UpdateDetailsStep(accounts, userId, fullName, email);
    if st.result.Ok? {
      var i := FindById(accounts, userId).value;
      assert forall k :: 0 <= k < |accounts| ==> st.accounts[k].id == accounts[k].id;
    }
  }
}
