/** The account handlers of `src/controllers/users.controller.ts`: issuing tokens, logging in
    and out, rotating the refresh token, the registration checks, changing the password,
    updating the profile, and the channel profile counts.

    Each handler that writes the store is a method on a `UserStore`, proved equal to a
    function (`...Step`) that gives the result and the new collection; the lemmas state what
    the handler promises in terms of those functions. */
module UsersController {
  import opened Common
  import opened Accounts
  import Email

  /** A handler's result together with the collection it leaves behind. */
  datatype Step<T> = Step(result: Result<T>, accounts: seq<Account>)

  const GenerateFallback := "Unable to generate refresh and access token !"
  const PasswordLengthMessage := "Password cannot be shorter than 8 or longer than 16 characters."

  /** The messages of the `ApiError`s the handlers throw. */
  const UserLookupMessage := "Unable to find the user"
  const NoUserMessage := "User does not exist!"
  const WrongPasswordMessage := "Invalid password !"
  const UserNotFoundMessage := "User not found"
  const RefreshFallbackMessage := "Invalid refresh token"
  const RefreshFaultMessage := "Invalid refresh Token"
  const ForbiddenMessage := "Forbidden request"
  const InvalidRefreshMessage := "Invalid refresh token!"
  const FieldRequiredMessage := "Field is required"
  const EmailFormatMessage := "Invalid email format"
  const UserExistsMessage := "User already exists"
  const AvatarRequiredMessage := "Avatar field is required"
  const ChangePasswordNoUserMessage := "User doesn't exist."
  const OldPasswordMessage := "Invalid old password"
  const AllFieldsMessage := "All fields are required"
  const BadUsernameMessage := "Not a valid username"
  const NoChannelMessage := "Channel does not exists!"

  predicate PasswordLengthOk(p: string) { 8 <= |p| <= 16 }

  // ---------------------------------------------------------------------------
  // generateAccessAndRefreshToken (users.controller.ts:23-40)

  function GenerateStep(accounts: seq<Account>, userId: UserId, signing: Signing): Step<TokenPair>
  {
    match FindById(accounts, userId)
    case None => Step(Fail(ApiError(500, UserLookupMessage)), accounts)
    case Some(i) =>
      match signing
      case SigningFailed(m) =>
        Step(Fail(ApiError(500, if m.Some? then m.value else GenerateFallback)), accounts)
      case Signed(access, refresh) =>
        Step(Ok(TokenPair(access, refresh)), WithRefreshToken(accounts, i, Some(refresh)))
  }

  method GenerateAccessAndRefreshToken(store: UserStore, userId: UserId, signing: Signing)
    returns (r: Result<TokenPair>)
    requires store.Valid()
    modifies store
    ensures store.Valid()
    ensures Step(r, store.accounts) == GenerateStep(old(store.accounts), userId, signing)
  {
    var found := FindById(store.accounts, userId);
    if found.None? {
      return Fail(ApiError(500, UserLookupMessage));
    }
    match signing {
      case SigningFailed(m) =>
        r := Fail(ApiError(500, if m.Some? then m.value else GenerateFallback));
      case Signed(access, refresh) =>
        store.SetRefreshToken(found.value, Some(refresh));
        r := Ok(TokenPair(access, refresh));
    }
  }

  /** Token generation succeeds exactly when the user exists and signing succeeds; then the
      stored refresh token is the one returned and nothing else changes. Every failure is a
      500 that leaves the collection as it was. */
  lemma GenerateStoresReturnedToken(accounts: seq<Account>, userId: UserId, signing: Signing)
    requires UniqueIds(accounts)
    ensures var st := GenerateStep(accounts, userId, signing);
      && (st.result.Ok? <==> FindById(accounts, userId).Some? && signing.Signed?)
      && (st.result.Ok? ==>
            && st.result.value == TokenPair(signing.access, signing.refresh)
            && StoredToken(st.accounts, userId) == Some(st.result.value.refreshToken)
            && OnlyTokenOf(accounts, st.accounts, userId)
            && UniqueIds(st.accounts))
      && (st.result.Fail? ==>
            st.accounts == accounts && st.result.thrown.ApiError? && st.result.thrown.statusCode == 500)
  {
    var found := FindById(accounts, userId);
    if found.Some? && signing.Signed? {
      WithRefreshTokenFacts(accounts, found.value, Some(signing.refresh));
    }
  }

  // ---------------------------------------------------------------------------
  // loginUser (users.controller.ts:157-208)

  /** What a successful login sends: the user id, the `accessToken` in the JSON body, and the
      two cookies. */
  datatype LoginResponse = LoginResponse(
    userId: UserId, bodyAccessToken: Token, accessCookie: Token, refreshCookie: Token)

  /** `User.findOne({ email })` on the body's e-mail; a request without one matches no
      record. */
  function FindLoginUser(accounts: seq<Account>, email: Option<string>): (r: Option<nat>)
    ensures r.Some? ==> email.Some? && r.value < |accounts| && accounts[r.value].email == email.value
    ensures r.None? && email.Some? ==> forall k :: 0 <= k < |accounts| ==> accounts[k].email != email.value
  {
    if email.None? then None else FindByEmail(accounts, email.value)
  }

  function LoginStep(accounts: seq<Account>, crypto: Crypto, email: Option<string>, password: Option<string>,
                     signing: Signing): Step<LoginResponse>
  {
    match FindLoginUser(accounts, email)
    case None => Step(Fail(ApiError(404, NoUserMessage)), accounts)
    case Some(i) =>
      if password.None? then Step(Fail(ReadOfUndefined("length")), accounts)
      else if !PasswordLengthOk(password.value) then Step(Fail(ApiError(400, PasswordLengthMessage)), accounts)
      else if !crypto.passwordMatches(accounts[i].password, password.value) then
        Step(Fail(ApiError(401, WrongPasswordMessage)), accounts)
      else
        var gen := GenerateStep(accounts, accounts[i].id, signing);
        match gen.result
        case Fail(e) => Step(Fail(e), gen.accounts)
        case Ok(pair) =>
          Step(Ok(LoginResponse(accounts[i].id, pair.accessToken, pair.accessToken, pair.refreshToken)),
               gen.accounts)
  }

  method LoginUser(store: UserStore, crypto: Crypto, email: Option<string>, password: Option<string>,
                   signing: Signing) returns (r: Result<LoginResponse>)
    requires store.Valid()
    modifies store
    ensures store.Valid()
    ensures Step(r, store.accounts) == LoginStep(old(store.accounts), crypto, email, password, signing)
  {
    var found := FindLoginUser(store.accounts, email);
    if found.None? {
      return Fail(ApiError(404, NoUserMessage));
    }
    var user := store.accounts[found.value];
    if password.None? {
      return Fail(ReadOfUndefined("length"));
    }
    if !PasswordLengthOk(password.value) {
      return Fail(ApiError(400, PasswordLengthMessage));
    }
    if !crypto.passwordMatches(user.password, password.value) {
      return Fail(ApiError(401, WrongPasswordMessage));
    }
    var tokens := GenerateAccessAndRefreshToken(store, user.id, signing);
    match tokens {
      case Fail(e) => r := Fail(e);
      case Ok(pair) => r := Ok(LoginResponse(user.id, pair.accessToken, pair.accessToken, pair.refreshToken));
    }
  }

  /** The checks run in a fixed order: unknown e-mail (404) before the password length (400)
      before a wrong password (401); none of them touches the store. A request without a
      password for a known e-mail fails reading `password.length`. */
  lemma LoginCheckOrder(accounts: seq<Account>, crypto: Crypto, email: Option<string>, password: Option<string>,
                        signing: Signing)
    ensures var st := LoginStep(accounts, crypto, email, password, signing);
      && (st.result.Fail? ==> st.accounts == accounts)
      && (email.None? || FindByEmail(accounts, email.value).None? ==>
            st == Step(Fail(ApiError(404, NoUserMessage)), accounts))
      && (FindLoginUser(accounts, email).Some? && password.None? ==>
            st == Step(Fail(ReadOfUndefined("length")), accounts))
      && (FindLoginUser(accounts, email).Some? && password.Some? && !PasswordLengthOk(password.value) ==>
            st == Step(Fail(ApiError(400, PasswordLengthMessage)), accounts))
      && (FindLoginUser(accounts, email).Some? && password.Some? && PasswordLengthOk(password.value) &&
          !crypto.passwordMatches(accounts[FindLoginUser(accounts, email).value].password, password.value) ==>
            st == Step(Fail(ApiError(401, WrongPasswordMessage)), accounts))
  {
  }

  /** A successful login stores the new refresh token on the user, overwriting whatever was
      stored before (one session per user), touches no other record, and sends the same
      access token in the body and in the cookie. */
  lemma LoginSingleSession(accounts: seq<Account>, crypto: Crypto, email: Option<string>,
                           password: Option<string>, signing: Signing)
    requires UniqueIds(accounts)
    requires LoginStep(accounts, crypto, email, password, signing).result.Ok?
    ensures var st := LoginStep(accounts, crypto, email, password, signing);
      var resp := st.result.value;
      && resp.userId == accounts[FindLoginUser(accounts, email).value].id
      && password.Some? && PasswordLengthOk(password.value)
      && resp.bodyAccessToken == resp.accessCookie
      && signing == Signed(resp.accessCookie, resp.refreshCookie)
      && StoredToken(st.accounts, resp.userId) == Some(resp.refreshCookie)
      && OnlyTokenOf(accounts, st.accounts, resp.userId)
  {
    var i := FindLoginUser(accounts, email).value;
    FindOwnId(accounts, i);
    GenerateStoresReturnedToken(accounts, accounts[i].id, signing);
  }

  // ---------------------------------------------------------------------------
  // logoutUser (users.controller.ts:210-235)

  /** `$unset: { refreshToken: 1 }` on the authenticated user. */
  function LogoutStep(accounts: seq<Account>, userId: UserId): seq<Account>
  {
    match FindById(accounts, userId)
    case None => accounts
    case Some(i) => WithRefreshToken(accounts, i, None)
  }

  method LogoutUser(store: UserStore, userId: UserId) returns (r: Result<()>)
    requires store.Valid()
    modifies store
    ensures store.Valid()
    ensures r == Ok(()) && store.accounts == LogoutStep(old(store.accounts), userId)
  {
    var found := FindById(store.accounts, userId);
    if found.Some? {
      store.SetRefreshToken(found.value, None);
    }
    r := Ok(());
  }

  /** After logout the user has no stored refresh token and nothing else changed; logging
      out twice leaves the same collection as logging out once. */
  lemma LogoutClearsAndIsIdempotent(accounts: seq<Account>, userId: UserId)
    requires UniqueIds(accounts)
    ensures StoredToken(LogoutStep(accounts, userId), userId) == None
    ensures OnlyTokenOf(accounts, LogoutStep(accounts, userId), userId)
    ensures UniqueIds(LogoutStep(accounts, userId))
    ensures LogoutStep(LogoutStep(accounts, userId), userId) == LogoutStep(accounts, userId)
  {
    var found := FindById(accounts, userId);
    if found.Some? {
      var i := found.value;
      WithRefreshTokenFacts(accounts, i, None);
      FindOwnId(WithRefreshToken(accounts, i, None), i);
    }
  }

  // ---------------------------------------------------------------------------
  // refreshAccessToken (users.controller.ts:237-279)

  /** Inside the `try`: verify, load the user, rotate. What it throws is re-thrown as 401
      by the `catch`. */
  function RefreshTry(accounts: seq<Account>, crypto: Crypto, token: Token, signing: Signing): Step<TokenPair>
  {
    match crypto.verifyRefresh(token)
    case VerifyError(name, message) => Step(Fail(Fault(name, message)), accounts)
    case Claims(id) =>
      if id.None? || FindById(accounts, id.value).None? then
        Step(Fail(ApiError(404, UserNotFoundMessage)), accounts)
      else GenerateStep(accounts, id.value, signing)
  }

  /** The `catch`: an `ApiError` keeps its message (or a fallback when it is empty), anything
      else gets "Invalid refresh Token"; both become 401. */
  function RefreshCatch(e: Thrown): Thrown
  {
    match e
    case ApiError(_, m) => ApiError(401, if m != "" then m else RefreshFallbackMessage)
    case Fault(_, _) => ApiError(401, RefreshFaultMessage)
  }

  function RefreshStep(accounts: seq<Account>, crypto: Crypto, cookies: Cookies, signing: Signing): Step<TokenPair>
  {
    if cookies.NoCookieObject? then Step(Fail(ApiError(403, ForbiddenMessage)), accounts)
    else if !Present(cookies.refreshToken) then Step(Fail(ApiError(401, InvalidRefreshMessage)), accounts)
    else
      var st := RefreshTry(accounts, crypto, cookies.refreshToken.value, signing);
      match st.result
      case Ok(pair) => st
      case Fail(e) => Step(Fail(RefreshCatch(e)), st.accounts)
  }

  method RefreshAccessToken(store: UserStore, crypto: Crypto, cookies: Cookies, signing: Signing)
    returns (r: Result<TokenPair>)
    requires store.Valid()
    modifies store
    ensures store.Valid()
    ensures Step(r, store.accounts) == RefreshStep(old(store.accounts), crypto, cookies, signing)
  {
    if cookies.NoCookieObject? {
      return Fail(ApiError(403, ForbiddenMessage));
    }
    var incoming := cookies.refreshToken;
    if !Present(incoming) {
      return Fail(ApiError(401, InvalidRefreshMessage));
    }
    var decoded := crypto.verifyRefresh(incoming.value);
    if decoded.VerifyError? {
      return Fail(RefreshCatch(Fault(decoded.name, decoded.message)));
    }
    if decoded.id.None? || FindById(store.accounts, decoded.id.value).None? {
      return Fail(RefreshCatch(ApiError(404, UserNotFoundMessage)));
    }
    var tokens := GenerateAccessAndRefreshToken(store, decoded.id.value, signing);
    match tokens {
      case Fail(e) => r := Fail(RefreshCatch(e));
      case Ok(pair) => r := tokens;
    }
  }

  /** Error mapping: no cookie object is 403 and a missing token 401 "Invalid refresh token!".
      Inside the `try`, a token that does not verify gives 401 "Invalid refresh Token", an
      id without a user 401 "User not found", and a failed token generation a 401 carrying
      the message of the 500 that generation threw (or "Invalid refresh token" when that
      message is empty). Every failure is a 401 once cookies exist, and none changes the
      collection. */
  lemma RefreshFailuresAre401(accounts: seq<Account>, crypto: Crypto, cookies: Cookies, signing: Signing)
    ensures var st := RefreshStep(accounts, crypto, cookies, signing);
      && (cookies.NoCookieObject? ==> st.result == Fail(ApiError(403, ForbiddenMessage)))
      && (cookies.CookieJar? && !Present(cookies.refreshToken) ==>
            st.result == Fail(ApiError(401, InvalidRefreshMessage)))
      && (cookies.CookieJar? && Present(cookies.refreshToken) ==>
            var d := crypto.verifyRefresh(cookies.refreshToken.value);
            && (d.VerifyError? ==> st.result == Fail(ApiError(401, RefreshFaultMessage)))
            && (d.Claims? && (d.id.None? || FindById(accounts, d.id.value).None?) ==>
                  st.result == Fail(ApiError(401, UserNotFoundMessage)))
            && (d.Claims? && d.id.Some? && FindById(accounts, d.id.value).Some? && signing.SigningFailed? ==>
                  var gen := GenerateStep(accounts, d.id.value, signing).result;
                  && gen.Fail? && gen.thrown.ApiError? && gen.thrown.statusCode == 500
                  && st.result == Fail(ApiError(401, if gen.thrown.message != "" then gen.thrown.message
                                                     else RefreshFallbackMessage))))
      && (cookies.CookieJar? && st.result.Fail? ==> st.result.thrown.ApiError? && st.result.thrown.statusCode == 401)
      && (st.result.Fail? ==> st.accounts == accounts)
  {
  }

  /** A token that verifies to an unknown user is reported as 401 "User not found". */
  lemma RefreshUnknownUser(accounts: seq<Account>, crypto: Crypto, t: Token, id: UserId, signing: Signing)
    requires t != "" && crypto.verifyRefresh(t) == Claims(Some(id)) && FindById(accounts, id).None?
    ensures RefreshStep(accounts, crypto, CookieJar(None, Some(t)), signing).result ==
      Fail(ApiError(401, UserNotFoundMessage))
  {
  }

  /** The presented refresh token is never compared with the stored one: any token that
      verifies to an existing user rotates that user's token, whatever was stored, even
      after logout. */
  lemma RefreshIgnoresStoredToken(accounts: seq<Account>, crypto: Crypto, t: Token, id: UserId,
                                  access: Token, rotated: Token)
    requires UniqueIds(accounts)
    requires t != "" && crypto.verifyRefresh(t) == Claims(Some(id)) && FindById(accounts, id).Some?
    ensures var after := LogoutStep(accounts, id);
      var st := RefreshStep(after, crypto, CookieJar(None, Some(t)), Signed(access, rotated));
      && st.result == Ok(TokenPair(access, rotated))
      && StoredToken(st.accounts, id) == Some(rotated)
  {
    LogoutClearsAndIsIdempotent(accounts, id);
    var after := LogoutStep(accounts, id);
    GenerateStoresReturnedToken(after, id, Signed(access, rotated));
  }

  // ---------------------------------------------------------------------------
  // registerUser, validation steps (users.controller.ts:57-100)

  /** The four body fields; `None` is a key the client did not send. */
  datatype RegisterBody = RegisterBody(
    fullName: Option<string>, email: Option<string>, username: Option<string>, password: Option<string>)

  /** `field?.trim() === ""`: only a string that trims to "" is blank; a missing field is not. */
  predicate Blank(f: Option<string>)
  {
    f.Some? && Trim(f.value) == ""
  }

  /** `User.findOne({ $or: [{ username }, { email }] })` on the raw (not lower-cased) values;
      a missing value matches no record. */
  predicate Taken(accounts: seq<Account>, username: Option<string>, email: Option<string>)
  {
    exists k :: 0 <= k < |accounts| &&
      ((username.Some? && accounts[k].username == username.value) ||
       (email.Some? && accounts[k].email == email.value))
  }

  /** The checks before the upload: `Ok(())` means the handler goes on to upload the avatar. */
  function RegisterChecks(body: RegisterBody, accounts: seq<Account>, avatarPath: Option<string>): Result<()>
  {
    if Blank(body.fullName) || Blank(body.email) || Blank(body.username) || Blank(body.password) then
      Fail(ApiError(400, FieldRequiredMessage))
    else if body.password.None? then Fail(ReadOfUndefined("length"))
    else if !PasswordLengthOk(body.password.value) then Fail(ApiError(400, PasswordLengthMessage))
    else if body.email.None? then Fail(ReadOfUndefined("toLowerCase"))
    else if !Email.EmailAccepted(body.email.value) then Fail(ApiError(400, EmailFormatMessage))
    else if Taken(accounts, body.username, body.email) then Fail(ApiError(409, UserExistsMessage))
    else if !Present(avatarPath) then Fail(ApiError(400, AvatarRequiredMessage))
    else Ok(())
  }

  /** An address that matches the e-mail pattern is never blank. */
  lemma MatchingEmailNotBlank(e: string)
    requires Email.MatchesPattern(e)
    ensures !Blank(Some(e))
  {
    var at, dot :| Email.MatchSplit(e, at, dot);
    assert e[..at][0] == e[0];
    TrimEmptyIff(e);
  }

  /** Registration gets past the checks exactly when no sent field is blank, the password is
      sent with 8 to 16 characters, the e-mail is sent and matches the pattern, neither the
      username nor the e-mail is taken, and an avatar file came with the request. */
  lemma RegisterAcceptedIff(body: RegisterBody, accounts: seq<Account>, avatarPath: Option<string>)
    ensures RegisterChecks(body, accounts, avatarPath).Ok? <==>
      && !Blank(body.fullName) && !Blank(body.username) && !Blank(body.password)
      && body.password.Some? && PasswordLengthOk(body.password.value)
      && body.email.Some? && Email.MatchesPattern(body.email.value)
      && !Taken(accounts, body.username, body.email)
      && Present(avatarPath)
  {
    if body.email.Some? && Email.MatchesPattern(body.email.value) {
      MatchingEmailNotBlank(body.email.value);
    }
  }

  /** Order of the rejections: a blank field (400) wins over the password length (400),
      which wins over the e-mail format (400), which wins over an existing user (409), which
      wins over a missing avatar (400). */
  lemma RegisterCheckOrder(body: RegisterBody, accounts: seq<Account>, avatarPath: Option<string>)
    ensures var r := RegisterChecks(body, accounts, avatarPath);
      && (r == Fail(ApiError(409, UserExistsMessage)) ==>
            body.password.Some? && PasswordLengthOk(body.password.value) &&
            body.email.Some? && Email.MatchesPattern(body.email.value))
      && (r == Fail(ApiError(400, AvatarRequiredMessage)) ==> !Taken(accounts, body.username, body.email))
      && (r == Fail(ApiError(400, EmailFormatMessage)) ==>
            body.password.Some? && PasswordLengthOk(body.password.value))
      && (Blank(body.fullName) || Blank(body.email) || Blank(body.username) || Blank(body.password) ==>
            r == Fail(ApiError(400, FieldRequiredMessage)))
  {
  }

  // ---------------------------------------------------------------------------
  // changeCurrentPassword (users.controller.ts:313-342)

  /** `newPassword` is `None` when the body has no such key: reading its `length` then
      throws, after the old password was checked. */
  function ChangePasswordStep(accounts: seq<Account>, crypto: Crypto, userId: UserId,
                              oldPassword: string, newPassword: Option<string>): Step<()>
  {
    match FindById(accounts, userId)
    case None => Step(Fail(ApiError(400, ChangePasswordNoUserMessage)), accounts)
    case Some(i) =>
      if !crypto.passwordMatches(accounts[i].password, oldPassword) then
        Step(Fail(ApiError(400, OldPasswordMessage)), accounts)
      else if newPassword.None? then Step(Fail(ReadOfUndefined("length")), accounts)
      else if !PasswordLengthOk(newPassword.value) then Step(Fail(ApiError(400, PasswordLengthMessage)), accounts)
      else Step(Ok(()), accounts[i := accounts[i].(password := newPassword.value)])
  }

  method ChangeCurrentPassword(store: UserStore, crypto: Crypto, userId: UserId,
                               oldPassword: string, newPassword: Option<string>) returns (r: Result<()>)
    requires store.Valid()
    modifies store
    ensures store.Valid()
    ensures Step(r, store.accounts) == ChangePasswordStep(old(store.accounts), crypto, userId, oldPassword, newPassword)
  {
    var found := FindById(store.accounts, userId);
    if found.None? {
      return Fail(ApiError(400, ChangePasswordNoUserMessage));
    }
    if !crypto.passwordMatches(store.accounts[found.value].password, oldPassword) {
      return Fail(ApiError(400, OldPasswordMessage));
    }
    if newPassword.None? {
      return Fail(ReadOfUndefined("length"));
    }
    if !PasswordLengthOk(newPassword.value) {
      return Fail(ApiError(400, PasswordLengthMessage));
    }
    store.SetPassword(found.value, newPassword.value);
    r := Ok(());
  }

  /** The checks in order: no user (400 "User doesn't exist."), then a wrong old password
      (400, reported even when the new one is also too short), then the new password's
      `length` (a missing one throws, a bad length is 400). Only a success changes the
      store, and then only that user's password. */
  lemma ChangePasswordOrder(accounts: seq<Account>, crypto: Crypto, userId: UserId,
                            oldPassword: string, newPassword: Option<string>)
    ensures var st := ChangePasswordStep(accounts, crypto, userId, oldPassword, newPassword);
      && (st.result.Fail? ==> st.accounts == accounts)
      && (FindById(accounts, userId).None? ==> st.result == Fail(ApiError(400, ChangePasswordNoUserMessage)))
      && (FindById(accounts, userId).Some? &&
          !crypto.passwordMatches(accounts[FindById(accounts, userId).value].password, oldPassword) ==>
            st.result == Fail(ApiError(400, OldPasswordMessage)))
      && (FindById(accounts, userId).Some? &&
          crypto.passwordMatches(accounts[FindById(accounts, userId).value].password, oldPassword) ==>
            && (newPassword.None? ==> st.result == Fail(ReadOfUndefined("length")))
            && (newPassword.Some? && !PasswordLengthOk(newPassword.value) ==>
                  st.result == Fail(ApiError(400, PasswordLengthMessage))))
      && (st.result.Ok? ==>
            newPassword.Some? && PasswordLengthOk(newPassword.value) && |st.accounts| == |accounts| &&
            forall k :: 0 <= k < |accounts| ==>
              st.accounts[k] == (if k == FindById(accounts, userId).value
                                 then accounts[k].(password := newPassword.value) else accounts[k]))
  {
  }

  // ---------------------------------------------------------------------------
  // updateDetails (users.controller.ts:344-376)

  function UpdateDetailsStep(accounts: seq<Account>, userId: UserId, fullName: Option<string>): Step<Account>
  {
    if !Present(fullName) then Step(Fail(ApiError(400, AllFieldsMessage)), accounts)
    else match FindById(accounts, userId)
      case None => Step(Fail(ApiError(404, UserNotFoundMessage)), accounts)
      case Some(i) =>
        var updated := accounts[i].(fullName := fullName.value);
        Step(Ok(updated), accounts[i := updated])
  }

  method UpdateDetails(store: UserStore, userId: UserId, fullName: Option<string>) returns (r: Result<Account>)
    requires store.Valid()
    modifies store
    ensures store.Valid()
    ensures Step(r, store.accounts) == UpdateDetailsStep(old(store.accounts), userId, fullName)
  {
    if !Present(fullName) {
      return Fail(ApiError(400, AllFieldsMessage));
    }
    var found := FindById(store.accounts, userId);
    if found.None? {
      return Fail(ApiError(404, UserNotFoundMessage));
    }
    var i := found.value;
    store.SetDetails(i, fullName.value, store.accounts[i].email);
    r := Ok(store.accounts[i]);
  }

  /** `fullName` is the one required field: without it (or empty) the answer is 400; with
      it, only that user's `fullName` changes and the updated record is returned. */
  lemma UpdateDetailsSetsOnlyFullName(accounts: seq<Account>, userId: UserId, fullName: Option<string>)
    ensures var st := UpdateDetailsStep(accounts, userId, fullName);
      && (!Present(fullName) ==> st.result == Fail(ApiError(400, AllFieldsMessage)))
      && (st.result.Fail? ==> st.accounts == accounts)
      && (st.result.Ok? ==>
            var i := FindById(accounts, userId).value;
            && st.result.value == accounts[i].(fullName := fullName.value)
            && st.accounts == accounts[i := st.result.value])
  {
  }

  // ---------------------------------------------------------------------------
  // getUserChannelProfile (users.controller.ts:468-544)

  datatype Subscription = Subscription(subscriber: UserId, channel: UserId)

  datatype ChannelProfile = ChannelProfile(
    fullName: string, username: string, email: string,
    subscribersCount: nat, channelsSubscribedToCount: nat, isSubscribed: bool)

  /** `$size` of the `$lookup` on `channel`. */
  function CountChannel(subs: seq<Subscription>, id: UserId): nat
  {
    if |subs| == 0 then 0 else (if subs[0].channel == id then 1 else 0) + CountChannel(subs[1..], id)
  }

  /** `$size` of the `$lookup` on `subscriber`. */
  function CountSubscriber(subs: seq<Subscription>, id: UserId): nat
  {
    if |subs| == 0 then 0 else (if subs[0].subscriber == id then 1 else 0) + CountSubscriber(subs[1..], id)
  }

  /** `$in: [requester, "$subscribers.subscriber"]`. */
  function SubscribedTo(subs: seq<Subscription>, requester: UserId, channel: UserId): bool
  {
    |subs| > 0 && ((subs[0].channel == channel && subs[0].subscriber == requester) ||
                   SubscribedTo(subs[1..], requester, channel))
  }

  function Channels(subs: seq<Subscription>): multiset<UserId>
  {
    if |subs| == 0 then multiset{} else multiset{subs[0].channel} + Channels(subs[1..])
  }

  function Subscribers(subs: seq<Subscription>): multiset<UserId>
  {
    if |subs| == 0 then multiset{} else multiset{subs[0].subscriber} + Subscribers(subs[1..])
  }

  /** First record whose username equals `name`. */
  function FindByUsername(accounts: seq<Account>, name: string): (r: Option<nat>)
    ensures r.Some? ==> r.value < |accounts| && accounts[r.value].username == name
    ensures r.None? ==> forall k :: 0 <= k < |accounts| ==> accounts[k].username != name
  {
    if |accounts| == 0 then None
    else if accounts[0].username == name then Some(0)
    else match FindByUsername(accounts[1..], name)
      case None => None
      case Some(k) => Some(k + 1)
  }

  function ChannelProfileOf(accounts: seq<Account>, subs: seq<Subscription>, username: Option<string>,
                            requester: Option<UserId>): Result<ChannelProfile>
  {
    if username.None? || Trim(username.value) == "" then Fail(ApiError(400, BadUsernameMessage))
    else match FindByUsername(accounts, ToLowerAscii(username.value))
      case None => Fail(ApiError(404, NoChannelMessage))
      case Some(i) =>
        var u := accounts[i];
        Ok(ChannelProfile(u.fullName, u.username, u.email,
                          CountChannel(subs, u.id), CountSubscriber(subs, u.id),
                          requester.Some? && SubscribedTo(subs, requester.value, u.id)))
  }

  lemma {:induction false} CountChannelIsMultiplicity(subs: seq<Subscription>, id: UserId)
    ensures CountChannel(subs, id) == Channels(subs)[id]
  {
    if |subs| > 0 { CountChannelIsMultiplicity(subs[1..], id); }
  }

  lemma {:induction false} CountSubscriberIsMultiplicity(subs: seq<Subscription>, id: UserId)
    ensures CountSubscriber(subs, id) == Subscribers(subs)[id]
  {
    if |subs| > 0 { CountSubscriberIsMultiplicity(subs[1..], id); }
  }

  lemma {:induction false} SubscribedToIff(subs: seq<Subscription>, requester: UserId, channel: UserId)
    ensures SubscribedTo(subs, requester, channel) <==>
      exists k :: 0 <= k < |subs| && subs[k] == Subscription(requester, channel)
  {
    if |subs| > 0 {
      SubscribedToIff(subs[1..], requester, channel);
      if SubscribedTo(subs[1..], requester, channel) {
        var k :| 0 <= k < |subs[1..]| && subs[1..][k] == Subscription(requester, channel);
        assert subs[k + 1] == Subscription(requester, channel);
      }
      if exists k :: 0 <= k < |subs| && subs[k] == Subscription(requester, channel) {
        var k :| 0 <= k < |subs| && subs[k] == Subscription(requester, channel);
        if k > 0 { assert subs[1..][k - 1] == subs[k]; }
      }
    }
  }

  /** The profile: a blank or missing username is 400; otherwise the answer is a profile
      exactly when a user has the lower-cased username, and 404 when none has. In a profile
      the subscriber count is the number of subscriptions whose channel is the user, the
      subscribed-to count the number whose subscriber is the user, and `isSubscribed` says
      whether the requester has a subscription to the channel. */
  lemma ChannelProfileCounts(accounts: seq<Account>, subs: seq<Subscription>, username: Option<string>,
                             requester: Option<UserId>)
    ensures var r := ChannelProfileOf(accounts, subs, username, requester);
      && (username.None? || AllWhitespace(username.value) ==> r == Fail(ApiError(400, BadUsernameMessage)))
      && (username.Some? && !AllWhitespace(username.value) ==>
            && (r.Ok? <==> FindByUsername(accounts, ToLowerAscii(username.value)).Some?)
            && (FindByUsername(accounts, ToLowerAscii(username.value)).None? ==>
                  r == Fail(ApiError(404, NoChannelMessage))))
      && (r.Ok? ==>
            var u := accounts[FindByUsername(accounts, ToLowerAscii(username.value)).value];
            && r.value.username == ToLowerAscii(username.value)
            && r.value.subscribersCount == Channels(subs)[u.id]
            && r.value.channelsSubscribedToCount == Subscribers(subs)[u.id]
            && (r.value.isSubscribed <==>
                  requester.Some? &&
                  exists k :: 0 <= k < |subs| && subs[k] == Subscription(requester.value, u.id)))
  {
    if username.Some? { TrimEmptyIff(username.value); }
    var r := ChannelProfileOf(accounts, subs, username, requester);
    if r.Ok? {
      var u := accounts[FindByUsername(accounts, ToLowerAscii(username.value)).value];
      CountChannelIsMultiplicity(subs, u.id);
      CountSubscriberIsMultiplicity(subs, u.id);
      if requester.Some? { SubscribedToIff(subs, requester.value, u.id); }
    }
  }
}
