/** The request schemas of `src/validators/user.validator.ts`. Every schema validates an
    object `{ body, params, query }`; the fields below are those of `body` (or `params`),
    in declaration order. Zod's e-mail format test is a parameter (`isEmail`), since its
    pattern belongs to the library. */
module UserValidator {
  import opened Common
  import opened Zod
  import UC = UsersController

  /** The paths under which the schemas report their issues. */
  const FullNamePath := ["body", "fullName"]
  const EmailPath := ["body", "email"]
  const UsernamePath := ["body", "username"]
  const PasswordPath := ["body", "password"]
  const OldPasswordPath := ["body", "oldPassword"]
  const NewPasswordPath := ["body", "newPassword"]

  /** The messages the schemas give. */
  const FullNameRequired := "Full name is required"
  const FullNameTooShort := "Full name must be at least 3 characters"
  const EmailRequired := "Email is required"
  const EmailInvalid := "Invalid email format"
  const UsernameRequired := "Username is required"
  const UsernameTooShort := "Username must be at least 3 characters"
  const InvalidInput := "Invalid input"
  const PasswordRequired := "Password is required"
  const RegisterPasswordTooShort := "Password must be 8+ characters"
  const RegisterPasswordTooLong := "Password cannot be more than 16 characters"
  const PasswordTooShort := "Password must be at least 8 characters"
  const PasswordTooLong := "Password must be less than 17 characters"
  const OldPasswordRequired := "Old Password is required"
  const NewPasswordRequired := "New Password is required"

  // ---------------------------------------------------------------------------
  // Field rules

  /** `fullName`: a string, trimmed, at least 3 characters. Its type error says "required"
      for every falsy input (`!iss.input`), not only for a missing one. */
  function FullNameRule(input: JsValue): (r: FieldResult<string>)
    ensures r.Valid? <==> input.Str? && |Trim(input.s)| >= 3
    ensures r.Valid? ==> r.value == Trim(input.s)
    ensures !input.Str? ==> r.Invalid? && r.messages == [Some(if Truthy(input) then InvalidInput else FullNameRequired)]
  {
    ZString(input, Some(if !Truthy(input) then FullNameRequired else InvalidInput), true,
            Some((3, FullNameTooShort)), None)
  }

  /** `z.email({ error }).toLowerCase().trim()`: the format is tested on the raw input, and
      the output is the input lower-cased, then trimmed. */
  function EmailRule(input: JsValue, isEmail: string -> bool): (r: FieldResult<string>)
    ensures r.Valid? <==> input.Str? && isEmail(input.s)
    ensures r.Valid? ==> r.value == Trim(ToLowerAscii(input.s))
    ensures r.Invalid? ==> r.messages == [Some(if input.Undefined? then EmailRequired else EmailInvalid)]
  {
    match input
    case Str(s) =>
      if isEmail(s) then Valid(Trim(ToLowerAscii(s))) else Invalid([Some(EmailInvalid)], false)
    case _ => Invalid([RequiredOr(input, EmailRequired, EmailInvalid)], true)
  }

  /** `username` of the registration: a string, trimmed, at least 3 characters. */
  function RegisterUsernameRule(input: JsValue): (r: FieldResult<string>)
    ensures r.Valid? <==> input.Str? && |Trim(input.s)| >= 3
    ensures r.Valid? ==> r.value == Trim(input.s)
    ensures !input.Str? ==> r.Invalid? && (r.messages == [Some(UsernameRequired)] <==> input.Undefined?)
  {
    ZString(input, RequiredOr(input, UsernameRequired, InvalidInput), true,
            Some((3, UsernameTooShort)), None)
  }

  /** `username` of the detail update and of the route parameter: a string, trimmed, with
      no length bound (so "" and all-blank strings pass). */
  function PlainUsernameRule(input: JsValue): (r: FieldResult<string>)
    ensures r.Valid? <==> input.Str?
    ensures r.Valid? ==> r.value == Trim(input.s)
    ensures !input.Str? ==> r.Invalid? && (r.messages == [Some(UsernameRequired)] <==> input.Undefined?)
  {
    ZString(input, RequiredOr(input, UsernameRequired, InvalidInput), true, None, None)
  }

  /** A password field: a string of 8 to 16 characters, not trimmed. */
  function PasswordRule(input: JsValue, required: string, tooShort: string, tooLong: string): (r: FieldResult<string>)
    requires required != InvalidInput
    ensures r.Valid? <==> input.Str? && UC.PasswordLengthOk(input.s)
    ensures r.Valid? ==> r.value == input.s
    ensures !input.Str? ==> r.Invalid? && (r.messages == [Some(required)] <==> input.Undefined?)
  {
    ZString(input, RequiredOr(input, required, InvalidInput), false, Some((8, tooShort)), Some((16, tooLong)))
  }

  // ---------------------------------------------------------------------------
  // Schemas

  datatype RegisterInput = RegisterInput(fullName: JsValue, email: JsValue, username: JsValue, password: JsValue)
  datatype RegisterOutput = RegisterOutput(fullName: string, email: string, username: string, password: string)

  /** `registerSchema` (user.validator.ts:3-39). */
  function RegisterSchema(body: RegisterInput, isEmail: string -> bool): SchemaResult<RegisterOutput>
  {
    var f := FullNameRule(body.fullName);
    var e := EmailRule(body.email, isEmail);
    var u := RegisterUsernameRule(body.username);
    var p := PasswordRule(body.password, PasswordRequired, RegisterPasswordTooShort,
                          RegisterPasswordTooLong);
    if f.Valid? && e.Valid? && u.Valid? && p.Valid? then
      Success(RegisterOutput(f.value, e.value, u.value, p.value))
    else
      Failure(IssuesAt(FullNamePath, f) + IssuesAt(EmailPath, e) +
              IssuesAt(UsernamePath, u) + IssuesAt(PasswordPath, p))
  }

  /** Every issue is reported under `body`, one field deep. */
  predicate UnderBody(issues: seq<Issue>)
  {
    forall i :: 0 <= i < |issues| ==> |issues[i].path| == 2 && issues[i].path[0] == "body"
  }

  lemma UnderBodyAppend(x: seq<Issue>, y: seq<Issue>)
    requires UnderBody(x) && UnderBody(y)
    ensures UnderBody(x + y)
  {
    forall i | 0 <= i < |x + y| ensures |(x + y)[i].path| == 2 && (x + y)[i].path[0] == "body" {
      if i < |x| { assert (x + y)[i] == x[i]; } else { assert (x + y)[i] == y[i - |x|]; }
    }
  }

  /** A registration body passes exactly when the full name and username have at least 3
      characters after trimming, the e-mail has the format, and the password has 8 to 16
      characters as sent. The output is trimmed except for the password, and the e-mail is
      lower-cased. */
  lemma RegisterSchemaSuccess(body: RegisterInput, isEmail: string -> bool)
    ensures var r := RegisterSchema(body, isEmail);
      && (r.Success? <==>
            && body.fullName.Str? && |Trim(body.fullName.s)| >= 3
            && body.email.Str? && isEmail(body.email.s)
            && body.username.Str? && |Trim(body.username.s)| >= 3
            && body.password.Str? && UC.PasswordLengthOk(body.password.s))
      && (r.Success? ==> r.value == RegisterOutput(Trim(body.fullName.s), Trim(ToLowerAscii(body.email.s)),
                                                   Trim(body.username.s), body.password.s))
  {
    var f := FullNameRule(body.fullName);
    var e := EmailRule(body.email, isEmail);
    var u := RegisterUsernameRule(body.username);
    var p := PasswordRule(body.password, PasswordRequired, RegisterPasswordTooShort, RegisterPasswordTooLong);
    assert RegisterSchema(body, isEmail).Success? <==> f.Valid? && e.Valid? && u.Valid? && p.Valid?;
  }

  /** The issues of one field rule at a path one field under `body`: all under `body`, and
      at least one when the rule failed with at least one message. */
  lemma FieldIssuesUnderBody<T>(path: seq<string>, r: FieldResult<T>)
    requires |path| == 2 && path[0] == "body"
    ensures UnderBody(IssuesAt(path, r))
    ensures r.Invalid? && |r.messages| > 0 ==> |IssuesAt(path, r)| > 0
  {
  }

  /** A rejected registration body reports at least one issue, every one under `body`. */
  lemma RegisterSchemaIssues(body: RegisterInput, isEmail: string -> bool)
    ensures var r := RegisterSchema(body, isEmail);
      r.Failure? ==> |r.issues| > 0 && UnderBody(r.issues)
  {
    var r := RegisterSchema(body, isEmail);
    var f := FullNameRule(body.fullName);
    var e := EmailRule(body.email, isEmail);
    var u := RegisterUsernameRule(body.username);
    var p := PasswordRule(body.password, PasswordRequired, RegisterPasswordTooShort, RegisterPasswordTooLong);
    if !(f.Valid? && e.Valid? && u.Valid? && p.Valid?) {
      var a := IssuesAt(FullNamePath, f);
      var b := IssuesAt(EmailPath, e);
      var c := IssuesAt(UsernamePath, u);
      var d := IssuesAt(PasswordPath, p);
      FieldIssuesUnderBody(FullNamePath, f);
      FieldIssuesUnderBody(EmailPath, e);
      FieldIssuesUnderBody(UsernamePath, u);
      FieldIssuesUnderBody(PasswordPath, p);
      assert r.issues == a + b + c + d;
      UnderBodyAppend(a, b);
      UnderBodyAppend(a + b, c);
      UnderBodyAppend(a + b + c, d);
    }
  }

  /** The schema's password rule and the registration handler's length check accept the
      same passwords. */
  lemma RegisterPasswordAgreesWithHandler(s: string)
    ensures PasswordRule(Str(s), PasswordRequired, RegisterPasswordTooShort,
                         RegisterPasswordTooLong).Valid?
      <==> UC.PasswordLengthOk(s)
  {
  }

  /** Every falsy value that is not a string (`undefined`, `null`, `false`, `0`, `NaN`) gets
      the "required" message for the full name; for the registration username only the
      missing field does, and every other falsy value gets "Invalid input". */
  lemma RequiredMessagesDiffer(input: JsValue)
    requires !input.Str? && !Truthy(input)
    ensures FullNameRule(input).messages == [Some(FullNameRequired)]
    ensures RegisterUsernameRule(input).messages ==
      [Some(if input.Undefined? then UsernameRequired else InvalidInput)]
  {
  }

  datatype LoginInput = LoginInput(email: JsValue, password: JsValue)
  datatype LoginOutput = LoginOutput(email: string, password: string)

  /** `loginSchema` (user.validator.ts:41-60). */
  function LoginSchema(body: LoginInput, isEmail: string -> bool): (r: SchemaResult<LoginOutput>)
    ensures r.Success? <==> body.email.Str? && isEmail(body.email.s) && body.password.Str? && UC.PasswordLengthOk(body.password.s)
    ensures r.Success? ==> r.value == LoginOutput(Trim(ToLowerAscii(body.email.s)), body.password.s)
  {
    var e := EmailRule(body.email, isEmail);
    var p := PasswordRule(body.password, PasswordRequired, PasswordTooShort,
                          PasswordTooLong);
    if e.Valid? && p.Valid? then Success(LoginOutput(e.value, p.value))
    else Failure(IssuesAt(EmailPath, e) + IssuesAt(PasswordPath, p))
  }

  /** `updateUserDetailSchema` (user.validator.ts:62-71) and `userParamSchema`
      (user.validator.ts:73-82): one trimmed username, under `body` or `params`. */
  function UsernameSchema(location: string, username: JsValue): (r: SchemaResult<string>)
    ensures r.Success? <==> username.Str?
    ensures r.Success? ==> r.value == Trim(username.s)
    ensures r.Failure? ==> r.issues == [Issue([location, "username"],
                                              Some(if username.Undefined? then UsernameRequired else InvalidInput))]
  {
    var u := PlainUsernameRule(username);
    if u.Valid? then Success(u.value) else Failure(IssuesAt([location, "username"], u))
  }

  datatype ChangePasswordInput = ChangePasswordInput(oldPassword: JsValue, newPassword: JsValue)

  /** `changePasswordSchema` (user.validator.ts:84-106). */
  function ChangePasswordSchema(body: ChangePasswordInput): (r: SchemaResult<(string, string)>)
    ensures r.Success? <==>
      body.oldPassword.Str? && UC.PasswordLengthOk(body.oldPassword.s) &&
      body.newPassword.Str? && UC.PasswordLengthOk(body.newPassword.s)
    ensures r.Success? ==> r.value == (body.oldPassword.s, body.newPassword.s)
  {
    var o := PasswordRule(body.oldPassword, OldPasswordRequired, PasswordTooShort,
                          PasswordTooLong);
    var n := PasswordRule(body.newPassword, NewPasswordRequired, PasswordTooShort,
                          PasswordTooLong);
    if o.Valid? && n.Valid? then Success((o.value, n.value))
    else Failure(IssuesAt(OldPasswordPath, o) + IssuesAt(NewPasswordPath, n))
  }
}
