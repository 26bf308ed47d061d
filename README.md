# YouTube-clone backend: watch history, credentials, validation and error handling

This project is a Dafny model of the behavioural core of an Express/Mongoose video backend.
It covers four parts.

- **Watch history.** The middleware that moves an opened video to the front of the user's `watchHistory` and counts a view the first time it enters (`WatchHistory`).
- **Credential lifecycle.** Token generation, login, logout, refresh, registration checks, password change and detail updates in both the TypeScript and the earlier JavaScript controller, the channel-profile counts, and the `verifyJWT` access check (`UsersController`, `UsersLegacy`, `Auth`, with the stored user records in `Accounts` and the registration e-mail pattern in `Email`).
- **Input validation.** The Zod request schemas for users and videos (`UserValidator`, `VideoValidator`, on the Zod behaviour they use in `Zod`), the `validation` middleware that turns a Zod failure into a 400 error (`ValidationMiddleware`), and the update-set construction of `updateVideoDetails` (`VideoController`).
- **Error handling.** The global error handlers of the TypeScript and JavaScript versions (`ErrorHandler`, `ErrorLegacy`).

Each handler that changes stored state is a method on a class holding that state: `Accounts.UserStore`, `WatchHistory.WatchStore`, `VideoController.VideoStore`, and `Accounts.Request` for `req.user` and the calls made to `next`.
Each such method is proved equal to a specification function, named `...Step`, `ViewAsWritten` or `Classify`. That function gives the result and the new state, and the lemmas state what the handler promises in terms of it.

The following are parameters of the operations that use them, never axioms:
- `jwt.sign`/`jwt.verify`, bcrypt comparison (`Accounts.Crypto`, `Accounts.Signing`);
- Zod's e-mail format test, and its URL check together with the value it stores for an accepted URL;
- JavaScript's `Number(string)`.

A thrown error is a `Common.Result.Fail` carrying either an `ApiError(status, message)` or a runtime `Fault(name, message)`.

## Model

| member | source | states |
|---|---|---|
| WatchHistory.UpdateWatchHistory | src/middlewares/updateWatchHistory.middleware.ts:8-48 | Runs the id check, the existence check, the repeat branch without `return`, and then `$pull`/`$push` at position 0 or `$push` plus `$inc`, as separate store steps. The new history, counters and `next` calls equal `ViewAsWritten`. |
| WatchHistory.WatchStore.Pull | src/middlewares/updateWatchHistory.middleware.ts:32-34 | `$pull` removes every occurrence of the id and keeps the rest in order. Counters are unchanged. |
| WatchHistory.WatchStore.PushFront | src/middlewares/updateWatchHistory.middleware.ts:36-42 | `$push` with `$position: 0` puts the id at index 0 in front of the old history. |
| WatchHistory.WatchStore.IncViews | src/middlewares/updateWatchHistory.middleware.ts:43 | `$inc` raises that video's counter by exactly 1 and changes nothing else. |
| WatchHistory.ViewErrors | src/middlewares/updateWatchHistory.middleware.ts:14-20 | A missing or empty id gives 400 "Video id is required", and an unknown video gives 404 "Video not found". Neither changes the history or the counters, and `next` receives the error once. |
| WatchHistory.ViewMovesToFront | src/middlewares/updateWatchHistory.middleware.ts:29-43 | After a successful call the video is at index 0 and occurs exactly once. The other entries keep their content and relative order. No counter decreases, and the video's counter goes up by 1 exactly when it was not already in the history. |
| WatchHistory.ViewKeepsNoDuplicates | src/middlewares/updateWatchHistory.middleware.ts:29-42 | A history without duplicates stays without duplicates. |
| WatchHistory.RemoveAllRemoves | src/middlewares/updateWatchHistory.middleware.ts:32-34 | After `$pull` the id is absent, and every other id keeps its number of occurrences. |
| WatchHistory.RepeatRefreshCallsNextTwice | src/middlewares/updateWatchHistory.middleware.ts:22-46 | When the head already is the video and the history has no duplicates, the handler as written leaves history and counters unchanged but calls `next()` twice. The corrected handler leaves the same state and calls it once. |
| WatchHistory.ViewCallsNextOnce | src/middlewares/updateWatchHistory.middleware.ts:25-27 | With `return next()`, every input gives exactly one `next` call. The two versions agree everywhere except on the repeat case. |
| Accounts.FindById | src/controllers/users.controller.ts:27-28 | `User.findById` returns the first record with that id, or none when no record has it. |
| Accounts.FindByEmail | src/controllers/users.controller.ts:160-164 | `User.findOne({ email })` returns the first record with that e-mail, or none. |
| Accounts.WithRefreshTokenFacts | src/controllers/users.controller.ts:32-33 | Storing a token on one user sets that user's token and changes no other record. Ids stay unique. |
| Accounts.UserStore.SetRefreshToken | src/controllers/users.controller.ts:32-33 | `user.refreshToken = t; user.save()` replaces only that record's token. |
| UsersController.GenerateAccessAndRefreshToken | src/controllers/users.controller.ts:23-40 | The result and the new user collection equal `GenerateStep`. |
| UsersController.GenerateStoresReturnedToken | src/controllers/users.controller.ts:23-40 | Generation succeeds exactly when the user exists and signing succeeds. The stored refresh token then equals the returned one, and only that user changes. Any failure is an `ApiError` 500 that stores nothing. |
| UsersController.LoginUser | src/controllers/users.controller.ts:157-208 | The result and the new collection equal `LoginStep`. |
| UsersController.FindLoginUser | src/controllers/users.controller.ts:159-164 | A missing e-mail finds no user. Otherwise the lookup is the first record with that e-mail. |
| UsersController.LoginCheckOrder | src/controllers/users.controller.ts:159-177 | The checks run in this order: unknown e-mail gives 404, a missing password gives a TypeError, a length outside 8..16 gives 400, and a wrong password gives 401. Every failure leaves the collection unchanged. |
| UsersController.LoginSingleSession | src/controllers/users.controller.ts:179-206 | A successful login stores the new refresh token in place of any earlier one and changes no other user. The body's `accessToken` equals the cookie's. |
| UsersController.LogoutUser | src/controllers/users.controller.ts:210-235 | Answers OK, and the new collection equals `LogoutStep`. |
| UsersController.LogoutClearsAndIsIdempotent | src/controllers/users.controller.ts:212-222 | Logout unsets the user's stored token and touches no other user. Logging out twice gives the same state as once. |
| UsersController.RefreshAccessToken | src/controllers/users.controller.ts:237-279 | The result and the new collection equal `RefreshStep`. |
| UsersController.RefreshFailuresAre401 | src/controllers/users.controller.ts:239-277 | No cookie object gives 403, and no token gives 401 "Invalid refresh token!". A token that does not verify gives 401 "Invalid refresh Token". Claims naming no user give 401 "User not found". A failed token generation gives a 401 carrying the message of the 500 that generation threw, or "Invalid refresh token" when that message is empty. Once cookies exist every failure is a 401, and no failure changes the collection. |
| UsersController.RefreshUnknownUser | src/controllers/users.controller.ts:247-256 | A token that verifies for an id with no user gives 401 "User not found". The 404 is rewrapped by the catch. |
| UsersController.RefreshIgnoresStoredToken | src/controllers/users.controller.ts:247-265 | The presented token is never compared with the stored one. Even after logout, a verifying token rotates the stored token. |
| UsersController.RegisterAcceptedIff | src/controllers/users.controller.ts:57-99 | Registration passes its checks exactly when no field is blank, the password has 8..16 characters, the lower-cased e-mail matches the pattern, no user has that username or e-mail, and an avatar path is given. |
| UsersController.RegisterCheckOrder | src/controllers/users.controller.ts:60-99 | Blank fields give 400 "Field is required" before anything else. 409 implies the length and e-mail checks passed, and the avatar check runs only after the duplicate check. |
| UsersController.MatchingEmailNotBlank | src/controllers/users.controller.ts:58 | An e-mail that matches the pattern is never blank. |
| UsersController.ChangeCurrentPassword | src/controllers/users.controller.ts:313-342 | The result and the new collection equal `ChangePasswordStep`, in which a missing `newPassword` throws when its `length` is read. |
| UsersController.ChangePasswordOrder | src/controllers/users.controller.ts:320-336 | No user gives 400 "User doesn't exist.". A wrong old password gives 400 "Invalid old password", even when the new password is also bad. After a matching old password, a missing new password throws reading `length`, and a new password outside 8..16 characters gives 400. Success implies a new password of 8..16 characters, and only that user's password changes. A failure changes nothing. |
| UsersController.UpdateDetails | src/controllers/users.controller.ts:344-365 | The result and the new collection equal `UpdateDetailsStep`. |
| UsersController.UpdateDetailsSetsOnlyFullName | src/controllers/users.controller.ts:346-364 | A missing or empty `fullName` gives 400 "All fields are required". Success changes only that user's full name. |
| UsersController.FindByUsername | src/controllers/users.controller.ts:474-477 | The channel match is the first record with that username, or none. |
| UsersController.CountChannelIsMultiplicity | src/controllers/users.controller.ts:479-498 | The subscriber count equals the number of subscriptions whose channel is the user. |
| UsersController.CountSubscriberIsMultiplicity | src/controllers/users.controller.ts:486-501 | The subscribed-to count equals the number of subscriptions whose subscriber is the user. |
| UsersController.SubscribedToIff | src/controllers/users.controller.ts:502-515 | `isSubscribed` holds exactly when some subscription links the requester to the channel. |
| UsersController.ChannelProfileCounts | src/controllers/users.controller.ts:468-544 | A missing or blank username gives 400. Otherwise the answer is a profile exactly when a user has the lower-cased username, and 404 "Channel does not exists!" when none has. A profile carries the lower-cased username, both counts as multiplicities, and `isSubscribed` as membership of the requester among the subscribers. |
| Email.IsValidEmailMatchesPattern | src/controllers/users.controller.ts:58 | The structural check (one `@`, local part, domain with a final dot and at least 2 letters) accepts exactly the strings the regular expression matches. |
| Email.ValidEmailHasOneAt | src/controllers/users.controller.ts:58 | An accepted e-mail has exactly one `@`, after a non-empty local part. |
| Email.OnlyOneAt | src/controllers/users.controller.ts:58 | When everything after an `@` is domain characters, no further `@` follows it. |
| Email.LowerCaseIrrelevant | src/controllers/users.controller.ts:75 | Lower-casing the ASCII letters does not change whether the pattern matches. Full JavaScript lower-casing is listed under "Left out". |
| Email.SplitTransfers | src/controllers/users.controller.ts:58 | A way of splitting a string that matches the pattern also matches any string with the same character classes at every position. |
| Email.EmailAccepted | src/controllers/users.controller.ts:75 | The test applied to the e-mail holds exactly when it matches the pattern. |
| UsersLegacy.GenerateAccessAndRefreshToken | src/controllers/users.controller.js:8-21 | The result and the new collection equal the legacy `GenerateStep`. |
| UsersLegacy.GenerateAgreesWithTypeScript | src/controllers/users.controller.js:8-21 | Generation stores the same token as the TypeScript version, and succeeds on the same inputs. Every failure is 500 "Unable to generate refresh and access token !". |
| UsersLegacy.RegisterDiffersOnlyInPasswordLength | src/controllers/users.controller.js:37-72 | With a password of 8..16 characters, the legacy checks agree with the TypeScript checks. With any other length, the TypeScript checks give 400 once no field is blank. |
| UsersLegacy.RegisterIgnoresPassword | src/controllers/users.controller.js:38-49 | Any two passwords that are not blank, sent or not, get the same answer from the legacy checks for the same request: the length is never checked. |
| UsersLegacy.RegisterAcceptsShortPassword | src/controllers/users.controller.js:38-49 | A one-character password passes the legacy checks and is refused by the TypeScript ones. |
| UsersLegacy.LoginUser | src/controllers/users.controller.js:121-160 | The result and the new collection equal the legacy `LoginStep`. |
| UsersLegacy.LoginOutcomes | src/controllers/users.controller.js:122-151 | Unknown e-mail gives 404 and a wrong password gives 401, with no length check. Success stores the new refresh token for that user only. |
| UsersLegacy.LogoutUser | src/controllers/users.controller.js:162-185 | The stored token becomes undefined, as in `LogoutStep`. |
| UsersLegacy.RefreshAccessToken | src/controllers/users.controller.js:187-230 | With the token read from `req.cookies?.refreshToken`, falling back to `req.body.refreshToken`, the result and the new collection equal `Refresh`. |
| UsersLegacy.RefreshAsWrittenNeverSucceeds | src/controllers/users.controller.js:188-189 | Reading `req.cookie.refreshToken` throws a TypeError on every request and changes nothing. With `req.cookies`, the same request succeeds and rotates the token. |
| UsersLegacy.RefreshOutcomes | src/controllers/users.controller.js:188-229 | With no token in the cookie or the body the result is 401 "Invalid refresh token!". Inside the `try`, every failure is a 401 carrying the thrown message, or "Invalid refresh token" when that message is empty: the verifier's message, "Invalid refresh token!" for claims naming no user, and the 500's message when generation fails. No failure changes the collection. Success stores the new token for the token's user only, and returns the access token in the body and in the cookie. |
| UsersLegacy.ChangeCurrentPassword | src/controllers/users.controller.js:263-280 | The result and the new collection equal the legacy `ChangePasswordStep`. |
| UsersLegacy.ChangePasswordAcceptsAnyLength | src/controllers/users.controller.js:263-280 | Success holds exactly when the user exists and the old password matches, whatever the new password's length. For lengths 8..16 the result agrees with the TypeScript version. |
| UsersLegacy.UpdateDetails | src/controllers/users.controller.js:282-307 | The result and the new collection equal the legacy `UpdateDetailsStep`. |
| UsersLegacy.UpdateDetailsSetsBoth | src/controllers/users.controller.js:283-302 | Success holds exactly when both `fullName` and `email` are given and the user exists. It sets exactly those two fields of that user. |
| Auth.ExtractToken | src/middlewares/auth.middleware.ts:11-13 | A truthy `accessToken` cookie is the token. Otherwise a token exists exactly when the Authorization header does. |
| Auth.VerifyJWT | src/middlewares/auth.middleware.ts:9-33 | On success `req.user` is the loaded user and `next()` is called once. On failure `req.user` is unchanged and `next` receives the error once. |
| Auth.AuthenticateOutcomes | src/middlewares/auth.middleware.ts:15-28 | Success holds exactly when there is a token, it verifies to an id, and that id has a user. No token gives 401 "Unauthorized request", verification errors pass through unchanged, and claims naming no user give 401 "Invalid Access Token!". |
| Auth.BearerHeaderYieldsToken | src/middlewares/auth.middleware.ts:13 | "Bearer t" yields t. |
| Auth.BareBearerIsUnauthorized | src/middlewares/auth.middleware.ts:13-17 | A header of just "Bearer " leaves the empty string, which gives 401. |
| Auth.HeaderWithoutPrefixIsTheToken | src/middlewares/auth.middleware.ts:13 | A header without "Bearer " is used whole. |
| Auth.ReplaceIsUnanchored | src/middlewares/auth.middleware.ts:13 | The first "Bearer " is removed wherever it occurs, not only at the start. |
| ErrorHandler.GlobalErrorHandler | src/middlewares/error.middleware.ts:11-64 | The cascade of overwriting checks gives exactly `Classify`, which is stated by priority: the last matching check wins. |
| ErrorHandler.JsonFailureOverridesAll | src/middlewares/error.middleware.ts:50-56 | A parse failure, or "JSON" in the message, gives 400 "Invalid JSON body provided" whatever else the error carries. |
| ErrorHandler.ApiErrorKeepsItsFields | src/middlewares/error.middleware.ts:15-19 | An error with a truthy status keeps its status, message and error list, or [] when it has none. |
| ErrorHandler.DuplicateKeyKeepsErrors | src/middlewares/error.middleware.ts:29-33 | A duplicate key gives 409 and the joined key names, and leaves `errors` as the earlier checks set it. |
| ErrorHandler.ResponseShape | src/middlewares/error.middleware.ts:58-64 | Every response has `success: false` and `data: null`, and carries the stack only in development. The status is 400, 401, 409, 500 or the error's own. |
| ErrorHandler.ThrowsOnlyWithoutMessage | src/middlewares/error.middleware.ts:50-52 | The handler throws exactly when it reads the message of an error without one that is not a parse failure. |
| ErrorLegacy.LegacyGlobalErrorHandler | src/middlewares/error.middleware.js:5-37 | The cascade, the early return and the final override give exactly `LegacyClassify`. |
| ErrorLegacy.ApiErrorIsNotAnswered | src/middlewares/error.middleware.js:5-7 | An `ApiError` is returned to Express unanswered. |
| ErrorLegacy.OwnMessageOverrides | src/middlewares/error.middleware.js:35-37 | An error with a name and a message is answered with its own message, and the cascade's status is kept. |
| ErrorLegacy.CascadeMessageNeedsNamelessError | src/middlewares/error.middleware.js:9-37 | The cascade's message reaches the client only when the error lacks a name or a message. |
| ErrorLegacy.MissingFieldsThrow | src/middlewares/error.middleware.js:13-23 | A `ValidationError` without `errors`, or a duplicate key without `keyValue`, makes the handler throw. |
| ErrorLegacy.TokenErrorsAre500 | src/middlewares/error.middleware.js:9-37 | Token errors are answered 500 with their own message, where the TypeScript handler answers 401. |
| ErrorLegacy.StatusAgreesWithTypeScript | src/middlewares/error.middleware.js:9-33 | On errors with no status or token marker, both handlers choose the same status. |
| Zod.ZString | src/validators/user.validator.ts:5-11 | A non-string fails its type check alone. A string passes exactly when its possibly trimmed form is within the bounds, and the output is that form. A too-short string reports the min message first. |
| Zod.ZStringTooShort | src/validators/video.validator.ts:62-67 | A string whose (trimmed) length is below the minimum and not above the maximum fails with the minimum's message alone, and the failure does not abort. |
| Zod.ZOptional | src/validators/video.validator.ts:62-73 | `undefined` passes as absent. Anything else passes exactly when the inner schema does. |
| Zod.IssuesAt | src/middlewares/validation.middleware.ts:20-23 | A passing field reports no issue. A failing one reports one issue per message, all at the field's path. |
| UserValidator.FullNameRule | src/validators/user.validator.ts:5-11 | The value passes exactly when it is a string with at least 3 characters after trimming, and the output is trimmed. A non-string gets "Full name is required" for every falsy input. |
| UserValidator.EmailRule | src/validators/user.validator.ts:13-21 | The value passes exactly when it is a string in e-mail format. The output is lower-cased, then trimmed. A missing value gets "Email is required". |
| UserValidator.RegisterUsernameRule | src/validators/user.validator.ts:23-29 | The value passes exactly when it is a string with at least 3 characters after trimming. "required" is the message only for a missing value. |
| UserValidator.PlainUsernameRule | src/validators/user.validator.ts:62-82 | Any string passes, trimmed, with no length bound. |
| UserValidator.PasswordRule | src/validators/user.validator.ts:31-37 | The value passes exactly when it is a string of 8..16 characters. It is not trimmed. |
| UserValidator.RegisterSchemaSuccess | src/validators/user.validator.ts:3-39 | `registerSchema` accepts exactly when all four field rules do, and its output is trimmed, with the e-mail lower-cased and the password as sent. |
| UserValidator.RegisterSchemaIssues | src/validators/user.validator.ts:3-39 | A rejected body reports at least one issue, every one under `body`. |
| UserValidator.RegisterPasswordAgreesWithHandler | src/validators/user.validator.ts:31-37 | The schema and the registration handler accept the same password lengths. |
| UserValidator.RequiredMessagesDiffer | src/validators/user.validator.ts:5-29 | Every falsy non-string value gets "Full name is required", while for the username only a missing field gets "Username is required" and any other falsy value gets "Invalid input". |
| UserValidator.LoginSchema | src/validators/user.validator.ts:41-60 | Accepts exactly a formatted e-mail and an 8..16-character password. The output e-mail is normalised and the password is kept as sent. |
| UserValidator.UsernameSchema | src/validators/user.validator.ts:62-82 | Any string username passes, trimmed. Otherwise there is one issue at `body.username` or `params.username`. |
| UserValidator.ChangePasswordSchema | src/validators/user.validator.ts:84-106 | Accepts exactly when both passwords have 8..16 characters. |
| VideoValidator.TitleRule | src/validators/video.validator.ts:5-14 | The value passes exactly when it is a string with 2..100 characters after trimming, and the output is trimmed. |
| VideoValidator.DescriptionRule | src/validators/video.validator.ts:16-24 | The value passes exactly when it is a string with at most 400 characters after trimming. Empty is allowed. |
| VideoValidator.VideoUrlRule | src/validators/video.validator.ts:26-29 | The value passes exactly when it is a string Zod's URL check accepts; the output is the value that check writes back, not necessarily the string as sent; a non-string aborts with "url is required" or "Invalid url". |
| VideoValidator.PublicIdRule | src/validators/video.validator.ts:31-34 | Any string passes. |
| VideoValidator.DurationRule | src/validators/video.validator.ts:36 | The value passes exactly when it coerces to a number greater than 0, and the output is that number. |
| VideoValidator.IsPublishedRule | src/validators/video.validator.ts:38-45 | The value passes exactly for "true" and "false", and the output is true exactly for "true". |
| VideoValidator.VideoRequestAcceptsIff | src/validators/video.validator.ts:3-47 | The upload schema accepts exactly when every field rule does; the output has the title and description trimmed, the URL as Zod's check rewrites it, the public id as sent, a positive duration and the boolean `isPublished` names. |
| VideoValidator.VideoIdRule | src/validators/video.validator.ts:51-58 | The value passes exactly when it is a string of 24 hexadecimal digits, in either case. |
| VideoValidator.UpdateVideoAcceptsIff | src/validators/video.validator.ts:49-78 | The update schema accepts exactly when the id is valid, each given field is within bounds, and a title or a non-blank description is given. The output fields are trimmed. |
| VideoValidator.RefineSkippedAfterTypeError | src/validators/video.validator.ts:62-77 | With a valid id and no description, any title that is given but is not a string stops the refine, so only its type issue is reported. |
| VideoValidator.TitleOnlyIssues | src/validators/video.validator.ts:49-78 | With a valid id and no description, a title that fails its checks without a type error is reported alone. The refine issue follows exactly when the refine sees no title. |
| VideoValidator.ShortTitleRule | src/validators/video.validator.ts:62-77 | A title shorter than 2 characters after trimming fails only its minimum-length check. |
| VideoValidator.ShortTitleIssues | src/validators/video.validator.ts:62-77 | A title shorter than 2 characters after trimming reports its length issue. A one-character title still satisfies the refine. An empty or all-whitespace title also gets the refine issue, after the length issue. |
| ValidationMiddleware.FieldIssues | src/middlewares/validation.middleware.ts:20-23 | There is one `{field, message}` per issue, in order, and the field is the path joined with ".". |
| ValidationMiddleware.SummaryEmptyIff | src/middlewares/validation.middleware.ts:25-33 | The summary is empty exactly when there are no issues. |
| ValidationMiddleware.SummarySnoc | src/middlewares/validation.middleware.ts:25-27 | The summary lists the issues in order, separated by ", ". |
| ValidationMiddleware.ValidateOutcomes | src/middlewares/validation.middleware.ts:11-38 | Success calls `next()`. A `ZodError` becomes 400 "VALIDATION_ERROR" with the field issues in order, and with the summary, or the error's message exactly when there are no issues. Other errors are forwarded unchanged. |
| ValidationMiddleware.SingleIssueSummary | src/middlewares/validation.middleware.ts:20-27 | One issue at `[location, field]` reads "location.field: message". |
| VideoController.TitleEntry | src/controllers/video.controller.ts:130-136 | A missing title adds nothing. A string title is refused or added trimmed, depending on the check. A non-string title makes `trim` throw. |
| VideoController.DescriptionEntry | src/controllers/video.controller.ts:137 | A given description is added trimmed. |
| VideoController.BuildUpdate | src/controllers/video.controller.ts:126-141 | A missing id gives 400. An accepted update sets at least one field, sets exactly the given fields in trimmed form, and never sets an empty title. |
| VideoController.BuildUpdateErrors | src/controllers/video.controller.ts:129-141 | A blank title gives 400 "Title cannot be empty". No fields gives 400 "Provide at least one field to update". A non-blank title or a string description is accepted. |
| VideoController.AsWrittenRejectsEveryRealTitle | src/controllers/video.controller.ts:130-136 | As written, every title that is not blank after trimming is refused with "Title cannot be empty". |
| VideoController.AsWrittenStoresBlankTitle | src/controllers/video.controller.ts:130-136 | As written, any title that is empty or all whitespace is accepted and sets the title to "", where the corrected check gives 400. |
| VideoController.SchemaValidRequests | src/controllers/video.controller.ts:126-141 | Every request the update schema accepts with a title is refused as written. The corrected builder sets exactly the fields the schema outputs. |
| VideoController.FindOwned | src/controllers/video.controller.ts:143-145 | The match is the first video with both that id and that owner, and none exactly when no video has both. |
| VideoController.Applied | src/controllers/video.controller.ts:146-148 | `$set` changes only title and description. Id, owner and views are kept. |
| VideoController.UpdateTouchesOnlyOwnedVideo | src/controllers/video.controller.ts:143-153 | Only the caller's own video with that id changes, with no video found the result is 404, and a failure changes nothing. |
| VideoController.VideoStore.UpdateVideoDetails | src/controllers/video.controller.ts:120-160 | The handler, with the corrected title check: the result and the new collection equal `UpdateVideoDetailsStep`. |

## Left out

- The token signing and verification library, password hashing and comparison, and Zod's e-mail pattern and URL check (including how it normalises an accepted URL) are parameters. They are foreign libraries whose code is not part of this model.
- Media uploads and their clean-up on failure in `registerUser`, the creation of the user record after the checks, cookie options and response serialisation are not modelled: these are remote I/O and HTTP plumbing. `RegisterChecks` stops at the last check.
- The store steps are not atomic. The watch-history `$pull`, `$push` and `$inc` are modelled as separate sequential steps, and no interleaving with other requests is modelled.
- A user deleted between authentication and the watch-history update is not modelled: the user is taken as present, as the handler's `user!` does.
- Ids are canonical strings. Mongoose's ObjectId casting, and the `CastError` a malformed id would raise in a query, are not modelled.
- `toLowerCase` is modelled on ASCII letters only. JavaScript's `toLowerCase` also maps a few non-ASCII characters to ASCII letters (the Kelvin sign to "k"), so `Email.EmailAccepted` and `Email.LowerCaseIrrelevant` do not cover addresses containing them. String lengths count code points, not UTF-16 code units.
- `findOne({ email: undefined })` is taken to match no record.
- The unique indexes on username and e-mail are represented only by the lookups, which take the first match.
- `logoutUser` passes the user's id directly as the `findOneAndUpdate` filter. It is modelled as clearing the authenticated user's token.
- The legacy `logoutUser` `$set` of `refreshToken: undefined` is modelled as unsetting the field, which depends on the Mongoose version.
- `UsersController.RegisterBody` (and so `UsersController.RegisterChecks`) holds each body field as a string or absent. A JSON `null`, number, boolean or object cannot be expressed, so the TypeError `trim` raises on a non-string field, the TypeError reading `length` of a `null` password, and an object e-mail acting as a query operator are not modelled.
- `UsersController.LoginStep` takes the e-mail and password as strings or absent. A non-string password, which passes the length test because its `length` is `undefined`, and an object e-mail acting as a query operator are not modelled.
- `UsersController.UpdateDetailsStep` takes `fullName` as a string or absent. A truthy non-string `fullName`, which the source stores as sent, is not modelled.
- `UsersLegacy.RegisterChecks` takes the same `RegisterBody`, so the TypeError `trim` raises on a non-string field and an object e-mail acting as a query operator are not modelled.
- `UsersLegacy.UpdateDetailsStep` takes `fullName` and `email` as strings or absent. Truthy non-string values, which the source stores as sent, are not modelled.
- `UsersLegacy.RefreshBody` holds the body's `refreshToken` as a string or absent. A non-string token, which goes to the verifier as sent, is not modelled.
- `UsersLegacy.LoginStep` takes the password as a string, so a missing password in the legacy login is not modelled.
- `UsersController.ChangePasswordStep` takes the old password as a string. A missing old password reaches the hashing library's comparison, whose error is not part of this model.
- `UsersLegacy.ChangePasswordStep` takes the password as a string, so a missing password in the legacy password change is not modelled.
- The `ApiError` class is not part of this model. `ValidationMiddleware.NextArg` keeps its four constructor arguments in the order they are passed, because which fields they land in is decided there.
- Zod is modelled only for the constructs the schemas use. After the type check, all checks run. A type error stops the object's `refine`. Zod's own default messages are `None`.
- `z.coerce.number` on a string goes through the `toNumber` parameter.
- The ObjectId-shaped `params` are assumed present as an object.
- `updateVideoSchema` is not exported, so no route uses it. The routes declare `:videoId` while `updateVideoDetails` reads `req.params.id`, so through the real route the id is always missing and the answer is 400 (`VideoController.BuildUpdate`'s first clause).
- `VideoController.VideoStore.UpdateVideoDetails` uses the corrected title check. The check as written is `VideoController.BuildUpdateAsWritten`, and its consequences are proved as lemmas.
- `UsersLegacy.RefreshAccessToken` reads the refresh token as `req.cookies?.refreshToken || req.body.refreshToken`, which is the corrected handler. The handler as written is `UsersLegacy.RefreshAsWritten`.
- `getWatchHistory`, avatar and cover-image updates and the other video handlers are not modelled. They are database aggregation or remote I/O.

## Findings

| source | as written | input that shows it | evidently intended | confidence | as-written member | corrected member |
|---|---|---|---|---|---|---|
| src/middlewares/updateWatchHistory.middleware.ts:25-27 | `next()` in the repeat branch without `return`, so the handler carries on and calls `next()` again at line 46 | the user reopens the video at the front of the history | `return next()`: one call, no store change | high (not executed) | WatchHistory.RepeatRefreshCallsNextTwice | WatchHistory.ViewCallsNextOnce |
| src/controllers/users.controller.js:188-189 | `req.cookie.refreshToken` (Express sets `req.cookies`), a read of `undefined` | any refresh request | read `req.cookies?.refreshToken` | high (not executed) | UsersLegacy.RefreshAsWrittenNeverSucceeds | UsersLegacy.RefreshOutcomes |
| src/controllers/video.controller.ts:132-135 | `if (trimmedTitle) throw "Title cannot be empty"`: non-blank titles are refused and blank ones stored | `{ title: "My video" }` | `if (!trimmedTitle)` | high (not executed) | VideoController.AsWrittenRejectsEveryRealTitle | VideoController.BuildUpdateErrors |
