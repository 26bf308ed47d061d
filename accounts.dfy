/** The user collection as the controllers and middleware see it, and the foreign calls they
    make on it. The collection is a sequence of account records in the store's natural
    order; `findById` and `findOne` return the first record that matches. */
module Accounts {
  import opened Common

  type UserId = string
  type Token = string

  /** One user record: the fields the handlers read or write. `password` is whatever the
      model stores for the password (hashing happens in a save hook that is not part of this
      model; `Crypto.passwordMatches` compares against it). */
  datatype Account = Account(
    id: UserId,
    email: string,
    username: string,
    fullName: string,
    password: string,
    refreshToken: Option<Token>)

  /** What `jwt.verify` produces: the decoded payload's `_id` (absent in a token signed
      without one), or the error it throws, by `name` and `message`. */
  datatype Decoded = Claims(id: Option<UserId>) | VerifyError(name: string, message: string)

  /** The library calls the handlers depend on, fixed by the environment: `jwt.verify` under
      the access-token and the refresh-token secrets, and the user model's
      `isPasswordCorrect` as (stored password, candidate) -> match. */
  datatype Crypto = Crypto(
    verifyAccess: Token -> Decoded,
    verifyRefresh: Token -> Decoded,
    passwordMatches: (string, string) -> bool)

  /** What `generateAccessToken()`/`generateRefreshToken()` and `save()` produced on one
      call: the signed pair, or a thrown value (its `message` when it is an `Error`). */
  datatype Signing = Signed(access: Token, refresh: Token) | SigningFailed(message: Option<string>)

  datatype TokenPair = TokenPair(accessToken: Token, refreshToken: Token)

  /** `req.cookies`: missing altogether, or the parsed cookie jar with the two cookies the
      handlers read. */
  datatype Cookies = NoCookieObject | CookieJar(accessToken: Option<string>, refreshToken: Option<string>)

  /** `User.findById(id)`: index of the first record with that id. */
  function FindById(accounts: seq<Account>, id: UserId): (r: Option<nat>)
    ensures r.Some? ==> r.value < |accounts| && accounts[r.value].id == id
    ensures r.Some? ==> forall k :: 0 <= k < r.value ==> accounts[k].id != id
    ensures r.None? ==> forall k :: 0 <= k < |accounts| ==> accounts[k].id != id
  {
    if |accounts| == 0 then None
    else if accounts[0].id == id then Some(0)
    else match FindById(accounts[1..], id)
      case None => None
      case Some(k) => Some(k + 1)
  }

  /** `User.findOne({ email })`: index of the first record with that e-mail. */
  function FindByEmail(accounts: seq<Account>, email: string): (r: Option<nat>)
    ensures r.Some? ==> r.value < |accounts| && accounts[r.value].email == email
    ensures r.Some? ==> forall k :: 0 <= k < r.value ==> accounts[k].email != email
    ensures r.None? ==> forall k :: 0 <= k < |accounts| ==> accounts[k].email != email
  {
    if |accounts| == 0 then None
    else if accounts[0].email == email then Some(0)
    else match FindByEmail(accounts[1..], email)
      case None => None
      case Some(k) => Some(k + 1)
  }

  /** `_id` is the collection's primary key. */
  ghost predicate UniqueIds(accounts: seq<Account>)
  {
    forall j, k :: 0 <= j < k < |accounts| ==> accounts[j].id != accounts[k].id
  }

  /** With unique ids, looking a record up by its own id finds that record. */
  lemma FindOwnId(accounts: seq<Account>, i: nat)
    requires UniqueIds(accounts) && i < |accounts|
    ensures FindById(accounts, accounts[i].id) == Some(i)
  {
  }

  /** The refresh token stored for `id`, if that user exists. */
  function StoredToken(accounts: seq<Account>, id: UserId): Option<Token>
  {
    match FindById(accounts, id)
    case None => None
    case Some(i) => accounts[i].refreshToken
  }

  /** The collection with record `i`'s refresh token replaced. */
  function WithRefreshToken(accounts: seq<Account>, i: nat, t: Option<Token>): seq<Account>
    requires i < |accounts|
  {
    accounts[i := accounts[i].(refreshToken := t)]
  }

  /** `b` is `a` with at most the refresh token of the user `id` changed. */
  ghost predicate OnlyTokenOf(a: seq<Account>, b: seq<Account>, id: UserId)
  {
    && |a| == |b|
    && forall k :: 0 <= k < |a| ==>
         b[k] == a[k].(refreshToken := b[k].refreshToken) && (a[k].id != id ==> b[k] == a[k])
  }

  /** Replacing a refresh token keeps ids, so uniqueness survives and the token can be read
      back; nothing but that user's token changes. */
  lemma WithRefreshTokenFacts(accounts: seq<Account>, i: nat, t: Option<Token>)
    requires UniqueIds(accounts) && i < |accounts|
    ensures UniqueIds(WithRefreshToken(accounts, i, t))
    ensures StoredToken(WithRefreshToken(accounts, i, t), accounts[i].id) == t
    ensures OnlyTokenOf(accounts, WithRefreshToken(accounts, i, t), accounts[i].id)
  {
    FindOwnId(WithRefreshToken(accounts, i, t), i);
  }

  /** The `users` collection, updated in place by the handlers. */
  class UserStore {
    var accounts: seq<Account>

    ghost predicate Valid()
      reads this
    {
      UniqueIds(accounts)
    }

    constructor (initial: seq<Account>)
      requires UniqueIds(initial)
      ensures Valid() && accounts == initial
    {
      accounts := initial;
    }

    /** `user.refreshToken = t; user.save()` (or `$unset`/`$set` of the field). */
    method SetRefreshToken(i: nat, t: Option<Token>)
      requires Valid() && i < |accounts|
      modifies this
      ensures Valid()
      ensures accounts == WithRefreshToken(old(accounts), i, t)
    {
      WithRefreshTokenFacts(accounts, i, t);
      accounts := accounts[i := accounts[i].(refreshToken := t)];
    }

    /** `user.password = p; user.save()`. */
    method SetPassword(i: nat, p: string)
      requires Valid() && i < |accounts|
      modifies this
      ensures Valid()
      ensures accounts == old(accounts)[i := old(accounts)[i].(password := p)]
    {
      accounts := accounts[i := accounts[i].(password := p)];
    }

    /** `findByIdAndUpdate(id, { $set: { fullName, email } })` with the given fields. */
    method SetDetails(i: nat, fullName: string, email: string)
      requires Valid() && i < |accounts|
      modifies this
      ensures Valid()
      ensures accounts == old(accounts)[i := old(accounts)[i].(fullName := fullName, email := email)]
    {
      accounts := accounts[i := accounts[i].(fullName := fullName, email := email)];
    }
  }

  /** The parts of the Express request the middleware writes: `req.user`, and the calls made
      to `next`, each with its error argument (`None` for a plain `next()`). */
  class Request {
    var user: Option<Account>
    var nextCalls: seq<Option<Thrown>>

    constructor ()
      ensures user == None && nextCalls == []
    {
      user := None;
      nextCalls := [];
    }
  }
}
