/** The login and token-check endpoints. The user lookup, the password
    digest, token signing and token verification are parameters; the
    handlers are the decisions made over their results. */
module Auth {
  import opened Text
  import opened Js
  import opened Http
  import opened Crypto
  import opened Tokens

  /** A stored `users` row, its columns in table order. */
  type Row = seq<(string, Value)>

  /** `SELECT * FROM users WHERE username = ?` bound to the given value:
      the first matching row, no row, or a store failure. */
  type UserLookup = Value -> Attempt<Option<Row>>

  const MissingCredentials := "缺少用户名或密码"
  const BadCredentials := "用户名或密码错误"
  const LoginFallback := "登录失败"
  const MissingToken := "未提供认证令牌"
  const InvalidToken := "无效的令牌"

  /** `const { password: _, ...rest } = row`: every own property but `key`,
      in the row's order. */
  function Without(row: Row, key: string): (rest: Row)
    ensures |rest| <= |row|
    ensures forall i :: 0 <= i < |rest| ==> rest[i].0 != key
    ensures forall p :: p in rest <==> p in row && p.0 != key
  {
    if row == [] then []
    else
      var init := Without(row[..|row| - 1], key);
      var last := row[|row| - 1];
      assert row == row[..|row| - 1] + [last];
      if last.0 == key then init else init + [last]
  }

  /** Reading any other property of the stripped row gives what the stored
      row holds; the stripped property reads as `undefined`. */
  lemma {:induction false} WithoutLookup(row: Row, key: string, other: string)
    ensures Lookup(Without(row, key), key) == Undefined
    ensures other != key ==> Lookup(Without(row, key), other) == Lookup(row, other)
  {
    if row != [] {
      var init := row[..|row| - 1];
      WithoutLookup(init, key, other);
      var last := row[|row| - 1];
      if last.0 != key {
        assert Without(row, key)[..|Without(row, key)| - 1] == Without(init, key);
      }
    }
  }

  /** `verifyPassword(body.password, user.password)`: the typed password is
      converted to a string, hashed, and compared strictly with the stored
      value, so a stored value that is not a string never matches. */
  function PasswordMatches(h: Hasher, password: Value, stored: Value): bool {
    match stored
    case Str(hashed) => VerifyPassword(h, ToJsString(password), hashed)
    case _ => false
  }

  /** `{user: <row without password>, token}` */
  function LoginData(row: Row, token: string): Value {
    Obj([("user", Obj(Without(row, "password"))), ("token", Str(token))])
  }

  /** The claims the token is issued for: the stored row's `username` and `id`. */
  function RowClaims(row: Row): Claims {
    Claims(Lookup(row, "username"), Lookup(row, "id"))
  }

  /** `POST /api/auth`. `body` is the outcome of `request.json()`. */
  function Login(body: Attempt<Value>, findUser: UserLookup, h: Hasher, issue: Issuer): Response {
    match body
    case Throws(t) => Failure(t, LoginFallback)
    case Done(v) =>
      if Nullish(v) then Failure(ReadError(v, "username"), LoginFallback)
      else if !Truthy(Get(v, "username")) || !Truthy(Get(v, "password")) then
        ErrorResponse(400, MissingCredentials)
      else
        match findUser(Get(v, "username"))
        case Throws(t) => Failure(t, LoginFallback)
        case Done(None) => ErrorResponse(401, BadCredentials)
        case Done(Some(row)) =>
          if !PasswordMatches(h, Get(v, "password"), Lookup(row, "password")) then
            ErrorResponse(401, BadCredentials)
          else
            match issue(RowClaims(row))
            case Throws(t) => Failure(t, LoginFallback)
            case Done(token) => JsonResponse(200, SuccessBody(LoginData(row, token)), map[])
  }

  /** The body carries a truthy username and a truthy password. */
  predicate HasCredentials(v: Value) {
    !Nullish(v) && Truthy(Get(v, "username")) && Truthy(Get(v, "password"))
  }

  /** A body without a username or a password is refused with 400 before the
      store is consulted: the answer is the same whatever the lookup does. */
  lemma LoginMissingCredentials(v: Value, findUser: UserLookup, other: UserLookup,
                                h: Hasher, issue: Issuer)
    requires !Nullish(v) && !HasCredentials(v)
    ensures Login(Done(v), findUser, h, issue) == ErrorResponse(400, MissingCredentials)
    ensures Login(Done(v), findUser, h, issue) == Login(Done(v), other, h, issue)
    ensures Login(Done(v), findUser, h, issue).body == Json(ErrorBody("缺少用户名或密码"))
  {
  }

  /** An unknown username and a wrong password give the very same 401, so a
      caller cannot tell which of the two it was. */
  lemma LoginFailuresIndistinguishable(v: Value, findUser: UserLookup, other: UserLookup,
                                       h: Hasher, issue: Issuer)
    requires HasCredentials(v)
    requires findUser(Get(v, "username")) == Done(None)
    requires other(Get(v, "username")).Done? && other(Get(v, "username")).value.Some?
    requires !PasswordMatches(h, Get(v, "password"),
                              Lookup(other(Get(v, "username")).value.value, "password"))
    ensures Login(Done(v), findUser, h, issue) == Login(Done(v), other, h, issue)
    ensures Login(Done(v), findUser, h, issue).status == 401
    ensures Login(Done(v), findUser, h, issue).body == Json(ErrorBody("用户名或密码错误"))
  {
  }

  /** A login succeeds (status 200) exactly when the body has both
      credentials, the store finds a row for the username, the password
      hashes to the row's stored string, and signing does not throw. */
  lemma LoginSucceedsIff(v: Value, findUser: UserLookup, h: Hasher, issue: Issuer)
    ensures Login(Done(v), findUser, h, issue).status == 200
        <==> && HasCredentials(v)
             && findUser(Get(v, "username")).Done?
             && findUser(Get(v, "username")).value.Some?
             && var row := findUser(Get(v, "username")).value.value;
                && Lookup(row, "password") == Str(HashPassword(h, ToJsString(Get(v, "password"))))
                && issue(RowClaims(row)).Done?
  {
  }

  /** On success the token is issued for exactly the row's username and id,
      and the user returned is the row minus its password: every other
      column reads as stored, and no password is present. */
  lemma LoginSuccessData(v: Value, findUser: UserLookup, h: Hasher, issue: Issuer, row: Row,
                         token: string, column: string)
    requires HasCredentials(v)
    requires findUser(Get(v, "username")) == Done(Some(row))
    requires PasswordMatches(h, Get(v, "password"), Lookup(row, "password"))
    requires issue(Claims(Lookup(row, "username"), Lookup(row, "id"))) == Done(token)
    ensures Login(Done(v), findUser, h, issue).body
         == Json(SuccessBody(Obj([("user", Obj(Without(row, "password"))), ("token", Str(token))])))
    ensures Lookup(Without(row, "password"), "password") == Undefined
    ensures column != "password" ==> Lookup(Without(row, "password"), column) == Lookup(row, column)
  {
    WithoutLookup(row, "password", column);
  }

  /** Every thrown error, from parsing, from reading a property of a null
      body, from the store or from signing, ends in 500 with
      `success: false`. */
  lemma LoginStatuses(body: Attempt<Value>, findUser: UserLookup, h: Hasher, issue: Issuer)
    ensures var r := Login(body, findUser, h, issue);
      && r.status in {200, 400, 401, 500}
      && (r.status == 500 <==>
            || body.Throws?
            || (body.Done? && Nullish(body.value))
            || (HasCredentials(body.value) && findUser(Get(body.value, "username")).Throws?)
            || (HasCredentials(body.value) && findUser(Get(body.value, "username")).Done?
                && findUser(Get(body.value, "username")).value.Some?
                && var row := findUser(Get(body.value, "username")).value.value;
                   PasswordMatches(h, Get(body.value, "password"), Lookup(row, "password"))
                   && issue(RowClaims(row)).Throws?))
      && (r.status == 500 ==> r.body.value.fields[0] == ("success", Bool(false)))
  {
  }

  /** `GET /api/auth`: the bearer check and the verifier's verdict. The
      verifier catches its own failures, so this handler never reaches its
      `catch` branch. */
  function CheckToken(authorization: Option<string>, verify: Verifier): Response {
    match BearerToken(authorization)
    case None => ErrorResponse(401, MissingToken)
    case Some(token) =>
      match verify(token)
      case None => ErrorResponse(401, InvalidToken)
      case Some(claims) =>
        JsonResponse(200, SuccessBody(Obj([("username", claims.username),
                                           ("userId", claims.userId),
                                           ("valid", Bool(true))])), map[])
  }

  /** A header that is absent or lacks the `Bearer ` prefix is refused with
      401 whatever the verifier would say. */
  lemma CheckTokenMissing(authorization: Option<string>, verify: Verifier, other: Verifier)
    requires authorization.None? || !StartsWith(authorization.value, BearerPrefix)
    ensures CheckToken(authorization, verify) == ErrorResponse(401, MissingToken)
    ensures CheckToken(authorization, verify) == CheckToken(authorization, other)
  {
  }

  /** For a `Bearer <token>` header the answer is 401 exactly when the
      verifier rejects the token, and otherwise reports the claims it
      carries with `valid: true`. */
  lemma CheckTokenVerdict(token: string, verify: Verifier)
    ensures var r := CheckToken(Some(BearerPrefix + token), verify);
      && (verify(token).None? ==> r == ErrorResponse(401, InvalidToken))
      && (verify(token).Some? ==>
            r.status == 200
            && r.body == Json(SuccessBody(Obj([("username", verify(token).value.username),
                                               ("userId", verify(token).value.userId),
                                               ("valid", Bool(true))]))))
  {
    BearerTokenIff(Some(BearerPrefix + token), token);
  }
}
