/** The login endpoint (src/app/api/auth/login/route.ts): checks that both
    credentials are present, calls `login` and maps its result to a status. */
module ApiLogin {
  import opened Common
  import opened Store
  import opened Auth

  /** `{ email, password }` from the JSON body; absent keys are None. */
  datatype LoginBody = LoginBody(email: Option<string>, password: Option<string>)

  datatype LoginReply = LoginReply(status: int, body: LoginResult)

  const MissingCredentialsMessage := "Email y contraseña son requeridos"

  predicate Truthy(s: Option<string>) {
    s.Some? && s.value != ""
  }

  /** The reply for a request body (None when it does not parse) against the
      stored users. */
  function LoginReplyFor(body: Option<LoginBody>, users: seq<User>, hash: string -> string): (r: LoginReply)
    ensures body.None? ==> r == LoginReply(500, LoginResult(false, InternalError, None))
    ensures body.Some? && !(Truthy(body.value.email) && Truthy(body.value.password)) ==>
              r == LoginReply(400, LoginResult(false, MissingCredentialsMessage, None))
    ensures body.Some? && Truthy(body.value.email) && Truthy(body.value.password) ==>
              && r.body == LoginOutcome(users, body.value.email.value, body.value.password.value, hash)
              && (r.status == 200 <==> r.body.success)
              && (r.status == 401 <==> !r.body.success)
  {
    match body
    case None => LoginReply(500, LoginResult(false, InternalError, None))
    case Some(b) =>
      if !Truthy(b.email) || !Truthy(b.password) then LoginReply(400, LoginResult(false, MissingCredentialsMessage, None))
      else
        var result := LoginOutcome(users, b.email.value, b.password.value, hash);
        if result.success then LoginReply(200, result) else LoginReply(401, result)
  }

  /** A request missing a credential is answered without looking at the
      users at all. */
  lemma MissingCredentialsIgnoreUsers(b: LoginBody, users1: seq<User>, users2: seq<User>, hash: string -> string)
    requires !Truthy(b.email) || !Truthy(b.password)
    ensures LoginReplyFor(Some(b), users1, hash) == LoginReplyFor(Some(b), users2, hash)
    ensures LoginReplyFor(Some(b), users1, hash).status == 400
  {
  }

  /** An unknown email is answered 401 with the credentials message, the
      reply a wrong password gets. */
  lemma UnknownEmailIs401(email: string, password: string, users: seq<User>, hash: string -> string)
    requires email != "" && password != ""
    requires UserByEmail(users, email).None?
    ensures LoginReplyFor(Some(LoginBody(Some(email), Some(password))), users, hash) ==
              LoginReply(401, LoginResult(false, BadCredentialsMessage, None))
  {
  }

  /** POST: a request rejected before `login` touches neither the store nor
      the cookie; otherwise the store is only read and the cookie is set
      exactly when the reply is 200. */
  method Post(db: Database, jar: CookieJar, body: Option<LoginBody>, hash: string -> string) returns (r: LoginReply)
    modifies db, jar
    ensures r == LoginReplyFor(body, old(db.Users()), hash)
    ensures db.Snapshot() == old(db.Snapshot())
    ensures r.status != 200 ==> jar.session == old(jar.session)
    ensures r.status == 200 ==> jar.session == Some(SessionCookie(UserByEmail(old(db.Users()), body.value.email.value).value))
    ensures r.status in {400, 500} ==> unchanged(db)
  {
    match body
    case None =>
      r := LoginReply(500, LoginResult(false, InternalError, None));
    case Some(b) =>
      if !Truthy(b.email) || !Truthy(b.password) {
        r := LoginReply(400, LoginResult(false, MissingCredentialsMessage, None));
      } else {
        var result := Login(db, jar, b.email.value, b.password.value, hash);
        r := if result.success then LoginReply(200, result) else LoginReply(401, result);
      }
  }
}
