/** Authentication and authorisation (src/lib/auth.ts): the session record
    kept in a cookie, the guards that turn a missing or insufficient session
    into a redirect, and the login and registration procedures over the
    users collection. Password hashing is a function parameter `hash`, and
    a password matches a stored hash when hashing it gives that hash. */
module Auth {
  import opened Common
  import opened Store

  /** The part of a user that is kept in the session cookie. */
  datatype SessionUser = SessionUser(id: string, nombre: string, apellido: string, email: string, rol: Role, aprobado: bool)

  function ToSessionUser(u: User): (s: SessionUser)
    ensures s.id == u.id && s.nombre == u.nombre && s.apellido == u.apellido
    ensures s.email == u.email && s.rol == u.rol && s.aprobado == u.aprobado
  {
    SessionUser(u.id, u.nombre, u.apellido, u.email, u.rol, u.aprobado)
  }

  /** The session never carries the password hash: two users that differ
      only in password and time stamps have the same session. */
  lemma SessionIgnoresPassword(u: User, password: string, createdAt: string, updatedAt: string)
    ensures ToSessionUser(u.(password := password, createdAt := createdAt, updatedAt := updatedAt)) == ToSessionUser(u)
  {
  }

  /** `verifyPassword`: the hash of the candidate is the stored hash. */
  predicate PasswordMatches(hash: string -> string, password: string, stored: string) {
    hash(password) == stored
  }

  // ----- The session cookie

  datatype SameSite = Lax | Strict | NoRestriction

  datatype CookieOptions = CookieOptions(httpOnly: bool, secure: bool, sameSite: SameSite, maxAge: nat, path: string)

  /** Seven days, in seconds. */
  const SessionMaxAge: nat := 60 * 60 * 24 * 7

  const SessionOptions := CookieOptions(true, false, Lax, SessionMaxAge, "/")

  /** The value of the `session` cookie: the JSON of a session, or a string
      that does not parse. */
  datatype CookieValue = Parsed(user: SessionUser) | Unparseable(raw: string)

  datatype Cookie = Cookie(value: CookieValue, options: CookieOptions)

  /** getSession: a missing cookie and a cookie that does not parse both give
      null; it never fails. */
  function ReadSession(c: Option<Cookie>): (r: Option<SessionUser>)
    ensures c.None? ==> r.None?
    ensures c.Some? && c.value.value.Unparseable? ==> r.None?
    ensures r.Some? ==> c.Some? && c.value.value == Parsed(r.value)
  {
    match c
    case None => None
    case Some(Cookie(Parsed(s), _)) => Some(s)
    case Some(Cookie(Unparseable(_), _)) => None
  }

  function SessionCookie(u: User): (c: Cookie)
    ensures c.options.maxAge == 604800 && c.options.httpOnly && c.options.path == "/"
  {
    Cookie(Parsed(ToSessionUser(u)), SessionOptions)
  }

  /** What createSession writes is what getSession reads back. */
  lemma SessionRoundTrip(u: User)
    ensures ReadSession(Some(SessionCookie(u))) == Some(ToSessionUser(u))
  {
  }

  /** The request's cookie store, reduced to the `session` cookie. */
  class CookieJar {
    var session: Option<Cookie>

    constructor (session: Option<Cookie>)
      ensures this.session == session
    {
      this.session := session;
    }

    method CreateSession(u: User)
      modifies this
      ensures session == Some(SessionCookie(u))
    {
      session := Some(SessionCookie(u));
    }

    method DestroySession()
      modifies this
      ensures session.None?
    {
      session := None;
    }

    method GetSession() returns (r: Option<SessionUser>)
      ensures r == ReadSession(session)
    {
      r := ReadSession(session);
    }
  }

  /** After logging out nobody is signed in. */
  lemma DestroyedSessionReadsNone()
    ensures ReadSession(None) == None
  {
  }

  // ----- Guards

  /** A guard either lets the request through with its session or redirects. */
  datatype Guard = Granted(session: SessionUser) | Redirect(location: string)

  const LoginPath := "/login"
  const PendingApprovalMessage := "Tu cuenta está pendiente de aprobación"
  const PendingPath := "/login?message=" + PendingApprovalMessage
  const EventsPath := "/eventos"

  /** requireAuth: no session sends the visitor to the login page, an
      unapproved one to the login page with the pending notice; otherwise
      the session is returned unchanged. */
  function RequireAuth(s: Option<SessionUser>): (g: Guard)
    ensures g.Granted? <==> s.Some? && s.value.aprobado
    ensures g.Granted? ==> g.session == s.value
    ensures s.None? ==> g == Redirect(LoginPath)
    ensures s.Some? && !s.value.aprobado ==> g == Redirect(PendingPath)
  {
    if s.None? then Redirect(LoginPath)
    else if !s.value.aprobado then Redirect(PendingPath)
    else Granted(s.value)
  }

  /** requireAdmin: requireAuth first, then every role but admin goes to the
      events page. */
  function RequireAdmin(s: Option<SessionUser>): (g: Guard)
    ensures g.Granted? <==> s.Some? && s.value.aprobado && s.value.rol == Admin
    ensures RequireAuth(s).Redirect? ==> g == RequireAuth(s)
    ensures RequireAuth(s).Granted? && s.value.rol != Admin ==> g == Redirect(EventsPath)
    ensures g.Granted? ==> g.session == s.value
  {
    match RequireAuth(s)
    case Redirect(l) => Redirect(l)
    case Granted(session) => if session.rol != Admin then Redirect(EventsPath) else Granted(session)
  }

  /** Whoever passes the admin guard passes the authentication guard too,
      with the same session. */
  lemma AdminImpliesAuth(s: Option<SessionUser>)
    ensures RequireAdmin(s).Granted? ==> RequireAuth(s) == RequireAdmin(s)
  {
  }

  // ----- Login

  datatype LoginResult = LoginResult(success: bool, message: string, user: Option<SessionUser>)

  const BadCredentialsMessage := "Credenciales incorrectas"
  const LoginOkMessage := "Login exitoso"

  predicate HasEmail(u: User, email: string) {
    u.email == email
  }

  /** `users.find(u => u.email === email)`. */
  function UserByEmail(users: seq<User>, email: string): (r: Option<User>)
    ensures r.Some? ==> r.value in users && r.value.email == email
    ensures r.None? <==> forall i :: 0 <= i < |users| ==> users[i].email != email
  {
    Find(users, (u: User) => HasEmail(u, email))
  }

  /** The check chain of `login`: the email must belong to a user, the
      password must match, and only then is approval looked at. An unknown
      email and a wrong password are answered with the same message. */
  function LoginOutcome(users: seq<User>, email: string, password: string, hash: string -> string): (r: LoginResult)
    ensures r.success <==> r.user.Some?
    ensures r.success ==>
              && UserByEmail(users, email).Some?
              && PasswordMatches(hash, password, UserByEmail(users, email).value.password)
              && r.user.value == ToSessionUser(UserByEmail(users, email).value)
              && r.user.value.aprobado
    ensures !r.success ==> r.message in {BadCredentialsMessage, PendingApprovalMessage}
  {
    match UserByEmail(users, email)
    case None => LoginResult(false, BadCredentialsMessage, None)
    case Some(u) =>
      if !PasswordMatches(hash, password, u.password) then LoginResult(false, BadCredentialsMessage, None)
      else if !u.aprobado then LoginResult(false, PendingApprovalMessage, None)
      else LoginResult(true, LoginOkMessage, Some(ToSessionUser(u)))
  }

  /** An unknown email and a wrong password cannot be told apart. */
  lemma LoginSameFailureMessage(users: seq<User>, email: string, password: string, hash: string -> string)
    requires UserByEmail(users, email).None? ||
             !PasswordMatches(hash, password, UserByEmail(users, email).value.password)
    ensures LoginOutcome(users, email, password, hash) == LoginResult(false, BadCredentialsMessage, None)
  {
  }

  /** The pending notice is only ever given to someone who knows the
      password: approval is checked after the password. */
  lemma LoginPendingOnlyAfterPassword(users: seq<User>, email: string, password: string, hash: string -> string)
    ensures LoginOutcome(users, email, password, hash).message == PendingApprovalMessage <==>
              && UserByEmail(users, email).Some?
              && PasswordMatches(hash, password, UserByEmail(users, email).value.password)
              && !UserByEmail(users, email).value.aprobado
  {
  }

  /** Login succeeds exactly for the first user with that email, when the
      password matches and the account is approved. */
  lemma LoginSucceedsIff(users: seq<User>, email: string, password: string, hash: string -> string)
    ensures LoginOutcome(users, email, password, hash).success <==>
              exists i :: 0 <= i < |users| && users[i].email == email
                          && (forall j :: 0 <= j < i ==> users[j].email != email)
                          && PasswordMatches(hash, password, users[i].password) && users[i].aprobado
  {
    var p := (u: User) => HasEmail(u, email);
    var f := FindFirst(users, p);
    if f.Some? {
      var i := f.value;
      assert UserByEmail(users, email) == Some(users[i]);
      if LoginOutcome(users, email, password, hash).success {
        assert users[i].email == email && forall j :: 0 <= j < i ==> users[j].email != email;
      }
      forall k | 0 <= k < |users| && users[k].email == email && (forall j :: 0 <= j < k ==> users[j].email != email)
        ensures k == i
      {
        assert p(users[k]) && p(users[i]);
        assert i <= k && k <= i;
      }
    }
  }

  /** login: reads the users, and on success stores the session cookie. A
      failed login leaves the cookie as it was; the store is never written. */
  method Login(db: Database, jar: CookieJar, email: string, password: string, hash: string -> string) returns (r: LoginResult)
    modifies db, jar
    ensures r == LoginOutcome(old(db.Users()), email, password, hash)
    ensures db.FilesExist() && db.Snapshot() == old(db.Snapshot())
    ensures r.success ==> jar.session == Some(SessionCookie(UserByEmail(old(db.Users()), email).value))
    ensures !r.success ==> jar.session == old(jar.session)
  {
    var users := db.GetUsers();
    var found := UserByEmail(users, email);
    if found.None? {
      return LoginResult(false, BadCredentialsMessage, None);
    }
    var user := found.value;
    if !PasswordMatches(hash, password, user.password) {
      return LoginResult(false, BadCredentialsMessage, None);
    }
    if !user.aprobado {
      return LoginResult(false, PendingApprovalMessage, None);
    }
    jar.CreateSession(user);
    r := LoginResult(true, LoginOkMessage, Some(ToSessionUser(user)));
  }

  // ----- Registration

  /** The six fields `register` accepts. */
  datatype RegisterData = RegisterData(nombre: string, apellido: string, email: string, celular: string, sector: string, password: string)

  datatype Outcome = Outcome(success: bool, message: string)

  const EmailTakenMessage := "El email ya está registrado"
  const RegisteredMessage := "Registro exitoso. Tu cuenta está pendiente de aprobación."

  predicate EmailTaken(users: seq<User>, email: string) {
    exists i :: 0 <= i < |users| && users[i].email == email
  }

  /** The record `register` asks the store to create: the caller's fields,
      the password replaced by its hash, and always an unapproved
      colaborador. */
  function RegistrationDraft(d: RegisterData, hash: string -> string): (u: UserDraft)
    ensures u.rol == Colaborador && !u.aprobado && u.password == hash(d.password)
    ensures u.nombre == d.nombre && u.apellido == d.apellido && u.email == d.email
    ensures u.celular == d.celular && u.sector == d.sector
  {
    UserDraft(d.nombre, d.apellido, d.email, d.celular, d.sector, Colaborador, hash(d.password), false)
  }

  /** register: a taken email is refused and nothing is written; otherwise
      exactly one user is appended. */
  method Register(db: Database, d: RegisterData, hash: string -> string, st: Stamp) returns (r: Outcome)
    modifies db
    ensures db.FilesExist()
    ensures r.success <==> !EmailTaken(old(db.Users()), d.email)
    ensures !r.success ==> r.message == EmailTakenMessage && db.Snapshot() == old(db.Snapshot())
    ensures r.success ==> r.message == RegisteredMessage
    ensures r.success ==> db.Snapshot() == old(db.Snapshot()).(users := old(db.Users()) + [NewUser(RegistrationDraft(d, hash), st)])
  {
    var users := db.GetUsers();
    var existing := UserByEmail(users, d.email);
    if existing.Some? {
      return Outcome(false, EmailTakenMessage);
    }
    var _ := db.CreateUser(RegistrationDraft(d, hash), st);
    r := Outcome(true, RegisteredMessage);
  }

  predicate DistinctEmails(users: seq<User>) {
    forall i, j :: 0 <= i < j < |users| ==> users[i].email != users[j].email
  }

  /** Registration keeps emails unique in the users collection. */
  lemma RegisterKeepsEmailsDistinct(users: seq<User>, d: RegisterData, hash: string -> string, st: Stamp)
    requires DistinctEmails(users)
    requires !EmailTaken(users, d.email)
    ensures DistinctEmails(users + [NewUser(RegistrationDraft(d, hash), st)])
  {
    var r := users + [NewUser(RegistrationDraft(d, hash), st)];
    forall i, j | 0 <= i < j < |r| ensures r[i].email != r[j].email {
      if j == |users| {
        assert r[i] == users[i];
      }
    }
  }

  /** A newly registered user who logs in with the right password is told the
      account is pending, and with a wrong one gets the credentials error. */
  lemma RegisterThenLogin(users: seq<User>, d: RegisterData, hash: string -> string, st: Stamp, attempt: string)
    requires !EmailTaken(users, d.email)
    ensures var after := users + [NewUser(RegistrationDraft(d, hash), st)];
            LoginOutcome(after, d.email, attempt, hash) ==
              if hash(attempt) == hash(d.password)
              then LoginResult(false, PendingApprovalMessage, None)
              else LoginResult(false, BadCredentialsMessage, None)
  {
    var u := NewUser(RegistrationDraft(d, hash), st);
    var p := (x: User) => HasEmail(x, d.email);
    FindFirstAppend(users, [u], p);
    assert FindFirst(users + [u], p) == Some(|users|);
    assert UserByEmail(users + [u], d.email) == Some(u);
  }

  /** Once an administrator approves the account, the same password logs in. */
  lemma ApprovedUserLogsIn(users: seq<User>, i: nat, password: string, hash: string -> string, now: string)
    requires i < |users| && DistinctEmails(users)
    requires PasswordMatches(hash, password, users[i].password)
    ensures var approved := users[i := MergeUser(users[i], EmptyUserPatch.(aprobado := Some(true)), now)];
            LoginOutcome(approved, users[i].email, password, hash).success
  {
    var approved := users[i := MergeUser(users[i], EmptyUserPatch.(aprobado := Some(true)), now)];
    ApprovalPatch(users[i], now);
    var p := (x: User) => HasEmail(x, users[i].email);
    assert forall j :: 0 <= j < i ==> !p(approved[j]);
    assert p(approved[i]);
    assert FindFirst(approved, p) == Some(i);
  }
}
