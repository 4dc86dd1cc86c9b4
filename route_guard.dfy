/** The authentication guard at the head of the API handlers
    (src/app/api/eventos/route.ts, src/app/api/admin/usuarios/route.ts). */
module RouteGuard {
  import opened Common
  import opened Auth

  /** How a handler's authentication guard ends. `requireAuth` is called
      inside the handler's try block, and the redirect it raises is an
      exception, so the catch-all turns it into the generic 500 answer. */
  datatype Gate = Pass(session: SessionUser) | Failed500 | RedirectTo(location: string)

  /** The guard as written: any redirect is caught and becomes a 500. */
  function GateAsWritten(s: Option<SessionUser>): (g: Gate)
    ensures g.Pass? <==> RequireAuth(s).Granted?
    ensures g.Pass? ==> g.session == s.value
    ensures !g.Pass? ==> g == Failed500
  {
    match RequireAuth(s)
    case Granted(u) => Pass(u)
    case Redirect(_) => Failed500
  }

  /** The guard as evidently intended: the redirect reaches the client. */
  function GateIntended(s: Option<SessionUser>): (g: Gate)
    ensures g.Pass? <==> RequireAuth(s).Granted?
    ensures g.Pass? ==> g.session == s.value
    ensures !g.Pass? ==> g == RedirectTo(RequireAuth(s).location)
  {
    match RequireAuth(s)
    case Granted(u) => Pass(u)
    case Redirect(l) => RedirectTo(l)
  }

  /** A visitor without a session gets a 500 error where the redirect to
      the login page was meant. */
  lemma UnauthenticatedGets500()
    ensures GateAsWritten(None) == Failed500
    ensures GateIntended(None) == RedirectTo(LoginPath)
  {
  }

  /** The intended guard never answers 500 and sends every visitor the
      guard turns away to where requireAuth points. */
  lemma IntendedGateRedirects(s: Option<SessionUser>)
    ensures GateIntended(s) != Failed500
    ensures s.None? ==> GateIntended(s) == RedirectTo(LoginPath)
    ensures s.Some? && !s.value.aprobado ==> GateIntended(s) == RedirectTo(PendingPath)
    ensures GateAsWritten(s).Pass? <==> GateIntended(s).Pass?
  {
  }
}
