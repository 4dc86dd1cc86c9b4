/** The user list for assignment (src/app/api/admin/usuarios/route.ts):
    administrators get the approved users, as stored. */
module ApiAdminUsuarios {
  import opened Common
  import opened Store
  import opened Auth
  import opened RouteGuard

  const NotAllowedMessage := "No tienes permisos para acceder a esta información"

  /** `users.filter(user => user.aprobado)`. */
  function ApprovedUsers(users: seq<User>): (r: seq<User>)
    ensures forall i :: 0 <= i < |r| ==> r[i].aprobado && r[i] in users
    ensures forall i :: 0 <= i < |users| && users[i].aprobado ==> users[i] in r
  {
    Filter(users, IsApproved)
  }

  /** The filter keeps stored order: the approved users of two stretches of
      the collection come out one stretch after the other. */
  lemma ApprovedUsersInOrder(a: seq<User>, b: seq<User>)
    ensures ApprovedUsers(a + b) == ApprovedUsers(a) + ApprovedUsers(b)
  {
    FilterAppend(a, b, IsApproved);
  }

  /** A user is listed exactly when stored and approved; the records are the
      stored ones, password hash included. */
  lemma ApprovedUsersExact(users: seq<User>, u: User)
    ensures u in ApprovedUsers(users) <==> u in users && u.aprobado
  {
    if u in users && u.aprobado {
      var i :| 0 <= i < |users| && users[i] == u;
    }
    if u in ApprovedUsers(users) {
      var i :| 0 <= i < |ApprovedUsers(users)| && ApprovedUsers(users)[i] == u;
    }
  }

  /** GET: past the guard, a non-administrator gets 403 and no data and the
      store is not touched; an administrator gets the approved users. */
  method Get(db: Database, gate: Gate) returns (r: Response<seq<User>>, redirect: Option<string>)
    modifies db
    ensures db.Snapshot() == old(db.Snapshot())
    ensures gate.Failed500? ==> r == ServerError() && redirect.None?
    ensures gate.RedirectTo? ==> redirect == Some(gate.location) && r.payload.None?
    ensures gate.Pass? && gate.session.rol != Admin ==>
              r == Response(403, false, Some(NotAllowedMessage), None) && redirect.None? && unchanged(db)
    ensures gate.Pass? && gate.session.rol == Admin ==>
              r == Response(200, true, None, Some(ApprovedUsers(old(db.Users())))) && redirect.None?
  {
    redirect := None;
    match gate
    case Failed500 =>
      r := ServerError();
    case RedirectTo(l) =>
      r := Response(0, false, None, None);
      redirect := Some(l);
    case Pass(session) =>
      if session.rol != Admin {
        r := Response(403, false, Some(NotAllowedMessage), None);
      } else {
        var users := db.GetUsers();
        r := Response(200, true, None, Some(ApprovedUsers(users)));
      }
  }
}
