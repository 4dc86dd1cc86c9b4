/** The user administration page (src/app/admin/usuarios/page.tsx):
    administrators only; the users split into pending and approved, each
    pending one with the form that approves it. */
module AdminUsuariosPage {
  import opened Common
  import opened Store
  import opened Auth
  import opened ApiAdminUsuarios

  function PendingUsers(users: seq<User>): seq<User> {
    Filter(users, Not(IsApproved))
  }

  /** Every stored user is in exactly one of the two lists, the one its
      `aprobado` flag says, and the lengths add up to the user count. */
  lemma ListsPartitionUsers(users: seq<User>)
    ensures |PendingUsers(users)| + |ApprovedUsers(users)| == |users|
    ensures forall u :: u in users ==> (u in ApprovedUsers(users) <==> u.aprobado)
    ensures forall u :: u in users ==> (u in PendingUsers(users) <==> !u.aprobado)
    ensures forall u :: u in PendingUsers(users) || u in ApprovedUsers(users) ==> u in users
  {
    FilterPartition(users, IsApproved);
    forall u | u in users ensures (u in ApprovedUsers(users) <==> u.aprobado) && (u in PendingUsers(users) <==> !u.aprobado) {
      var i :| 0 <= i < |users| && users[i] == u;
      if u in ApprovedUsers(users) {
        var j :| 0 <= j < |ApprovedUsers(users)| && ApprovedUsers(users)[j] == u;
      }
      if u in PendingUsers(users) {
        var j :| 0 <= j < |PendingUsers(users)| && PendingUsers(users)[j] == u;
        assert Not(IsApproved)(u);
      }
    }
    forall u | u in PendingUsers(users) || u in ApprovedUsers(users) ensures u in users {
      if u in PendingUsers(users) {
        var j :| 0 <= j < |PendingUsers(users)| && PendingUsers(users)[j] == u;
      } else {
        var j :| 0 <= j < |ApprovedUsers(users)| && ApprovedUsers(users)[j] == u;
      }
    }
  }

  /** Both lists keep stored order: the users of two stretches of the
      collection come out one stretch after the other. */
  lemma ListsKeepOrder(a: seq<User>, b: seq<User>)
    ensures PendingUsers(a + b) == PendingUsers(a) + PendingUsers(b)
    ensures ApprovedUsers(a + b) == ApprovedUsers(a) + ApprovedUsers(b)
  {
    FilterAppend(a, b, Not(IsApproved));
    FilterAppend(a, b, IsApproved);
  }

  /** The approval form's target. */
  function ApprovePath(id: string): (p: string)
    ensures IsPrefix("/api/admin/usuarios/", p)
  {
    "/api/admin/usuarios/" + id + "/aprobar"
  }

  /** The card subtitle: any role other than admin reads "Colaborador". */
  function RoleLabel(rol: Role): string {
    if rol == Admin then "Administrador" else "Colaborador"
  }

  /** One card: the user, the role label, and the approval form if any. */
  datatype UserCard = UserCard(user: User, roleLabel: string, approveAction: Option<string>)

  function PendingCards(users: seq<User>): (r: seq<UserCard>)
    ensures |r| == |users|
    ensures forall i :: 0 <= i < |users| ==> r[i] == UserCard(users[i], RoleLabel(users[i].rol), Some(ApprovePath(users[i].id)))
  {
    if users == [] then []
    else [UserCard(users[0], RoleLabel(users[0].rol), Some(ApprovePath(users[0].id)))] + PendingCards(users[1..])
  }

  function ApprovedCards(users: seq<User>): (r: seq<UserCard>)
    ensures |r| == |users|
    ensures forall i :: 0 <= i < |users| ==> r[i] == UserCard(users[i], RoleLabel(users[i].rol), None)
  {
    if users == [] then [] else [UserCard(users[0], RoleLabel(users[0].rol), None)] + ApprovedCards(users[1..])
  }

  datatype UsersView =
    | Redirected(location: string)
    | UsersView(showPending: bool, pending: seq<UserCard>, approved: seq<UserCard>)

  function ViewOf(users: seq<User>): UsersView {
    var pending := PendingUsers(users);
    UsersView(|pending| > 0, PendingCards(pending), ApprovedCards(ApprovedUsers(users)))
  }

  /** An approval form is rendered exactly on the cards of pending users,
      and it posts to that user's own approval route. */
  lemma ApproveOnlyPending(users: seq<User>)
    ensures forall c :: c in ViewOf(users).pending ==> !c.user.aprobado && c.approveAction == Some(ApprovePath(c.user.id))
    ensures forall c :: c in ViewOf(users).approved ==> c.user.aprobado && c.approveAction.None?
  {
    var pending := PendingUsers(users);
    var approved := ApprovedUsers(users);
    forall c | c in PendingCards(pending) ensures !c.user.aprobado && c.approveAction == Some(ApprovePath(c.user.id)) {
      var i :| 0 <= i < |pending| && PendingCards(pending)[i] == c;
      assert Not(IsApproved)(pending[i]);
    }
    forall c | c in ApprovedCards(approved) ensures c.user.aprobado && c.approveAction.None? {
      var i :| 0 <= i < |approved| && ApprovedCards(approved)[i] == c;
    }
  }

  /** The pending section is shown exactly when some user awaits approval. */
  lemma PendingSectionShown(users: seq<User>)
    ensures ViewOf(users).showPending <==> exists i :: 0 <= i < |users| && !users[i].aprobado
  {
    var pending := PendingUsers(users);
    if exists i :: 0 <= i < |users| && !users[i].aprobado {
      var i :| 0 <= i < |users| && !users[i].aprobado;
      assert !IsApproved(users[i]);
      assert Not(IsApproved)(users[i]);
      assert users[i] in pending;
    }
    if |pending| > 0 {
      assert pending[0] in users && Not(IsApproved)(pending[0]);
    }
  }

  /** The page: requireAdmin decides first; only then are the users read. */
  method Page(db: Database, session: Option<SessionUser>) returns (v: UsersView)
    modifies db
    ensures db.Snapshot() == old(db.Snapshot())
    ensures RequireAdmin(session).Redirect? ==> v == Redirected(RequireAdmin(session).location) && unchanged(db)
    ensures RequireAdmin(session).Granted? ==> v == ViewOf(old(db.Users()))
  {
    match RequireAdmin(session)
    case Redirect(l) =>
      v := Redirected(l);
    case Granted(_) =>
      var users := db.GetUsers();
      v := ViewOf(users);
  }
}
