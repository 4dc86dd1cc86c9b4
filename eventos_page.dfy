/** The events list page (src/app/eventos/page.tsx): who may create events,
    the creator and assignee names shown on each card, and which of the
    edit, delete and finalise controls each card offers. */
module EventosPage {
  import opened Common
  import opened Store
  import opened Auth
  import ApiEventos

  predicate CanCreateEvent(rol: Role) {
    rol == Admin || rol == Colaborador
  }

  /** The page offers the create button to exactly the roles the events API
      lets create. */
  lemma CreateButtonMatchesApi(rol: Role)
    ensures CanCreateEvent(rol) <==> ApiEventos.MayCreate(rol)
  {
  }

  const UnknownUser := "Usuario desconocido"

  /** getCreatorName: "nombre apellido" of the first user with that id. */
  function CreatorName(users: seq<User>, id: string): (r: string)
    ensures (forall i :: 0 <= i < |users| ==> users[i].id != id) ==> r == UnknownUser
  {
    match Find(users, (u: User) => u.id == id)
    case Some(u) => u.nombre + " " + u.apellido
    case None => UnknownUser
  }

  /** The name shown is the one of the first user carrying the id, however
      many others share it. */
  lemma CreatorNameFirstMatch(users: seq<User>, id: string, i: nat)
    requires i < |users| && users[i].id == id
    requires forall j :: 0 <= j < i ==> users[j].id != id
    ensures CreatorName(users, id) == users[i].nombre + " " + users[i].apellido
  {
    var p := (u: User) => u.id == id;
    var f := FindFirst(users, p);
    assert p(users[i]);
    assert f.Some? && f.value <= i;
    assert !(f.value < i);
  }

  /** The assignee line: `asignadoA` set (non-empty) and not the creator. */
  predicate ShowAssignee(e: Event) {
    e.asignadoA.Some? && e.asignadoA.value != "" && e.asignadoA.value != e.creadoPor
  }

  predicate OwnsOpenEvent(s: SessionUser, e: Event) {
    s.rol == Colaborador && e.creadoPor == s.id && !e.finalizado
  }

  predicate CanEdit(s: SessionUser, e: Event) {
    s.rol == Admin || OwnsOpenEvent(s, e)
  }

  predicate CanDelete(s: SessionUser, e: Event) {
    s.rol == Admin || OwnsOpenEvent(s, e)
  }

  predicate CanFinalize(s: SessionUser, e: Event) {
    OwnsOpenEvent(s, e)
  }

  /** Delete is offered exactly when edit is; finalise only to the
      colaborador who created a still open event, and then edit is offered
      too; administrators may edit and delete any event, finalised or not,
      and are never offered finalise. */
  lemma ControlRules(s: SessionUser, e: Event)
    ensures CanDelete(s, e) <==> CanEdit(s, e)
    ensures CanFinalize(s, e) ==> CanEdit(s, e)
    ensures CanEdit(s, e) <==> s.rol == Admin || CanFinalize(s, e)
    ensures s.rol == Admin ==> CanEdit(s, e) && !CanFinalize(s, e)
    ensures s.rol != Admin && e.finalizado ==> !CanEdit(s, e) && !CanFinalize(s, e)
    ensures !CanCreateEvent(s.rol) ==> !CanEdit(s, e) && !CanDelete(s, e) && !CanFinalize(s, e)
  {
  }

  /** What one event card shows. */
  datatype Card = Card(
    eventId: string, creator: string, assignee: Option<string>,
    edit: bool, delete: bool, finalize: bool)

  function CardOf(s: SessionUser, users: seq<User>, e: Event): (c: Card)
    ensures c.eventId == e.id && c.creator == CreatorName(users, e.creadoPor)
    ensures c.assignee.Some? <==> ShowAssignee(e)
    ensures c.assignee.Some? ==> c.assignee.value == CreatorName(users, e.asignadoA.value)
    ensures c.edit == c.delete
  {
    Card(e.id, CreatorName(users, e.creadoPor),
         if ShowAssignee(e) then Some(CreatorName(users, e.asignadoA.value)) else None,
         CanEdit(s, e), CanDelete(s, e), CanFinalize(s, e))
  }

  function Cards(s: SessionUser, users: seq<User>, events: seq<Event>): (r: seq<Card>)
    ensures |r| == |events|
    ensures forall i :: 0 <= i < |events| ==> r[i] == CardOf(s, users, events[i])
  {
    if events == [] then [] else [CardOf(s, users, events[0])] + Cards(s, users, events[1..])
  }

  datatype View = RedirectView(location: string) | EventsView(canCreate: bool, cards: seq<Card>)

  /** The page: requireAuth runs outside any try block, so its redirect
      reaches the browser; past it, every stored event gets a card. */
  method Page(db: Database, session: Option<SessionUser>) returns (v: View)
    modifies db
    ensures db.Snapshot() == old(db.Snapshot())
    ensures RequireAuth(session).Redirect? ==> v == RedirectView(RequireAuth(session).location) && unchanged(db)
    ensures RequireAuth(session).Granted? ==>
              v == EventsView(CanCreateEvent(session.value.rol), Cards(session.value, old(db.Users()), old(db.Events())))
  {
    match RequireAuth(session)
    case Redirect(l) =>
      v := RedirectView(l);
    case Granted(s) =>
      var events := db.GetEvents();
      var users := db.GetUsers();
      v := EventsView(CanCreateEvent(s.rol), Cards(s, users, events));
  }
}
