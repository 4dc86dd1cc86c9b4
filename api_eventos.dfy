/** The events API (src/app/api/eventos/route.ts): GET lists every event to
    an authenticated user; POST validates a new event and creates it with
    the creator and the finalisation flag forced. The request body is the
    parsed JSON, or None when it does not parse. */
module ApiEventos {
  import opened Common
  import opened Store
  import opened Auth
  import opened RouteGuard

  /** The JSON body of a creation request. Absent keys are None; the keys
      `creadoPor` and `finalizado` may be sent but are overridden. */
  datatype EventBody = EventBody(
    sector: Option<string>, categoria: Option<string>, titulo: Option<string>,
    descripcion: Option<string>, fecha: Option<string>, horaInicio: Option<string>,
    horaFin: Option<string>, ubicacion: Option<string>, numeroConvocados: Option<int>,
    contactos: Option<seq<Contacto>>, autoridades: Option<seq<Autoridad>>,
    asignadoA: Option<string>, creadoPor: Option<string>, finalizado: Option<bool>,
    informe: Option<Informe>, qrCode: Option<QrCode>)

  /** The keys the route requires, and their names in the JSON body. */
  datatype RequiredKey =
    | SectorKey | CategoriaKey | TituloKey | DescripcionKey | FechaKey
    | HoraInicioKey | HoraFinKey | UbicacionKey | NumeroConvocadosKey

  function KeyName(k: RequiredKey): string {
    match k
    case SectorKey => "sector"
    case CategoriaKey => "categoria"
    case TituloKey => "titulo"
    case DescripcionKey => "descripcion"
    case FechaKey => "fecha"
    case HoraInicioKey => "horaInicio"
    case HoraFinKey => "horaFin"
    case UbicacionKey => "ubicacion"
    case NumeroConvocadosKey => "numeroConvocados"
  }

  /** The required list, in the order the route checks it. */
  const RequiredFields: seq<RequiredKey> :=
    [SectorKey, CategoriaKey, TituloKey, DescripcionKey, FechaKey, HoraInicioKey, HoraFinKey, UbicacionKey, NumeroConvocadosKey]

  /** JavaScript truthiness of a string and of a number: absent, "" and 0
      are false. */
  predicate TruthyString(s: Option<string>) {
    s.Some? && s.value != ""
  }

  predicate TruthyNumber(n: Option<int>) {
    n.Some? && n.value != 0
  }

  /** `!!eventData[field]` for the names in the required list. */
  predicate FieldPresent(b: EventBody, field: RequiredKey) {
    match field
    case SectorKey => TruthyString(b.sector)
    case CategoriaKey => TruthyString(b.categoria)
    case TituloKey => TruthyString(b.titulo)
    case DescripcionKey => TruthyString(b.descripcion)
    case FechaKey => TruthyString(b.fecha)
    case HoraInicioKey => TruthyString(b.horaInicio)
    case HoraFinKey => TruthyString(b.horaFin)
    case UbicacionKey => TruthyString(b.ubicacion)
    case NumeroConvocadosKey => TruthyNumber(b.numeroConvocados)
  }

  /** The invitee key in isolation, so that callers holding a large body
      term need not unfold the whole match. */
  lemma InviteesPresence(b: EventBody)
    ensures FieldPresent(b, NumeroConvocadosKey) <==> TruthyNumber(b.numeroConvocados)
  {
  }

  /** The test the route's loop applies to each required key. */
  function Lacks(b: EventBody): RequiredKey -> bool {
    (f: RequiredKey) => !FieldPresent(b, f)
  }

  /** The first required field, in list order, the body lacks. */
  function FirstMissing(b: EventBody): (r: Option<RequiredKey>)
    ensures r.Some? ==> r.value in RequiredFields && !FieldPresent(b, r.value)
    ensures r.None? <==> forall i :: 0 <= i < |RequiredFields| ==> FieldPresent(b, RequiredFields[i])
  {
    match FindFirst(RequiredFields, Lacks(b))
    case None => None
    case Some(i) => Some(RequiredFields[i])
  }

  function MissingFieldMessage(field: RequiredKey): string {
    "El campo " + KeyName(field) + " es requerido"
  }

  const ForbiddenMessage := "No tienes permisos para crear eventos"
  const NoContactMessage := "Debe haber al menos un contacto"

  predicate MayCreate(rol: Role) {
    rol == Admin || rol == Colaborador
  }

  predicate AllRequiredPresent(b: EventBody) {
    forall i :: 0 <= i < |RequiredFields| ==> FieldPresent(b, RequiredFields[i])
  }

  predicate HasContact(b: EventBody) {
    b.contactos.Some? && |b.contactos.value| > 0
  }

  /** The record handed to createEvent: the body's fields, with `creadoPor`
      the session's id and `finalizado` false. */
  function DraftFromBody(b: EventBody, creator: string): (d: EventDraft)
    requires AllRequiredPresent(b) && HasContact(b)
    ensures d.creadoPor == creator && !d.finalizado
    ensures d.numeroConvocados != 0 && |d.contactos| > 0
    ensures d.titulo != "" && Some(d.titulo) == b.titulo && Some(d.sector) == b.sector
  {
    assert FieldPresent(b, RequiredFields[0]) && FieldPresent(b, RequiredFields[1]);
    assert FieldPresent(b, RequiredFields[2]) && FieldPresent(b, RequiredFields[3]);
    assert FieldPresent(b, RequiredFields[4]) && FieldPresent(b, RequiredFields[5]);
    assert FieldPresent(b, RequiredFields[6]) && FieldPresent(b, RequiredFields[7]);
    assert FieldPresent(b, RequiredFields[8]);
    EventDraft(b.sector.value, b.categoria.value, b.titulo.value, b.descripcion.value,
               b.contactos.value, b.fecha.value, b.horaInicio.value, b.horaFin.value,
               b.ubicacion.value, b.numeroConvocados.value, b.autoridades.GetOr([]),
               creator, b.asignadoA, false, b.informe, b.qrCode)
  }

  /** What POST decides before touching the store. */
  datatype Decision = Reject(status: int, message: string) | Redirected(location: string) | Accept(draft: EventDraft)

  /** The checks of POST in their order: the guard, the role, the body's
      parse, the required fields in list order, then the contacts. */
  function PostDecision(gate: Gate, body: Option<EventBody>): (d: Decision)
    ensures d.Accept? <==> gate.Pass? && MayCreate(gate.session.rol) && body.Some?
                            && AllRequiredPresent(body.value) && HasContact(body.value)
    ensures d.Accept? ==> d.draft.creadoPor == gate.session.id && !d.draft.finalizado
    ensures gate.Pass? && !MayCreate(gate.session.rol) ==> d == Reject(403, ForbiddenMessage)
    ensures d.Reject? && d.status == 400 ==>
              body.Some? && (FirstMissing(body.value).Some? || !HasContact(body.value))
    ensures d.Reject? ==> d.status in {400, 403, 500}
  {
    match gate
    case Failed500 => Reject(500, InternalError)
    case RedirectTo(l) => Redirected(l)
    case Pass(session) =>
      if !MayCreate(session.rol) then Reject(403, ForbiddenMessage)
      else if body.None? then Reject(500, InternalError)
      else match FirstMissing(body.value)
        case Some(field) => Reject(400, MissingFieldMessage(field))
        case None =>
          if !HasContact(body.value) then Reject(400, NoContactMessage)
          else Accept(DraftFromBody(body.value, session.id))
  }

  /** Whatever `creadoPor` and `finalizado` the body carries, the decision is
      the same as without them. */
  lemma ForgedFieldsIgnored(gate: Gate, b: EventBody, creator: Option<string>, done: Option<bool>)
    ensures PostDecision(gate, Some(b.(creadoPor := creator, finalizado := done))) == PostDecision(gate, Some(b))
  {
    var b' := b.(creadoPor := creator, finalizado := done);
    forall i | 0 <= i < |RequiredFields| ensures Lacks(b')(RequiredFields[i]) == Lacks(b)(RequiredFields[i]) {
      assert FieldPresent(b', RequiredFields[i]) == FieldPresent(b, RequiredFields[i]);
    }
    FindFirstSameTest(RequiredFields, Lacks(b'), Lacks(b));
  }

  /** Zero invitees is falsy, so an otherwise complete body with
      `numeroConvocados: 0` is refused naming that field. */
  lemma ZeroConvocadosRejected(session: SessionUser, b: EventBody)
    requires MayCreate(session.rol)
    requires forall i :: 0 <= i < 8 ==> FieldPresent(b, RequiredFields[i])
    requires b.numeroConvocados == Some(0)
    ensures PostDecision(Pass(session), Some(b)) == Reject(400, MissingFieldMessage(NumeroConvocadosKey))
  {
    assert !FieldPresent(b, RequiredFields[8]);
    FirstMissingReported(session, b, 8);
  }

  /** The first missing field is the one reported, even when later ones are
      missing too. */
  lemma FirstMissingReported(session: SessionUser, b: EventBody, k: nat)
    requires MayCreate(session.rol)
    requires k < |RequiredFields| && !FieldPresent(b, RequiredFields[k])
    requires forall i :: 0 <= i < k ==> FieldPresent(b, RequiredFields[i])
    ensures PostDecision(Pass(session), Some(b)) == Reject(400, MissingFieldMessage(RequiredFields[k]))
  {
    var p := Lacks(b);
    var r := FindFirst(RequiredFields, p);
    assert p(RequiredFields[k]);
    assert r.Some? && r.value <= k;
    assert !(r.value < k);
  }

  /** POST: every refusal leaves the store exactly as it was (no check reads
      or writes it); an accepted body adds exactly one event at the end. */
  method Post(db: Database, gate: Gate, body: Option<EventBody>, st: Stamp) returns (r: Response<Event>, redirect: Option<string>)
    modifies db
    ensures match PostDecision(gate, body)
            case Reject(s, m) =>
              r == Response(s, false, Some(m), None) && redirect.None? && db.Snapshot() == old(db.Snapshot())
            case Redirected(l) =>
              redirect == Some(l) && db.Snapshot() == old(db.Snapshot())
            case Accept(d) =>
              && r == Response(200, true, None, Some(NewEvent(d, st))) && redirect.None?
              && db.Snapshot() == old(db.Snapshot()).(events := old(db.Events()) + [NewEvent(d, st)])
  {
    redirect := None;
    match PostDecision(gate, body)
    case Reject(s, m) =>
      r := Response(s, false, Some(m), None);
    case Redirected(l) =>
      r := Response(0, false, None, None);
      redirect := Some(l);
    case Accept(d) =>
      var e := db.CreateEvent(d, st);
      r := Response(200, true, None, Some(e));
  }

  /** GET: the whole events collection, unfiltered, to anyone past the
      guard. */
  method Get(db: Database, gate: Gate) returns (r: Response<seq<Event>>, redirect: Option<string>)
    modifies db
    ensures db.Snapshot() == old(db.Snapshot())
    ensures gate.Pass? ==> r == Response(200, true, None, Some(old(db.Events()))) && redirect.None?
    ensures gate.Failed500? ==> r == ServerError() && redirect.None?
    ensures gate.RedirectTo? ==> redirect == Some(gate.location)
  {
    redirect := None;
    match gate
    case Failed500 =>
      r := ServerError();
    case RedirectTo(l) =>
      r := Response(0, false, None, None);
      redirect := Some(l);
    case Pass(_) =>
      var events := db.GetEvents();
      r := Response(200, true, None, Some(events));
  }
}
