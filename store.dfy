/** The record store (src/lib/database.ts): four collections, users, events,
    public questions and audit logs, each kept as a whole array in its own
    backing file. Every operation reads the whole array, changes it in
    memory and writes it back. A backing file is modelled as
    `Option<seq<T>>`, None when the file does not exist yet; the file system
    and JSON encoding themselves are not modelled. The clock and the id
    generator (`Date.now()`, `new Date().toISOString()`) are a `Stamp`
    parameter. */
module Store {
  import opened Common

  /** `rol` is typed 'admin' | 'colaborador', but it is read back from JSON
      that nothing validates, so any other string can reach the checks. */
  datatype Role = Admin | Colaborador | OtherRole(name: string)

  /** What one creation reads from the clock: `Date.now().toString()` for the
      id and `new Date().toISOString()` for the time stamps. */
  datatype Stamp = Stamp(id: string, now: string)

  // ----- Users

  /** The fields a caller supplies to createUser (Omit<User, 'id' | 'createdAt' | 'updatedAt'>). */
  datatype UserDraft = UserDraft(
    nombre: string, apellido: string, email: string, celular: string, sector: string,
    rol: Role, password: string, aprobado: bool)

  datatype User = User(
    id: string, nombre: string, apellido: string, email: string, celular: string, sector: string,
    rol: Role, password: string, aprobado: bool, createdAt: string, updatedAt: string)

  predicate IsApproved(u: User) { u.aprobado }

  function DraftOfUser(u: User): UserDraft {
    UserDraft(u.nombre, u.apellido, u.email, u.celular, u.sector, u.rol, u.password, u.aprobado)
  }

  /** `{ ...user, id, createdAt, updatedAt }`: every supplied field is kept and
      the generated fields come from the stamp. */
  function NewUser(d: UserDraft, st: Stamp): (u: User)
    ensures DraftOfUser(u) == d
    ensures u.id == st.id && u.createdAt == st.now && u.updatedAt == st.now
  {
    User(st.id, d.nombre, d.apellido, d.email, d.celular, d.sector, d.rol, d.password, d.aprobado, st.now, st.now)
  }

  /** Partial<User>: a field that is None is absent from the patch. */
  datatype UserPatch = UserPatch(
    id: Option<string>, nombre: Option<string>, apellido: Option<string>, email: Option<string>,
    celular: Option<string>, sector: Option<string>, rol: Option<Role>, password: Option<string>,
    aprobado: Option<bool>, createdAt: Option<string>, updatedAt: Option<string>)

  const EmptyUserPatch := UserPatch(None, None, None, None, None, None, None, None, None, None, None)

  /** `{ ...old, ...patch, updatedAt: now }`. */
  function MergeUser(u: User, p: UserPatch, now: string): (r: User)
    ensures r.updatedAt == now
  {
    User(p.id.GetOr(u.id), p.nombre.GetOr(u.nombre), p.apellido.GetOr(u.apellido), p.email.GetOr(u.email),
         p.celular.GetOr(u.celular), p.sector.GetOr(u.sector), p.rol.GetOr(u.rol), p.password.GetOr(u.password),
         p.aprobado.GetOr(u.aprobado), p.createdAt.GetOr(u.createdAt), now)
  }

  /** An empty patch refreshes `updatedAt` and nothing else. */
  lemma MergeUserEmptyPatch(u: User, now: string)
    ensures MergeUser(u, EmptyUserPatch, now) == u.(updatedAt := now)
  {
  }

  /** An `updatedAt` carried by the patch is overridden by the new time. */
  lemma MergeUserIgnoresPatchedUpdatedAt(u: User, p: UserPatch, t: string, now: string)
    ensures MergeUser(u, p.(updatedAt := Some(t)), now) == MergeUser(u, p, now)
  {
  }

  /** Applying the same patch twice at the same time changes nothing more. */
  lemma MergeUserIdempotent(u: User, p: UserPatch, now: string)
    ensures MergeUser(MergeUser(u, p, now), p, now) == MergeUser(u, p, now)
  {
  }

  /** The approval an administrator grants (`{ aprobado: true }`) changes the
      approval flag and the update time only. */
  lemma ApprovalPatch(u: User, now: string)
    ensures MergeUser(u, EmptyUserPatch.(aprobado := Some(true)), now) == u.(aprobado := true, updatedAt := now)
  {
  }

  // ----- Events

  datatype Contacto = Contacto(id: string, nombre: string, telefono: string, email: Option<string>)
  datatype Autoridad = Autoridad(id: string, nombre: string, cargo: string)
  datatype Informe = Informe(resumen: string, imagenes: seq<string>, videos: seq<string>, subidoEn: string)
  datatype QrCode = QrCode(data: string, url: string, generadoEn: string)

  /** The fields a caller supplies to createEvent. `asignadoA` is not in the
      declared interface, but the creation route stores whatever the body
      carries and the pages read it. */
  datatype EventDraft = EventDraft(
    sector: string, categoria: string, titulo: string, descripcion: string,
    contactos: seq<Contacto>, fecha: string, horaInicio: string, horaFin: string,
    ubicacion: string, numeroConvocados: int, autoridades: seq<Autoridad>,
    creadoPor: string, asignadoA: Option<string>, finalizado: bool,
    informe: Option<Informe>, qrCode: Option<QrCode>)

  datatype Event = Event(
    id: string, sector: string, categoria: string, titulo: string, descripcion: string,
    contactos: seq<Contacto>, fecha: string, horaInicio: string, horaFin: string,
    ubicacion: string, numeroConvocados: int, autoridades: seq<Autoridad>,
    creadoPor: string, asignadoA: Option<string>, finalizado: bool,
    informe: Option<Informe>, qrCode: Option<QrCode>, createdAt: string, updatedAt: string)

  function DraftOfEvent(e: Event): EventDraft {
    EventDraft(e.sector, e.categoria, e.titulo, e.descripcion, e.contactos, e.fecha, e.horaInicio,
               e.horaFin, e.ubicacion, e.numeroConvocados, e.autoridades, e.creadoPor, e.asignadoA,
               e.finalizado, e.informe, e.qrCode)
  }

  function NewEvent(d: EventDraft, st: Stamp): (e: Event)
    ensures DraftOfEvent(e) == d
    ensures e.id == st.id && e.createdAt == st.now && e.updatedAt == st.now
  {
    Event(st.id, d.sector, d.categoria, d.titulo, d.descripcion, d.contactos, d.fecha, d.horaInicio,
          d.horaFin, d.ubicacion, d.numeroConvocados, d.autoridades, d.creadoPor, d.asignadoA,
          d.finalizado, d.informe, d.qrCode, st.now, st.now)
  }

  /** Partial<Event>. A Some field sets that field; patches never remove one. */
  datatype EventPatch = EventPatch(
    id: Option<string>, sector: Option<string>, categoria: Option<string>, titulo: Option<string>,
    descripcion: Option<string>, contactos: Option<seq<Contacto>>, fecha: Option<string>,
    horaInicio: Option<string>, horaFin: Option<string>, ubicacion: Option<string>,
    numeroConvocados: Option<int>, autoridades: Option<seq<Autoridad>>, creadoPor: Option<string>,
    asignadoA: Option<string>, finalizado: Option<bool>, informe: Option<Informe>,
    qrCode: Option<QrCode>, createdAt: Option<string>, updatedAt: Option<string>)

  const EmptyEventPatch := EventPatch(None, None, None, None, None, None, None, None, None, None,
                                      None, None, None, None, None, None, None, None, None)

  function MergeEvent(e: Event, p: EventPatch, now: string): (r: Event)
    ensures r.updatedAt == now
  {
    Event(p.id.GetOr(e.id), p.sector.GetOr(e.sector), p.categoria.GetOr(e.categoria),
          p.titulo.GetOr(e.titulo), p.descripcion.GetOr(e.descripcion), p.contactos.GetOr(e.contactos),
          p.fecha.GetOr(e.fecha), p.horaInicio.GetOr(e.horaInicio), p.horaFin.GetOr(e.horaFin),
          p.ubicacion.GetOr(e.ubicacion), p.numeroConvocados.GetOr(e.numeroConvocados),
          p.autoridades.GetOr(e.autoridades), p.creadoPor.GetOr(e.creadoPor),
          if p.asignadoA.Some? then p.asignadoA else e.asignadoA,
          p.finalizado.GetOr(e.finalizado),
          if p.informe.Some? then p.informe else e.informe,
          if p.qrCode.Some? then p.qrCode else e.qrCode,
          p.createdAt.GetOr(e.createdAt), now)
  }

  lemma MergeEventEmptyPatch(e: Event, now: string)
    ensures MergeEvent(e, EmptyEventPatch, now) == e.(updatedAt := now)
  {
  }

  lemma MergeEventIgnoresPatchedUpdatedAt(e: Event, p: EventPatch, t: string, now: string)
    ensures MergeEvent(e, p.(updatedAt := Some(t)), now) == MergeEvent(e, p, now)
  {
  }

  /** A patch of the description alone leaves the title and every other field
      as they were. */
  lemma MergeEventDescription(e: Event, d: string, now: string)
    ensures MergeEvent(e, EmptyEventPatch.(descripcion := Some(d)), now) == e.(descripcion := d, updatedAt := now)
  {
  }

  // ----- Questions and logs

  datatype PreguntaDraft = PreguntaDraft(eventId: string, nombre: Option<string>, pregunta: string)

  /** A question has a creation time and no update time. */
  datatype Pregunta = Pregunta(id: string, eventId: string, nombre: Option<string>, pregunta: string, createdAt: string)

  function NewPregunta(d: PreguntaDraft, st: Stamp): (p: Pregunta)
    ensures p.id == st.id && p.createdAt == st.now
    ensures p.eventId == d.eventId && p.nombre == d.nombre && p.pregunta == d.pregunta
  {
    Pregunta(st.id, d.eventId, d.nombre, d.pregunta, st.now)
  }

  /** Log metadata, `Record<string, any>`, with string values. */
  type Meta = map<string, string>

  datatype LogDraft = LogDraft(actor: string, action: string, targetId: Option<string>, meta: Option<Meta>)

  datatype Log = Log(id: string, timestamp: string, actor: string, action: string, targetId: Option<string>, meta: Option<Meta>)

  const LogIdPrefix := "log_"

  /** Log ids are `log_` followed by the clock reading. */
  function NewLog(d: LogDraft, st: Stamp): (l: Log)
    ensures IsPrefix(LogIdPrefix, l.id) && l.id[|LogIdPrefix|..] == st.id
    ensures l.timestamp == st.now
    ensures l.actor == d.actor && l.action == d.action && l.targetId == d.targetId && l.meta == d.meta
  {
    Log(LogIdPrefix + st.id, st.now, d.actor, d.action, d.targetId, d.meta)
  }

  // ----- Look-ups and queries (findIndex and filter over a collection)

  function UserIndex(users: seq<User>, id: string): Option<nat> {
    FindFirst(users, (u: User) => u.id == id)
  }

  function EventIndex(events: seq<Event>, id: string): Option<nat> {
    FindFirst(events, (e: Event) => e.id == id)
  }

  function PreguntasOfEvent(ps: seq<Pregunta>, eventId: string): seq<Pregunta> {
    Filter(ps, (p: Pregunta) => p.eventId == eventId)
  }

  function LogsWithAction(logs: seq<Log>, action: string): seq<Log> {
    Filter(logs, (l: Log) => l.action == action)
  }

  function LogsWithActor(logs: seq<Log>, actor: string): seq<Log> {
    Filter(logs, (l: Log) => l.actor == actor)
  }

  /** The questions returned for an event are exactly the stored questions
      about it. */
  lemma PreguntasOfEventExact(ps: seq<Pregunta>, eventId: string, q: Pregunta)
    ensures q in PreguntasOfEvent(ps, eventId) <==> q in ps && q.eventId == eventId
  {
    var r := PreguntasOfEvent(ps, eventId);
    if q in r {
      var i :| 0 <= i < |r| && r[i] == q;
    }
    if q in ps && q.eventId == eventId {
      var i :| 0 <= i < |ps| && ps[i] == q;
    }
  }

  /** The four collections as a caller of the store sees them. */
  datatype Collections = Collections(users: seq<User>, events: seq<Event>, preguntas: seq<Pregunta>, logs: seq<Log>)

  /** The contents of a backing file; reading one that is absent yields []. */
  function Stored<T>(file: Option<seq<T>>): (s: seq<T>)
    ensures file.None? ==> s == []
  {
    match file
    case None => []
    case Some(s) => s
  }

  class Database {
    var usersFile: Option<seq<User>>
    var eventsFile: Option<seq<Event>>
    var preguntasFile: Option<seq<Pregunta>>
    var logsFile: Option<seq<Log>>

    /** The store over whatever the data directory holds. */
    constructor (users: Option<seq<User>>, events: Option<seq<Event>>,
                 preguntas: Option<seq<Pregunta>>, logs: Option<seq<Log>>)
      ensures usersFile == users && eventsFile == events
      ensures preguntasFile == preguntas && logsFile == logs
    {
      usersFile, eventsFile, preguntasFile, logsFile := users, events, preguntas, logs;
    }

    function Users(): seq<User> reads this { Stored(usersFile) }
    function Events(): seq<Event> reads this { Stored(eventsFile) }
    function Preguntas(): seq<Pregunta> reads this { Stored(preguntasFile) }
    function Logs(): seq<Log> reads this { Stored(logsFile) }

    function Snapshot(): Collections reads this {
      Collections(Users(), Events(), Preguntas(), Logs())
    }

    predicate FilesExist() reads this {
      usersFile.Some? && eventsFile.Some? && preguntasFile.Some? && logsFile.Some?
    }

    /** initializeFiles: every missing backing file is created holding []; no
        collection changes as seen through the store. */
    method InitializeFiles()
      modifies this
      ensures FilesExist()
      ensures Snapshot() == old(Snapshot())
    {
      if usersFile.None? { usersFile := Some([]); }
      if eventsFile.None? { eventsFile := Some([]); }
      if preguntasFile.None? { preguntasFile := Some([]); }
      if logsFile.None? { logsFile := Some([]); }
    }

    // ----- Users

    method GetUsers() returns (users: seq<User>)
      modifies this
      ensures users == old(Users())
      ensures FilesExist() && Snapshot() == old(Snapshot())
    {
      InitializeFiles();
      users := usersFile.value;
    }

    method SaveUsers(users: seq<User>)
      modifies this
      ensures FilesExist() && Snapshot() == old(Snapshot()).(users := users)
    {
      InitializeFiles();
      usersFile := Some(users);
    }

    /** createUser appends exactly one record at the end. */
    method CreateUser(d: UserDraft, st: Stamp) returns (u: User)
      modifies this
      ensures u == NewUser(d, st)
      ensures FilesExist() && Snapshot() == old(Snapshot()).(users := old(Users()) + [u])
    {
      var users := GetUsers();
      u := NewUser(d, st);
      users := users + [u];
      SaveUsers(users);
    }

    /** updateUser: an unknown id gives null and writes nothing; otherwise only
        the first record with that id is replaced by its merge with the patch. */
    method UpdateUser(id: string, patch: UserPatch, now: string) returns (r: Option<User>)
      modifies this
      ensures FilesExist()
      ensures match UserIndex(old(Users()), id)
              case None => r.None? && Snapshot() == old(Snapshot())
              case Some(i) =>
                && r == Some(MergeUser(old(Users())[i], patch, now))
                && Snapshot() == old(Snapshot()).(users := old(Users())[i := r.value])
    {
      var users := GetUsers();
      var index := UserIndex(users, id);
      if index.None? {
        return None;
      }
      var i := index.value;
      users := users[i := MergeUser(users[i], patch, now)];
      SaveUsers(users);
      r := Some(users[i]);
    }

    // ----- Events

    method GetEvents() returns (events: seq<Event>)
      modifies this
      ensures events == old(Events())
      ensures FilesExist() && Snapshot() == old(Snapshot())
    {
      InitializeFiles();
      events := eventsFile.value;
    }

    method SaveEvents(events: seq<Event>)
      modifies this
      ensures FilesExist() && Snapshot() == old(Snapshot()).(events := events)
    {
      InitializeFiles();
      eventsFile := Some(events);
    }

    method CreateEvent(d: EventDraft, st: Stamp) returns (e: Event)
      modifies this
      ensures e == NewEvent(d, st)
      ensures FilesExist() && Snapshot() == old(Snapshot()).(events := old(Events()) + [e])
    {
      var events := GetEvents();
      e := NewEvent(d, st);
      events := events + [e];
      SaveEvents(events);
    }

    method UpdateEvent(id: string, patch: EventPatch, now: string) returns (r: Option<Event>)
      modifies this
      ensures FilesExist()
      ensures match EventIndex(old(Events()), id)
              case None => r.None? && Snapshot() == old(Snapshot())
              case Some(i) =>
                && r == Some(MergeEvent(old(Events())[i], patch, now))
                && Snapshot() == old(Snapshot()).(events := old(Events())[i := r.value])
    {
      var events := GetEvents();
      var index := EventIndex(events, id);
      if index.None? {
        return None;
      }
      var i := index.value;
      events := events[i := MergeEvent(events[i], patch, now)];
      SaveEvents(events);
      r := Some(events[i]);
    }

    /** deleteEvent: an unknown id gives false and writes nothing; otherwise the
        first record with that id is spliced out and the rest keep their order. */
    method DeleteEvent(id: string) returns (deleted: bool)
      modifies this
      ensures FilesExist()
      ensures deleted <==> EventIndex(old(Events()), id).Some?
      ensures match EventIndex(old(Events()), id)
              case None => Snapshot() == old(Snapshot())
              case Some(i) => Snapshot() == old(Snapshot()).(events := old(Events())[..i] + old(Events())[i + 1..])
    {
      var events := GetEvents();
      var index := EventIndex(events, id);
      if index.None? {
        return false;
      }
      var i := index.value;
      events := events[..i] + events[i + 1..];
      SaveEvents(events);
      deleted := true;
    }

    // ----- Questions

    method GetPreguntas() returns (preguntas: seq<Pregunta>)
      modifies this
      ensures preguntas == old(Preguntas())
      ensures FilesExist() && Snapshot() == old(Snapshot())
    {
      InitializeFiles();
      preguntas := preguntasFile.value;
    }

    method SavePreguntas(preguntas: seq<Pregunta>)
      modifies this
      ensures FilesExist() && Snapshot() == old(Snapshot()).(preguntas := preguntas)
    {
      InitializeFiles();
      preguntasFile := Some(preguntas);
    }

    method CreatePregunta(d: PreguntaDraft, st: Stamp) returns (p: Pregunta)
      modifies this
      ensures p == NewPregunta(d, st)
      ensures FilesExist() && Snapshot() == old(Snapshot()).(preguntas := old(Preguntas()) + [p])
    {
      var preguntas := GetPreguntas();
      p := NewPregunta(d, st);
      preguntas := preguntas + [p];
      SavePreguntas(preguntas);
    }

    method GetPreguntasByEventId(eventId: string) returns (r: seq<Pregunta>)
      modifies this
      ensures r == PreguntasOfEvent(old(Preguntas()), eventId)
      ensures FilesExist() && Snapshot() == old(Snapshot())
    {
      var preguntas := GetPreguntas();
      r := PreguntasOfEvent(preguntas, eventId);
    }

    // ----- Audit logs

    method GetLogs() returns (logs: seq<Log>)
      modifies this
      ensures logs == old(Logs())
      ensures FilesExist() && Snapshot() == old(Snapshot())
    {
      InitializeFiles();
      logs := logsFile.value;
    }

    method SaveLogs(logs: seq<Log>)
      modifies this
      ensures FilesExist() && Snapshot() == old(Snapshot()).(logs := logs)
    {
      InitializeFiles();
      logsFile := Some(logs);
    }

    method CreateLog(d: LogDraft, st: Stamp) returns (l: Log)
      modifies this
      ensures l == NewLog(d, st)
      ensures FilesExist() && Snapshot() == old(Snapshot()).(logs := old(Logs()) + [l])
    {
      var logs := GetLogs();
      l := NewLog(d, st);
      logs := logs + [l];
      SaveLogs(logs);
    }

    method GetLogsByAction(action: string) returns (r: seq<Log>)
      modifies this
      ensures r == LogsWithAction(old(Logs()), action)
      ensures FilesExist() && Snapshot() == old(Snapshot())
    {
      var logs := GetLogs();
      r := LogsWithAction(logs, action);
    }

    method GetLogsByActor(actor: string) returns (r: seq<Log>)
      modifies this
      ensures r == LogsWithActor(old(Logs()), actor)
      ensures FilesExist() && Snapshot() == old(Snapshot())
    {
      var logs := GetLogs();
      r := LogsWithActor(logs, actor);
    }
  }
}
