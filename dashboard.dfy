/** The metrics dashboard (src/app/admin/dashboard/page.tsx): administrators
    only; counts over users and events, and per-sector and per-category
    tallies. */
module Dashboard {
  import opened Common
  import opened Store
  import opened Auth
  import opened Tally

  predicate IsFinished(e: Event) { e.finalizado }
  function SectorOf(e: Event): string { e.sector }
  function CategoryOf(e: Event): string { e.categoria }
  function Convocados(e: Event): int { e.numeroConvocados }
  function OneEvent(e: Event): int { 1 }

  datatype Metrics = Metrics(
    totalUsers: nat, approvedUsers: nat, pendingUsers: nat,
    totalEvents: nat, finishedEvents: nat, activeEvents: nat,
    totalAttendees: int,
    eventsBySector: seq<Entry>, eventsByCategory: seq<Entry>, attendeesBySector: seq<Entry>,
    totalQuestions: nat)

  /** The figures the page computes, as one value. */
  function MetricsOf(users: seq<User>, events: seq<Event>, preguntas: seq<Pregunta>): Metrics {
    Metrics(
      |users|, |Filter(users, IsApproved)|, |Filter(users, Not(IsApproved))|,
      |events|, |Filter(events, IsFinished)|, |Filter(events, Not(IsFinished))|,
      SumOf(events, Convocados),
      TallyOf(events, SectorOf, OneEvent), TallyOf(events, CategoryOf, OneEvent),
      TallyOf(events, SectorOf, Convocados),
      |preguntas|)
  }

  /** The computation, with the sums as the loops they are. Every user is
      approved or pending and every event finished or active; each event
      counts once in its sector and once in its category; the attendees per
      sector add up to the total attendees, over the same sectors. */
  method ComputeMetrics(users: seq<User>, events: seq<Event>, preguntas: seq<Pregunta>) returns (m: Metrics)
    ensures m == MetricsOf(users, events, preguntas)
    ensures m.approvedUsers + m.pendingUsers == m.totalUsers == |users|
    ensures m.finishedEvents + m.activeEvents == m.totalEvents == |events|
    ensures m.totalAttendees == SumOf(events, Convocados)
    ensures Total(m.eventsBySector) == m.totalEvents && Total(m.eventsByCategory) == m.totalEvents
    ensures Total(m.attendeesBySector) == m.totalAttendees
    ensures KeySet(m.eventsBySector) == KeySet(m.attendeesBySector) == Image(events, SectorOf)
    ensures KeySet(m.eventsByCategory) == Image(events, CategoryOf)
  {
    var approved := Filter(users, IsApproved);
    var pending := Filter(users, Not(IsApproved));
    FilterPartition(users, IsApproved);
    var finished := Filter(events, IsFinished);
    var active := Filter(events, Not(IsFinished));
    FilterPartition(events, IsFinished);
    var totalAttendees := Sum(events, Convocados);
    var bySector := Reduce(events, SectorOf, OneEvent);
    var byCategory := Reduce(events, CategoryOf, OneEvent);
    var attendeesBySector := Reduce(events, SectorOf, Convocados);
    SumOfOnes(events, OneEvent);
    TallyKeys(events, SectorOf, OneEvent);
    TallyKeys(events, CategoryOf, OneEvent);
    TallyKeys(events, SectorOf, Convocados);
    m := Metrics(|users|, |approved|, |pending|, |events|, |finished|, |active|, totalAttendees,
                 bySector, byCategory, attendeesBySector, |preguntas|);
  }

  datatype DashboardView = LoginRedirect(location: string) | AccessDenied | MetricsView(metrics: Metrics)

  /** The page: requireAuth may redirect; a non-admin gets the denied card
      and no collection is read; an administrator gets the metrics of the
      four collections as stored. */
  method Page(db: Database, session: Option<SessionUser>) returns (v: DashboardView)
    modifies db
    ensures db.Snapshot() == old(db.Snapshot())
    ensures RequireAuth(session).Redirect? ==> v == LoginRedirect(RequireAuth(session).location) && unchanged(db)
    ensures RequireAuth(session).Granted? && session.value.rol != Admin ==> v == AccessDenied && unchanged(db)
    ensures RequireAdmin(session).Granted? ==>
              v == MetricsView(MetricsOf(old(db.Users()), old(db.Events()), old(db.Preguntas())))
  {
    match RequireAuth(session)
    case Redirect(l) =>
      v := LoginRedirect(l);
    case Granted(s) =>
      if s.rol != Admin {
        v := AccessDenied;
      } else {
        var users := db.GetUsers();
        var events := db.GetEvents();
        var preguntas := db.GetPreguntas();
        var logs := db.GetLogs();
        var m := ComputeMetrics(users, events, preguntas);
        v := MetricsView(m);
      }
  }
}
