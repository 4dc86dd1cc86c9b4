/** The audit-log page (src/app/admin/logs/page.tsx): administrators only;
    the logs sorted newest first in place, three counters and the ten most
    frequent actions. */
module LogsPage {
  import opened Common
  import opened Sorting
  import opened Store
  import opened Auth
  import opened Tally

  /** The comparator `new Date(b) - new Date(a)`: newer first. Timestamps are
      ISO-8601 strings of one fixed format, which order as their instants. */
  function NewestFirst(): (Log, Log) -> bool {
    (a: Log, b: Log) => StrLe(b.timestamp, a.timestamp)
  }

  lemma NewestFirstIsTotalPreorder()
    ensures TotalPreorder(NewestFirst())
  {
    var le := NewestFirst();
    forall a: Log, b: Log ensures le(a, b) || le(b, a) {
      StrLeTotal(a.timestamp, b.timestamp);
    }
    forall a: Log, b: Log, c: Log | le(a, b) && le(b, c) ensures le(a, c) {
      StrLeTransitive(c.timestamp, b.timestamp, a.timestamp);
    }
  }

  /** `logs.sort(...)`: the array is reordered where it is, and the result
      is the stable sort of its previous contents. */
  method SortNewestFirst(a: array<Log>)
    modifies a
    ensures a[..] == SortBy(old(a[..]), NewestFirst())
  {
    var sorted := SortBy(a[..], NewestFirst());
    var i := 0;
    while i < a.Length
      invariant 0 <= i <= a.Length == |sorted|
      invariant forall k :: 0 <= k < i ==> a[k] == sorted[k]
    {
      a[i] := sorted[i];
      i := i + 1;
    }
    assert a[..] == sorted;
  }

  /** After the sort the timestamps never increase down the list, and the
      same logs are there. */
  lemma SortedNewestFirst(logs: seq<Log>)
    ensures multiset(SortBy(logs, NewestFirst())) == multiset(logs)
    ensures forall i, j :: 0 <= i < j < |logs| ==>
              StrLe(SortBy(logs, NewestFirst())[j].timestamp, SortBy(logs, NewestFirst())[i].timestamp)
  {
    NewestFirstIsTotalPreorder();
    SortBySorted(logs, NewestFirst());
  }

  function ActionOf(l: Log): string { l.action }
  function ActorOf(l: Log): string { l.actor }
  function One(l: Log): int { 1 }

  /** `sort(([, a], [, b]) => b - a)`: larger counts first. */
  function ByCountDesc(): (Entry, Entry) -> bool {
    (a: Entry, b: Entry) => a.value >= b.value
  }

  const TopCount: nat := 10

  /** The badges: the tally's entries by decreasing count, the first ten. */
  function TopActions(byAction: seq<Entry>): seq<Entry> {
    var sorted := SortBy(byAction, ByCountDesc());
    if |sorted| <= TopCount then sorted else sorted[..TopCount]
  }

  /** At most ten badges, taken from the tally, in non-increasing count; an
      entry left out counts no more than any entry shown; with ten entries
      or fewer, all are shown. */
  lemma TopActionsSpec(byAction: seq<Entry>)
    ensures |TopActions(byAction)| <= TopCount
    ensures forall e :: e in TopActions(byAction) ==> e in byAction
    ensures forall i, j :: 0 <= i < j < |TopActions(byAction)| ==>
              TopActions(byAction)[i].value >= TopActions(byAction)[j].value
    ensures forall e, t :: e in byAction && e !in TopActions(byAction) && t in TopActions(byAction) ==>
              t.value >= e.value
    ensures |byAction| <= TopCount ==> multiset(TopActions(byAction)) == multiset(byAction)
  {
    var le := ByCountDesc();
    assert TotalPreorder(le);
    var sorted := SortBy(byAction, le);
    SortBySorted(byAction, le);
    var top := TopActions(byAction);
    assert top == sorted[..|top|];
    forall e | e in top ensures e in byAction {
      assert e in sorted;
      assert e in multiset(sorted);
    }
    forall e, t | e in byAction && e !in top && t in top ensures t.value >= e.value {
      assert e in multiset(sorted);
      var k :| 0 <= k < |sorted| && sorted[k] == e;
      var i :| 0 <= i < |top| && top[i] == t;
      assert le(sorted[i], sorted[k]);
    }
  }

  /** What the page renders. */
  datatype LogsView =
    | LoginRedirect(location: string)
    | AccessDenied
    | Dashboard(rows: seq<Log>, totalLogs: nat, byAction: seq<Entry>,
                uniqueActors: nat, actionTypes: nat, top: seq<Entry>)

  /** The page. requireAuth may redirect; an authenticated non-admin gets the
      access-denied card without the logs being read. Otherwise the logs
      are sorted newest first and counted: the per-action counts add up to
      the number of logs, the action types are the distinct actions, and no
      counter exceeds the number of logs. */
  method Page(db: Database, session: Option<SessionUser>) returns (v: LogsView)
    modifies db
    ensures db.Snapshot() == old(db.Snapshot())
    ensures RequireAuth(session).Redirect? ==> v == LoginRedirect(RequireAuth(session).location) && unchanged(db)
    ensures RequireAuth(session).Granted? && session.value.rol != Admin ==> v == AccessDenied && unchanged(db)
    ensures RequireAdmin(session).Granted? ==>
              && v.Dashboard?
              && v.rows == SortBy(old(db.Logs()), NewestFirst())
              && v.totalLogs == |old(db.Logs())|
              && v.byAction == TallyOf(v.rows, ActionOf, One)
              && Total(v.byAction) == v.totalLogs
              && v.actionTypes == |Image(old(db.Logs()), ActionOf)| <= v.totalLogs
              && v.uniqueActors == |Image(old(db.Logs()), ActorOf)| <= v.totalLogs
              && v.top == TopActions(v.byAction)
  {
    match RequireAuth(session)
    case Redirect(l) =>
      v := LoginRedirect(l);
    case Granted(s) =>
      if s.rol != Admin {
        v := AccessDenied;
      } else {
        var logs := db.GetLogs();
        var a := new Log[|logs|](i requires 0 <= i < |logs| => logs[i]);
        assert a[..] == logs;
        SortNewestFirst(a);
        var rows := a[..];
        var totalLogs := a.Length;
        var byAction := Reduce(rows, ActionOf, One);
        SumOfOnes(rows, One);
        SameImage(logs, rows, ActionOf);
        SameImage(logs, rows, ActorOf);
        ImageBound(logs, ActionOf);
        ImageBound(logs, ActorOf);
        var uniqueActors := |Image(rows, ActorOf)|;
        v := Dashboard(rows, totalLogs, byAction, uniqueActors, |byAction|, TopActions(byAction));
      }
  }

  /** Reordering does not change the set of keys. */
  lemma SameImage(s: seq<Log>, t: seq<Log>, key: Log -> string)
    requires multiset(s) == multiset(t)
    ensures Image(s, key) == Image(t, key)
  {
    forall k | k in Image(s, key) ensures k in Image(t, key) {
      var i :| 0 <= i < |s| && key(s[i]) == k;
      assert s[i] in multiset(t);
      var j :| 0 <= j < |t| && t[j] == s[i];
    }
    forall k | k in Image(t, key) ensures k in Image(s, key) {
      var j :| 0 <= j < |t| && key(t[j]) == k;
      assert t[j] in multiset(s);
      var i :| 0 <= i < |s| && s[i] == t[j];
    }
  }
}
