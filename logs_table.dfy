/** The audit-log table (src/app/admin/logs/LogsTable.tsx): a search box, an
    action filter, sortable columns and pages of twenty rows. The table's
    state is a value, each control is a function from state to state, and
    the rows shown are a function of the logs and the state. */
module LogsTable {
  import opened Common
  import opened Sorting
  import opened Store
  import Audit

  datatype SortField = ByTimestamp | ByActor | ByAction
  datatype Direction = Asc | Desc

  datatype TableState = TableState(
    searchTerm: string, filterAction: string, sortField: SortField,
    sortDirection: Direction, currentPage: int)

  const ItemsPerPage: nat := 20

  const InitialTable := TableState("", "", ByTimestamp, Desc, 1)

  // ----- Filtering

  /** `log.meta?.[key]?.toLowerCase().includes(term)`. */
  predicate MetaIncludes(l: Log, key: string, term: string) {
    l.meta.Some? && key in l.meta.value && Includes(ToLower(l.meta.value[key]), term)
  }

  /** The search box matches the actor, the action, the event title or the
      user email, ignoring case. */
  predicate MatchesSearch(l: Log, searchTerm: string) {
    var t := ToLower(searchTerm);
    Includes(ToLower(l.actor), t) || Includes(ToLower(l.action), t)
    || MetaIncludes(l, Audit.EventNameKey, t) || MetaIncludes(l, Audit.UserEmailKey, t)
  }

  predicate MatchesFilter(l: Log, filterAction: string) {
    filterAction == "" || l.action == filterAction
  }

  function KeepLog(searchTerm: string, filterAction: string): Log -> bool {
    (l: Log) => MatchesSearch(l, searchTerm) && MatchesFilter(l, filterAction)
  }

  function FilterLogs(logs: seq<Log>, st: TableState): (r: seq<Log>)
    ensures forall i :: 0 <= i < |r| ==> r[i] in logs && MatchesSearch(r[i], st.searchTerm) && MatchesFilter(r[i], st.filterAction)
    ensures forall i :: 0 <= i < |logs| && MatchesSearch(logs[i], st.searchTerm) && MatchesFilter(logs[i], st.filterAction)
              ==> logs[i] in r
  {
    Filter(logs, KeepLog(st.searchTerm, st.filterAction))
  }

  /** An empty search and no action filter show every log, in order. */
  lemma EmptyCriteriaKeepAll(logs: seq<Log>, st: TableState)
    requires st.searchTerm == "" && st.filterAction == ""
    ensures FilterLogs(logs, st) == logs
  {
    forall i | 0 <= i < |logs| ensures KeepLog(st.searchTerm, st.filterAction)(logs[i]) {
      IncludesEmpty(ToLower(logs[i].actor));
    }
    FilterKeepsAll(logs, KeepLog(st.searchTerm, st.filterAction));
  }

  // ----- Sorting

  function SortKey(l: Log, field: SortField): string {
    match field
    case ByTimestamp => l.timestamp
    case ByActor => l.actor
    case ByAction => l.action
  }

  /** The comparator: `a` may come before `b`. */
  function Order(field: SortField, dir: Direction): (Log, Log) -> bool {
    (a: Log, b: Log) =>
      if dir == Asc then StrLe(SortKey(a, field), SortKey(b, field))
      else StrLe(SortKey(b, field), SortKey(a, field))
  }

  lemma OrderIsTotalPreorder(field: SortField, dir: Direction)
    ensures TotalPreorder(Order(field, dir))
  {
    var le := Order(field, dir);
    forall a: Log, b: Log ensures le(a, b) || le(b, a) {
      StrLeTotal(SortKey(a, field), SortKey(b, field));
    }
    forall a: Log, b: Log, c: Log | le(a, b) && le(b, c) ensures le(a, c) {
      if dir == Asc {
        StrLeTransitive(SortKey(a, field), SortKey(b, field), SortKey(c, field));
      } else {
        StrLeTransitive(SortKey(c, field), SortKey(b, field), SortKey(a, field));
      }
    }
  }

  /** `[...filteredLogs].sort(...)`: a sorted copy. */
  function SortedLogs(logs: seq<Log>, st: TableState): seq<Log> {
    SortBy(FilterLogs(logs, st), Order(st.sortField, st.sortDirection))
  }

  /** The rows to paginate are exactly the filtered logs, ordered by the
      chosen column in the chosen direction. */
  lemma SortedLogsSpec(logs: seq<Log>, st: TableState)
    ensures multiset(SortedLogs(logs, st)) == multiset(FilterLogs(logs, st))
    ensures SortedBy(SortedLogs(logs, st), Order(st.sortField, st.sortDirection))
  {
    OrderIsTotalPreorder(st.sortField, st.sortDirection);
    SortBySorted(FilterLogs(logs, st), Order(st.sortField, st.sortDirection));
  }

  // ----- Pagination

  /** `Math.ceil(n / 20)`. */
  function TotalPages(n: nat): (t: nat)
    ensures t * ItemsPerPage >= n
    ensures n > 0 ==> t >= 1 && (t - 1) * ItemsPerPage < n
    ensures n == 0 ==> t == 0
  {
    (n + ItemsPerPage - 1) / ItemsPerPage
  }

  /** An index as Array.prototype.slice reads it: negative counts from the
      end, and the result is clamped to [0, n]. */
  function SliceIndex(i: int, n: nat): (k: nat)
    ensures k <= n
    ensures 0 <= i <= n ==> k == i
  {
    if i < 0 then (if n + i < 0 then 0 else n + i) else if i > n then n else i
  }

  function Slice<T>(s: seq<T>, start: int, end: int): (r: seq<T>)
    ensures |r| <= |s|
  {
    var a := SliceIndex(start, |s|);
    var b := SliceIndex(end, |s|);
    if a < b then s[a..b] else []
  }

  /** The rows of page `page`. */
  function PageOf<T>(s: seq<T>, page: int): (r: seq<T>)
    ensures |r| <= ItemsPerPage
    ensures page >= 1 && (page - 1) * ItemsPerPage >= |s| ==> r == []
  {
    var start := (page - 1) * ItemsPerPage;
    Slice(s, start, start + ItemsPerPage)
  }

  /** Every row is on exactly the page its position says, and that page
      exists: the pages cover the rows. */
  lemma EveryRowOnItsPage<T>(s: seq<T>, i: nat)
    requires i < |s|
    ensures 1 <= i / ItemsPerPage + 1 <= TotalPages(|s|)
    ensures |PageOf(s, i / ItemsPerPage + 1)| > i % ItemsPerPage
    ensures PageOf(s, i / ItemsPerPage + 1)[i % ItemsPerPage] == s[i]
  {
    var p := i / ItemsPerPage + 1;
    var start := (p - 1) * ItemsPerPage;
    assert start == i - i % ItemsPerPage;
    assert start <= i < start + ItemsPerPage;
  }

  /** A page in range is not empty. */
  lemma PageInRangeNotEmpty<T>(s: seq<T>, page: int)
    requires 1 <= page <= TotalPages(|s|)
    ensures |PageOf(s, page)| >= 1
  {
  }

  function Rows(logs: seq<Log>, st: TableState): seq<Log> {
    SortedLogs(logs, st)
  }

  function PageCount(logs: seq<Log>, st: TableState): nat {
    TotalPages(|FilterLogs(logs, st)|)
  }

  /** What the table shows: the current page of the sorted rows. */
  function Visible(logs: seq<Log>, st: TableState): (r: seq<Log>)
    ensures |r| <= ItemsPerPage
  {
    PageOf(SortedLogs(logs, st), st.currentPage)
  }

  /** The page controls are rendered only when there is more than one page. */
  predicate ShowsPagination(logs: seq<Log>, st: TableState) {
    PageCount(logs, st) > 1
  }

  // ----- Controls

  /** A column header: the same column flips the direction, another column
      becomes the sort column, descending. */
  function HandleSort(st: TableState, field: SortField): (r: TableState)
    ensures r.searchTerm == st.searchTerm && r.filterAction == st.filterAction && r.currentPage == st.currentPage
    ensures r.sortField == field
    ensures field != st.sortField ==> r.sortDirection == Desc
    ensures field == st.sortField ==> r.sortDirection != st.sortDirection
  {
    if st.sortField == field then st.(sortDirection := if st.sortDirection == Asc then Desc else Asc)
    else st.(sortField := field, sortDirection := Desc)
  }

  /** Clicking the same header twice restores the state. */
  lemma HandleSortTwice(st: TableState)
    ensures HandleSort(HandleSort(st, st.sortField), st.sortField) == st
  {
  }

  function PrevPage(st: TableState): (r: TableState)
    ensures r == st.(currentPage := r.currentPage)
  {
    st.(currentPage := if st.currentPage - 1 < 1 then 1 else st.currentPage - 1)
  }

  function NextPage(logs: seq<Log>, st: TableState): (r: TableState)
    ensures r == st.(currentPage := r.currentPage)
  {
    var total := PageCount(logs, st);
    st.(currentPage := if st.currentPage + 1 < total then st.currentPage + 1 else total)
  }

  /** The page number stays within [1, totalPages] under Prev and Next,
      which are only on screen when there are two pages or more. */
  lemma PrevNextStayInRange(logs: seq<Log>, st: TableState)
    requires ShowsPagination(logs, st)
    requires 1 <= st.currentPage <= PageCount(logs, st)
    ensures 1 <= PrevPage(st).currentPage <= PageCount(logs, st)
    ensures 1 <= NextPage(logs, st).currentPage <= PageCount(logs, st)
  {
  }

  /** Typing in the search box and picking an action leave the page number
      as it was. */
  function SetSearchTerm(st: TableState, term: string): (r: TableState)
    ensures r.currentPage == st.currentPage && r.searchTerm == term
  {
    st.(searchTerm := term)
  }

  function SetFilterAction(st: TableState, action: string): (r: TableState)
    ensures r.currentPage == st.currentPage && r.filterAction == action
  {
    st.(filterAction := action)
  }

  /** A search typed while on page 3 that leaves at most twenty matches shows
      an empty table with no page controls to go back with, although logs
      match. Page 3 is where two clicks on Next lead with 41 logs or more. */
  lemma StalePageAfterSearch(logs: seq<Log>, term: string)
    requires |logs| > 2 * ItemsPerPage
    requires 1 <= |FilterLogs(logs, InitialTable.(searchTerm := term))| <= ItemsPerPage
    ensures var onThird := NextPage(logs, NextPage(logs, InitialTable));
            && onThird.currentPage == 3
            && var searched := SetSearchTerm(onThird, term);
               && |FilterLogs(logs, searched)| >= 1
               && Visible(logs, searched) == []
               && !ShowsPagination(logs, searched)
  {
    EmptyCriteriaKeepAll(logs, InitialTable);
    var onThird := NextPage(logs, NextPage(logs, InitialTable));
    var searched := SetSearchTerm(onThird, term);
    assert searched == InitialTable.(searchTerm := term, currentPage := 3);
    assert FilterLogs(logs, searched) == FilterLogs(logs, InitialTable.(searchTerm := term));
    assert |SortedLogs(logs, searched)| == |FilterLogs(logs, searched)|;
  }

  /** The evidently intended controls: changing the search or the filter
      goes back to the first page. */
  function SetSearchTermIntended(st: TableState, term: string): (r: TableState)
    ensures r.currentPage == 1 && r.searchTerm == term
  {
    st.(searchTerm := term, currentPage := 1)
  }

  function SetFilterActionIntended(st: TableState, action: string): (r: TableState)
    ensures r.currentPage == 1 && r.filterAction == action
  {
    st.(filterAction := action, currentPage := 1)
  }

  /** The page shown exists, or is the first. */
  predicate PageValid(logs: seq<Log>, st: TableState) {
    st.currentPage == 1 || 1 <= st.currentPage <= PageCount(logs, st)
  }

  /** With the intended controls the page is always valid, so whenever a
      log matches the table shows at least one row. */
  lemma IntendedControlsKeepPageValid(logs: seq<Log>, st: TableState, term: string, action: string, field: SortField)
    requires PageValid(logs, st)
    ensures PageValid(logs, SetSearchTermIntended(st, term))
    ensures PageValid(logs, SetFilterActionIntended(st, action))
    ensures PageValid(logs, HandleSort(st, field))
    ensures PageValid(logs, PrevPage(st))
    ensures ShowsPagination(logs, st) ==> PageValid(logs, NextPage(logs, st))
    ensures |FilterLogs(logs, st)| >= 1 ==> |Visible(logs, st)| >= 1
  {
    var h := HandleSort(st, field);
    assert FilterLogs(logs, h) == FilterLogs(logs, st);
    if |FilterLogs(logs, st)| >= 1 {
      PageInRangeNotEmpty(SortedLogs(logs, st), st.currentPage);
    }
  }

  // ----- Badges

  /** ACTION_COLORS, with the grey default for any other action. */
  function ActionColor(action: string): (c: string)
    ensures Audit.HelperOfTag(action).None? ==> c == DefaultColor
    ensures Audit.HelperOfTag(action).Some? ==> c == HelperColor(Audit.HelperOfTag(action).value)
  {
    match Audit.HelperOfTag(action)
    case None => DefaultColor
    case Some(h) => HelperColor(h)
  }

  /** The badge classes of the action each audit helper writes; the hue
      sits at positions 3 and 4. */
  function HelperColor(h: Audit.Helper): (c: string)
    ensures |c| > 4
  {
    match h
    case EventCreation => "bg-green-100 text-green-800"
    case EventUpdate => "bg-blue-100 text-blue-800"
    case EventDeletion => "bg-red-100 text-red-800"
    case EventFinalization => "bg-purple-100 text-purple-800"
    case ReportUpload => "bg-orange-100 text-orange-800"
    case UserRegistration => "bg-cyan-100 text-cyan-800"
    case UserApproval => "bg-emerald-100 text-emerald-800"
    case PublicQuestion => "bg-pink-100 text-pink-800"
  }

  const DefaultColor := "bg-gray-100 text-gray-800"

  /** ACTION_LABELS, falling back to the raw action. */
  function ActionLabel(action: string): (l: string)
    ensures Audit.HelperOfTag(action).None? ==> l == action
  {
    match Audit.HelperOfTag(action)
    case None => action
    case Some(h) =>
      match h
      case EventCreation => "Crear Evento"
      case EventUpdate => "Editar Evento"
      case EventDeletion => "Eliminar Evento"
      case EventFinalization => "Finalizar Evento"
      case ReportUpload => "Subir Informe"
      case UserRegistration => "Registrar Usuario"
      case UserApproval => "Aprobar Usuario"
      case PublicQuestion => "Pregunta Pública"
  }

  /** Every action the audit helpers write gets a colour other than the
      grey default and a label other than its tag. */
  lemma AuditActionsStyled(h: Audit.Helper)
    ensures ActionColor(Audit.ActionTag(h)) != DefaultColor
    ensures ActionLabel(Audit.ActionTag(h)) != Audit.ActionTag(h)
  {
    Audit.TagRoundTrip(h);
  }

  /** The two characters that tell the hues apart. */
  function HueCode(h: Audit.Helper): (char, char) {
    match h
    case EventCreation => ('g', 'r')
    case EventUpdate => ('b', 'l')
    case EventDeletion => ('r', 'e')
    case EventFinalization => ('p', 'u')
    case ReportUpload => ('o', 'r')
    case UserRegistration => ('c', 'y')
    case UserApproval => ('e', 'm')
    case PublicQuestion => ('p', 'i')
  }

  lemma HueAt(h: Audit.Helper)
    ensures (HelperColor(h)[3], HelperColor(h)[4]) == HueCode(h)
  {
  }

  /** No two audit actions share a badge colour. */
  lemma AuditColorsDistinct(h1: Audit.Helper, h2: Audit.Helper)
    ensures ActionColor(Audit.ActionTag(h1)) == ActionColor(Audit.ActionTag(h2)) ==> h1 == h2
  {
    Audit.TagRoundTrip(h1);
    Audit.TagRoundTrip(h2);
    HueAt(h1);
    HueAt(h2);
  }
}
