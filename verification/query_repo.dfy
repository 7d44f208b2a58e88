/**
 * The read-only reservation query repository, evaluated over an in-memory store
 * instead of a Cosmos DB container. Each query's WHERE clause is a `Condition`,
 * its ORDER BY an `Ordering.OrderBy`, and each document becomes a summary
 * through `MapToSummary`.
 */
module CosmosReservationQueryRepo {
  import opened Outcomes
  import opened DashboardEntities
  import opened Ordering

  /** A reservation as stored by the reservation service. */
  datatype ReservationDocument = ReservationDocument(
    id: string,
    userId: string,
    userEmail: string,
    deviceId: string,
    deviceModelId: string,
    status: ReservationStatus,
    reservedAt: Instant,
    expiresAt: Instant,
    collectedAt: Option<Instant>,
    returnDueAt: Option<Instant>,
    returnedAt: Option<Instant>,
    cancelledAt: Option<Instant>,
    notes: Option<string>,
    updatedAt: Instant)

  /** The eight queries the repository sends to the container. */
  datatype QueryKind =
    | ListAllQuery
    | ListOverdueQuery
    | ListPendingQuery
    | CountByStatusQuery
    | CountPendingQuery
    | CountOverdueQuery
    | CountReturnedQuery
    | CountReservedQuery

  /**
   * The container: its documents, and the queries that fail (unreachable store,
   * timeout, rejected query) together with the message each one throws.
   */
  datatype Store = Store(docs: seq<ReservationDocument>, faults: map<QueryKind, string>)

  /** Sends a query of kind `kind` whose result set is `rows`. */
  function Run<T>(store: Store, kind: QueryKind, rows: T): (r: Outcome<T>)
    ensures r.Ok? <==> kind !in store.faults
    ensures r.Ok? ==> r.value == rows
    ensures r.Err? ==> r.message == store.faults[kind]
  {
    if kind in store.faults then Err(store.faults[kind]) else Ok(rows)
  }

  // ---------------------------------------------------------------------------
  // WHERE clauses
  // ---------------------------------------------------------------------------

  /** A named query parameter, `{ name: '@status', value: 'Collected' }`. */
  datatype QueryParameter = QueryParameter(name: string, value: string)

  /** The text and parameters of one query. */
  datatype QuerySpec = QuerySpec(query: string, parameters: seq<QueryParameter>)

  /** The value a document holds in the column that parameter `name` is compared with. */
  function ColumnValue(d: ReservationDocument, name: string): Option<string> {
    if name == "@status" then Some(StatusName(d.status))
    else if name == "@userId" then Some(d.userId)
    else if name == "@deviceModelId" then Some(d.deviceModelId)
    else None
  }

  /** Every `c.<column> = @<column>` equality of the parameter list holds of `d`. */
  predicate ParametersHold(params: seq<QueryParameter>, d: ReservationDocument) {
    forall p :: p in params ==> ColumnValue(d, p.name) == Some(p.value)
  }

  /**
   * The WHERE clauses of the repository's queries. An absent optional instant
   * never satisfies a comparison, as an undefined property does in Cosmos SQL.
   */
  datatype Condition =
    | StatusEquals(status: ReservationStatus)       // c.status = @status
    | CollectedDueBefore(now: Instant)              // c.status = 'Collected' AND c.returnDueAt < @now
    | ReservedExpiringAfter(now: Instant)           // c.status = 'Reserved' AND c.expiresAt > @now
    | ReturnedSince(since: Instant)                 // c.status = 'Returned' AND c.returnedAt >= @since
    | ReservedSince(since: Instant)                 // c.reservedAt >= @since
    | ParametersEqual(params: seq<QueryParameter>)  // 1=1 AND c.<column> = @<column> ...
    | Matching(filters: ReservationFilters)         // what a listing's filters ask for

  predicate Satisfies(d: ReservationDocument, c: Condition) {
    match c
    case StatusEquals(s) => d.status == s
    case CollectedDueBefore(now) => d.status == Collected && d.returnDueAt.Some? && d.returnDueAt.value < now
    case ReservedExpiringAfter(now) => d.status == Reserved && d.expiresAt > now
    case ReturnedSince(since) => d.status == Returned && d.returnedAt.Some? && d.returnedAt.value >= since
    case ReservedSince(since) => d.reservedAt >= since
    case ParametersEqual(params) => ParametersHold(params, d)
    case Matching(f) => MatchesFilters(f, d)
  }

  /** The documents a WHERE clause admits, in store order, each as often as it is stored. */
  function Select(docs: seq<ReservationDocument>, c: Condition): (r: seq<ReservationDocument>)
    ensures |r| <= |docs|
  {
    if docs == [] then []
    else if Satisfies(docs[0], c) then [docs[0]] + Select(docs[1..], c)
    else Select(docs[1..], c)
  }

  /**
   * A document is selected iff it is stored and satisfies the clause, and it is
   * selected as many times as it is stored.
   */
  lemma {:induction false} SelectContents(docs: seq<ReservationDocument>, c: Condition)
    ensures forall d :: d in Select(docs, c) <==> d in docs && Satisfies(d, c)
    ensures forall d :: multiset(Select(docs, c))[d] == if Satisfies(d, c) then multiset(docs)[d] else 0
  {
    if docs != [] {
      SelectContents(docs[1..], c);
      assert docs == [docs[0]] + docs[1..];
    }
  }

  /** `SELECT VALUE COUNT(1) FROM c WHERE ...`: the number of documents a clause admits. */
  function Count(docs: seq<ReservationDocument>, c: Condition): (n: nat)
    ensures n == |Select(docs, c)|
  {
    if docs == [] then 0
    else (if Satisfies(docs[0], c) then 1 else 0) + Count(docs[1..], c)
  }

  /** A weaker clause admits at least as many documents. */
  lemma {:induction false} SelectSizeMonotone(docs: seq<ReservationDocument>, c1: Condition, c2: Condition)
    requires forall d :: Satisfies(d, c1) ==> Satisfies(d, c2)
    ensures |Select(docs, c1)| <= |Select(docs, c2)|
  {
    if docs != [] {
      SelectSizeMonotone(docs[1..], c1, c2);
    }
  }

  /** Two clauses that agree on every stored document select the same rows. */
  lemma {:induction false} SelectAgrees(docs: seq<ReservationDocument>, c1: Condition, c2: Condition)
    requires forall d :: d in docs ==> (Satisfies(d, c1) <==> Satisfies(d, c2))
    ensures Select(docs, c1) == Select(docs, c2)
  {
    if docs != [] {
      SelectAgrees(docs[1..], c1, c2);
    }
  }

  // ---------------------------------------------------------------------------
  // Projection
  // ---------------------------------------------------------------------------

  /**
   * The summary of one document read at instant `now`. `isOverdue` is forced by
   * the overdue listing and otherwise derived from the document; an absent
   * `returnDueAt` never makes a document overdue.
   */
  function MapToSummary(d: ReservationDocument, now: Instant, forceOverdue: bool): (s: ReservationSummary)
    ensures s.id == d.id && s.userId == d.userId && s.userEmail == d.userEmail
    ensures s.deviceId == d.deviceId && s.deviceModelId == d.deviceModelId && s.status == d.status
    ensures s.reservedAt == d.reservedAt && s.expiresAt == d.expiresAt
    ensures s.collectedAt == d.collectedAt && s.returnDueAt == d.returnDueAt && s.returnedAt == d.returnedAt
    ensures s.isOverdue <==> forceOverdue || (d.status == Collected && d.returnDueAt.Some? && now > d.returnDueAt.value)
  {
    var isOverdue := forceOverdue || (d.status == Collected && d.returnDueAt.Some? && now > d.returnDueAt.value);
    ReservationSummary(
      d.id, d.userId, d.userEmail, d.deviceId, d.deviceModelId, d.status,
      d.reservedAt, d.expiresAt, d.collectedAt, d.returnDueAt, d.returnedAt,
      isOverdue)
  }

  /** Summaries depend on no field the projection drops: cancelledAt, notes and updatedAt. */
  lemma ProjectionDropsWriteFields(d: ReservationDocument, cancelledAt: Option<Instant>, notes: Option<string>,
                                   updatedAt: Instant, now: Instant, forceOverdue: bool)
    ensures MapToSummary(d.(cancelledAt := cancelledAt, notes := notes, updatedAt := updatedAt), now, forceOverdue)
         == MapToSummary(d, now, forceOverdue)
  {
  }

  /** The derived flag is exactly the overdue query's WHERE clause evaluated at the same instant. */
  lemma DerivedOverdueIsOverdueClause(d: ReservationDocument, now: Instant)
    ensures MapToSummary(d, now, false).isOverdue <==> Satisfies(d, CollectedDueBefore(now))
  {
  }

  /** The summaries of `docs`, in order. */
  function Project(docs: seq<ReservationDocument>, now: Instant, forceOverdue: bool): (r: seq<ReservationSummary>)
    ensures |r| == |docs|
    ensures forall i :: 0 <= i < |docs| ==> r[i] == MapToSummary(docs[i], now, forceOverdue)
  {
    seq(|docs|, i requires 0 <= i < |docs| => MapToSummary(docs[i], now, forceOverdue))
  }

  // ---------------------------------------------------------------------------
  // listReservations
  // ---------------------------------------------------------------------------

  /** A string filter constrains the listing only when it is present and non-empty (JavaScript truthiness). */
  predicate Supplied(value: Option<string>) {
    value.Some? && value.value != ""
  }

  /**
   * The documents a filter set admits: the AND of an equality test for every
   * supplied filter among status, userId and deviceModelId. fromDate and toDate
   * constrain nothing.
   */
  predicate MatchesFilters(f: ReservationFilters, d: ReservationDocument) {
    && (f.status.Some? ==> d.status == f.status.value)
    && (Supplied(f.userId) ==> d.userId == f.userId.value)
    && (Supplied(f.deviceModelId) ==> d.deviceModelId == f.deviceModelId.value)
  }

  const SelectAllClause := "SELECT * FROM c WHERE 1=1"
  const OrderByReservedAtDesc := " ORDER BY c.reservedAt DESC"

  /** The name of the parameter compared with `column`: `@status` for `status`. */
  function ParameterName(column: string): string {
    "@" + column
  }

  /** The condition `AND c.<column> = @<column>` that the builder appends for one filter. */
  function EqualityClause(column: string): string {
    " AND c." + column + " = " + ParameterName(column)
  }

  /** A supplied filter: the column it constrains and the value it requires. */
  datatype Binding = Binding(column: string, value: string)

  /** The supplied filters, in the order the builder tests them. */
  function SuppliedBindings(f: ReservationFilters): seq<Binding> {
    (if f.status.Some? then [Binding("status", StatusName(f.status.value))] else [])
    + (if Supplied(f.userId) then [Binding("userId", f.userId.value)] else [])
    + (if Supplied(f.deviceModelId) then [Binding("deviceModelId", f.deviceModelId.value)] else [])
  }

  function EqualityClauses(bs: seq<Binding>): string {
    if bs == [] then "" else EqualityClause(bs[0].column) + EqualityClauses(bs[1..])
  }

  lemma {:induction false} EqualityClausesAppend(a: seq<Binding>, b: seq<Binding>)
    ensures EqualityClauses(a + b) == EqualityClauses(a) + EqualityClauses(b)
  {
    if a == [] {
      assert a + b == b;
    } else {
      assert (a + b)[0] == a[0];
      assert (a + b)[1..] == a[1..] + b;
      EqualityClausesAppend(a[1..], b);
    }
  }

  /** The parameter each binding contributes: `{ name: '@<column>', value }`. */
  function Parameters(bs: seq<Binding>): (ps: seq<QueryParameter>)
    ensures |ps| == |bs|
  {
    if bs == [] then [] else [QueryParameter(ParameterName(bs[0].column), bs[0].value)] + Parameters(bs[1..])
  }

  lemma {:induction false} ParametersAppend(a: seq<Binding>, b: seq<Binding>)
    ensures Parameters(a + b) == Parameters(a) + Parameters(b)
  {
    if a == [] {
      assert a + b == b;
    } else {
      assert (a + b)[0] == a[0];
      assert (a + b)[1..] == a[1..] + b;
      ParametersAppend(a[1..], b);
    }
  }

  /** The parameters of the listing query: one per supplied filter, in the same order as its clauses. */
  function ListParameters(f: ReservationFilters): seq<QueryParameter> {
    Parameters(SuppliedBindings(f))
  }

  /** The text of the listing query: one equality clause per supplied filter between SELECT and ORDER BY. */
  function ListQueryText(f: ReservationFilters): string {
    SelectAllClause + EqualityClauses(SuppliedBindings(f)) + OrderByReservedAtDesc
  }

  lemma AppendAssociative(a: string, b: string, c: string)
    ensures (a + b) + c == a + (b + c)
  {
  }

  /** Appending one binding appends its clause to the text and its parameter to the list. */
  lemma AppendBinding(bound: seq<Binding>, b: Binding)
    ensures EqualityClauses(bound + [b]) == EqualityClauses(bound) + EqualityClause(b.column)
    ensures Parameters(bound + [b]) == Parameters(bound) + [QueryParameter(ParameterName(b.column), b.value)]
  {
    EqualityClausesAppend(bound, [b]);
    ParametersAppend(bound, [b]);
    assert [b][1..] == [];
    assert EqualityClause(b.column) + "" == EqualityClause(b.column);
  }

  /**
   * Builds the listing query, appending one equality clause to the text and one
   * parameter to the list per supplied filter.
   */
  method BuildListQuery(filters: ReservationFilters) returns (spec: QuerySpec)
    ensures spec.query == ListQueryText(filters)
    ensures spec.parameters == ListParameters(filters)
  {
    var query := SelectAllClause;
    var parameters: seq<QueryParameter> := [];
    ghost var bound: seq<Binding> := [];
    assert query == SelectAllClause + EqualityClauses(bound) by {
      assert SelectAllClause + "" == SelectAllClause;
    }

    if filters.status.Some? {
      var b := Binding("status", StatusName(filters.status.value));
      AppendBinding(bound, b);
      AppendAssociative(SelectAllClause, EqualityClauses(bound), EqualityClause(b.column));
      query := query + EqualityClause("status");
      parameters := parameters + [QueryParameter(ParameterName("status"), b.value)];
      bound := bound + [b];
    }
    assert query == SelectAllClause + EqualityClauses(bound);
    if Supplied(filters.userId) {
      var b := Binding("userId", filters.userId.value);
      AppendBinding(bound, b);
      AppendAssociative(SelectAllClause, EqualityClauses(bound), EqualityClause(b.column));
      query := query + EqualityClause("userId");
      parameters := parameters + [QueryParameter(ParameterName("userId"), b.value)];
      bound := bound + [b];
    }
    assert query == SelectAllClause + EqualityClauses(bound);
    if Supplied(filters.deviceModelId) {
      var b := Binding("deviceModelId", filters.deviceModelId.value);
      AppendBinding(bound, b);
      AppendAssociative(SelectAllClause, EqualityClauses(bound), EqualityClause(b.column));
      query := query + EqualityClause("deviceModelId");
      parameters := parameters + [QueryParameter(ParameterName("deviceModelId"), b.value)];
      bound := bound + [b];
    }
    assert query == SelectAllClause + EqualityClauses(bound);
    assert bound == SuppliedBindings(filters);

    query := query + OrderByReservedAtDesc;
    spec := QuerySpec(query, parameters);
  }

  /** Parameter names for the three filter columns. */
  lemma ParameterNames()
    ensures ParameterName("status") == "@status"
    ensures ParameterName("userId") == "@userId"
    ensures ParameterName("deviceModelId") == "@deviceModelId"
  {
  }

  /** The listing parameters, written out filter by filter. */
  lemma ListParametersUnfolded(f: ReservationFilters)
    ensures ListParameters(f)
         == (if f.status.Some? then [QueryParameter("@status", StatusName(f.status.value))] else [])
          + (if Supplied(f.userId) then [QueryParameter("@userId", f.userId.value)] else [])
          + (if Supplied(f.deviceModelId) then [QueryParameter("@deviceModelId", f.deviceModelId.value)] else [])
  {
    var s := if f.status.Some? then [Binding("status", StatusName(f.status.value))] else [];
    var u := if Supplied(f.userId) then [Binding("userId", f.userId.value)] else [];
    var m := if Supplied(f.deviceModelId) then [Binding("deviceModelId", f.deviceModelId.value)] else [];
    ParametersAppend(s + u, m);
    ParametersAppend(s, u);
    ParameterNames();
  }

  /** The position of a parameter name in the builder's fixed order. */
  function ParameterRank(name: string): nat {
    if name == "@status" then 0 else if name == "@userId" then 1 else 2
  }

  /**
   * The listing query binds exactly one parameter per supplied filter, in the
   * fixed order @status, @userId, @deviceModelId.
   */
  lemma ListParametersAreSuppliedFilters(f: ReservationFilters)
    ensures forall v :: QueryParameter("@status", v) in ListParameters(f)
                    <==> f.status.Some? && v == StatusName(f.status.value)
    ensures forall v :: QueryParameter("@userId", v) in ListParameters(f)
                    <==> Supplied(f.userId) && v == f.userId.value
    ensures forall v :: QueryParameter("@deviceModelId", v) in ListParameters(f)
                    <==> Supplied(f.deviceModelId) && v == f.deviceModelId.value
    ensures forall i, j :: 0 <= i < j < |ListParameters(f)| ==>
              ParameterRank(ListParameters(f)[i].name) < ParameterRank(ListParameters(f)[j].name)
  {
    ListParametersUnfolded(f);
  }

  /** Binding the listing parameters selects exactly the documents the filters admit. */
  lemma ListParametersSelectMatches(f: ReservationFilters, d: ReservationDocument)
    ensures Satisfies(d, ParametersEqual(ListParameters(f))) <==> MatchesFilters(f, d)
  {
    ListParametersUnfolded(f);
    assert ColumnValue(d, "@status") == Some(StatusName(d.status));
    assert ColumnValue(d, "@userId") == Some(d.userId);
    assert ColumnValue(d, "@deviceModelId") == Some(d.deviceModelId);
    if f.status.Some? {
      StatusNameInjective(d.status, f.status.value);
    }
  }

  /** Runs the listing query: the selected documents as summaries, newest reservation first. */
  function RunListQuery(store: Store, spec: QuerySpec, now: Instant): Outcome<seq<ReservationSummary>> {
    Run(store, ListAllQuery,
        OrderBy(ReservedAtDesc, Project(Select(store.docs, ParametersEqual(spec.parameters)), now, false)))
  }

  /**
   * Lists the reservations matching every supplied filter, newest reservation
   * first, one summary per matching document.
   */
  method ListReservations(store: Store, filters: ReservationFilters, now: Instant)
    returns (r: Outcome<seq<ReservationSummary>>)
    ensures r.Ok? <==> ListAllQuery !in store.faults
    ensures r.Err? ==> r.message == store.faults[ListAllQuery]
    ensures r.Ok? ==> SortedBy(ReservedAtDesc, r.value)
    ensures r.Ok? ==> multiset(r.value) == multiset(Project(Select(store.docs, Matching(filters)), now, false))
  {
    var spec := BuildListQuery(filters);
    r := RunListQuery(store, spec, now);
    forall d | d in store.docs
      ensures Satisfies(d, ParametersEqual(spec.parameters)) <==> Satisfies(d, Matching(filters))
    {
      ListParametersSelectMatches(filters, d);
    }
    SelectAgrees(store.docs, ParametersEqual(spec.parameters), Matching(filters));
  }

  /** Without filters the listing selects every stored document. */
  lemma {:induction false} NoFiltersSelectsAll(docs: seq<ReservationDocument>)
    ensures Select(docs, Matching(NoFilters)) == docs
  {
    if docs != [] {
      NoFiltersSelectsAll(docs[1..]);
    }
  }

  /** fromDate and toDate never change which documents a listing selects. */
  lemma DateFiltersIgnored(docs: seq<ReservationDocument>, f: ReservationFilters,
                           fromDate: Option<Instant>, toDate: Option<Instant>)
    ensures Select(docs, Matching(f.(fromDate := fromDate, toDate := toDate))) == Select(docs, Matching(f))
  {
    SelectAgrees(docs, Matching(f.(fromDate := fromDate, toDate := toDate)), Matching(f));
  }

  // ---------------------------------------------------------------------------
  // listOverdueReservations and listPendingCollections
  // ---------------------------------------------------------------------------

  /**
   * A permutation of the projected rows of a query holds the summary of every
   * admitted document, and nothing else.
   */
  lemma ProjectedRows(r: seq<ReservationSummary>, docs: seq<ReservationDocument>, c: Condition,
                      now: Instant, forceOverdue: bool)
    requires multiset(r) == multiset(Project(Select(docs, c), now, forceOverdue))
    ensures forall d :: d in docs && Satisfies(d, c) ==> MapToSummary(d, now, forceOverdue) in r
    ensures forall s :: s in r ==> exists d :: d in docs && Satisfies(d, c) && s == MapToSummary(d, now, forceOverdue)
  {
    var rows := Select(docs, c);
    var summaries := Project(rows, now, forceOverdue);
    SelectContents(docs, c);
    forall d | d in docs && Satisfies(d, c) ensures MapToSummary(d, now, forceOverdue) in r {
      var i :| 0 <= i < |rows| && rows[i] == d;
      assert summaries[i] in multiset(summaries);
    }
    forall s | s in r ensures exists d :: d in docs && Satisfies(d, c) && s == MapToSummary(d, now, forceOverdue) {
      assert s in multiset(summaries);
      var i :| 0 <= i < |summaries| && summaries[i] == s;
      assert rows[i] in rows;
    }
  }

  /**
   * Lists the Collected reservations whose return was due before `queryNow`,
   * earliest due date first, each flagged overdue. `projectNow` is the instant
   * the projection reads the clock.
   */
  function ListOverdueReservations(store: Store, queryNow: Instant, projectNow: Instant)
    : (r: Outcome<seq<ReservationSummary>>)
    ensures r.Ok? <==> ListOverdueQuery !in store.faults
    ensures r.Err? ==> r.message == store.faults[ListOverdueQuery]
    ensures r.Ok? ==> SortedBy(ReturnDueAtAsc, r.value)
    ensures r.Ok? ==> multiset(r.value) == multiset(Project(Select(store.docs, CollectedDueBefore(queryNow)), projectNow, true))
    ensures r.Ok? ==> forall s :: s in r.value ==>
              s.isOverdue && s.status == Collected && s.returnDueAt.Some? && s.returnDueAt.value < queryNow
    ensures r.Ok? ==> forall d :: d in store.docs && Satisfies(d, CollectedDueBefore(queryNow)) ==>
              MapToSummary(d, projectNow, true) in r.value
  {
    var cond := CollectedDueBefore(queryNow);
    var summaries := Project(Select(store.docs, cond), projectNow, true);
    var sorted := OrderBy(ReturnDueAtAsc, summaries);
    ProjectedRows(sorted, store.docs, cond, projectNow, true);
    Run(store, ListOverdueQuery, sorted)
  }

  /**
   * Lists the Reserved reservations whose hold expires after `queryNow`, soonest
   * expiry first. A hold that lapsed is excluded even while its stored status is
   * still Reserved.
   */
  function ListPendingCollections(store: Store, queryNow: Instant, projectNow: Instant)
    : (r: Outcome<seq<ReservationSummary>>)
    ensures r.Ok? <==> ListPendingQuery !in store.faults
    ensures r.Err? ==> r.message == store.faults[ListPendingQuery]
    ensures r.Ok? ==> SortedBy(ExpiresAtAsc, r.value)
    ensures r.Ok? ==> multiset(r.value) == multiset(Project(Select(store.docs, ReservedExpiringAfter(queryNow)), projectNow, false))
    ensures r.Ok? ==> forall s :: s in r.value ==>
              s.status == Reserved && s.expiresAt > queryNow && !s.isOverdue
    ensures r.Ok? ==> forall d :: d in store.docs && Satisfies(d, ReservedExpiringAfter(queryNow)) ==>
              MapToSummary(d, projectNow, false) in r.value
  {
    var cond := ReservedExpiringAfter(queryNow);
    var summaries := Project(Select(store.docs, cond), projectNow, false);
    var sorted := OrderBy(ExpiresAtAsc, summaries);
    ProjectedRows(sorted, store.docs, cond, projectNow, false);
    Run(store, ListPendingQuery, sorted)
  }

  /**
   * When the projection reads the clock no earlier than the overdue query did,
   * forcing the flag changes nothing: the derived flag of every selected
   * document is already true.
   */
  lemma ForcedOverdueAgreesWithDerived(docs: seq<ReservationDocument>, queryNow: Instant, projectNow: Instant)
    requires queryNow <= projectNow
    ensures Project(Select(docs, CollectedDueBefore(queryNow)), projectNow, true)
         == Project(Select(docs, CollectedDueBefore(queryNow)), projectNow, false)
  {
    var rows := Select(docs, CollectedDueBefore(queryNow));
    SelectContents(docs, CollectedDueBefore(queryNow));
    forall i | 0 <= i < |rows|
      ensures MapToSummary(rows[i], projectNow, true) == MapToSummary(rows[i], projectNow, false)
    {
      assert rows[i] in rows;
    }
  }

  // ---------------------------------------------------------------------------
  // getDashboardStats
  // ---------------------------------------------------------------------------

  /** The number of loans out: Collected reservations. */
  function CountByStatus(store: Store, status: ReservationStatus): (r: Outcome<nat>)
    ensures r.Ok? <==> CountByStatusQuery !in store.faults
    ensures r.Err? ==> r.message == store.faults[CountByStatusQuery]
    ensures r.Ok? ==> r.value == |Select(store.docs, StatusEquals(status))|
  {
    Run(store, CountByStatusQuery, Count(store.docs, StatusEquals(status)))
  }

  /** The number of holds still awaiting collection at `now`. */
  function CountPendingCollections(store: Store, now: Instant): (r: Outcome<nat>)
    ensures r.Ok? <==> CountPendingQuery !in store.faults
    ensures r.Err? ==> r.message == store.faults[CountPendingQuery]
    ensures r.Ok? ==> r.value == |Select(store.docs, ReservedExpiringAfter(now))|
  {
    Run(store, CountPendingQuery, Count(store.docs, ReservedExpiringAfter(now)))
  }

  /** The number of loans whose return was due before `now`. */
  function CountOverdue(store: Store, now: Instant): (r: Outcome<nat>)
    ensures r.Ok? <==> CountOverdueQuery !in store.faults
    ensures r.Err? ==> r.message == store.faults[CountOverdueQuery]
    ensures r.Ok? ==> r.value == |Select(store.docs, CollectedDueBefore(now))|
  {
    Run(store, CountOverdueQuery, Count(store.docs, CollectedDueBefore(now)))
  }

  /** The number of loans returned at or after `since`. */
  function CountReturnedSince(store: Store, since: Instant): (r: Outcome<nat>)
    ensures r.Ok? <==> CountReturnedQuery !in store.faults
    ensures r.Err? ==> r.message == store.faults[CountReturnedQuery]
    ensures r.Ok? ==> r.value == |Select(store.docs, ReturnedSince(since))|
  {
    Run(store, CountReturnedQuery, Count(store.docs, ReturnedSince(since)))
  }

  /** The number of reservations, of any status, made at or after `since`. */
  function CountReservedSince(store: Store, since: Instant): (r: Outcome<nat>)
    ensures r.Ok? <==> CountReservedQuery !in store.faults
    ensures r.Err? ==> r.message == store.faults[CountReservedQuery]
    ensures r.Ok? ==> r.value == |Select(store.docs, ReservedSince(since))|
  {
    Run(store, CountReservedQuery, Count(store.docs, ReservedSince(since)))
  }

  /** The five count queries the dashboard issues. */
  const StatsQueries: set<QueryKind> :=
    {CountByStatusQuery, CountPendingQuery, CountOverdueQuery, CountReturnedQuery, CountReservedQuery}

  /**
   * The dashboard statistics. `now` is the instant captured when the computation
   * starts, `todayStart` the start of its calendar day, and `pendingNow` the
   * instant the pending-collection count reads the clock itself. The five counts
   * are taken one after another; the first that fails fails the whole call, so no
   * partial or zeroed statistics are ever produced.
   */
  function GetDashboardStats(store: Store, now: Instant, todayStart: Instant, pendingNow: Instant)
    : (r: Outcome<DashboardStats>)
    ensures r.Ok? <==> StatsQueries !! store.faults.Keys
    ensures r.Err? ==> exists k :: k in StatsQueries && k in store.faults && r.message == store.faults[k]
    ensures r.Ok? ==> r.value == DashboardStats(
              |Select(store.docs, StatusEquals(Collected))|,
              |Select(store.docs, ReservedExpiringAfter(pendingNow))|,
              |Select(store.docs, CollectedDueBefore(now))|,
              |Select(store.docs, ReturnedSince(todayStart))|,
              |Select(store.docs, ReservedSince(todayStart))|,
              now)
  {
    var activeLoans :- CountByStatus(store, Collected);
    var pendingCollection :- CountPendingCollections(store, pendingNow);
    var overdueLoans :- CountOverdue(store, now);
    var returnedToday :- CountReturnedSince(store, todayStart);
    var reservationsToday :- CountReservedSince(store, todayStart);
    Ok(DashboardStats(activeLoans, pendingCollection, overdueLoans, returnedToday, reservationsToday, now))
  }

  /** Every overdue loan is an active loan. */
  lemma OverdueWithinActive(store: Store, now: Instant, todayStart: Instant, pendingNow: Instant)
    requires GetDashboardStats(store, now, todayStart, pendingNow).Ok?
    ensures GetDashboardStats(store, now, todayStart, pendingNow).value.overdueLoans
         <= GetDashboardStats(store, now, todayStart, pendingNow).value.activeLoans
  {
    SelectSizeMonotone(store.docs, CollectedDueBefore(now), StatusEquals(Collected));
  }

  /** An empty store that answers every count yields all-zero statistics stamped with `now`. */
  lemma EmptyStoreStats(faults: map<QueryKind, string>, now: Instant, todayStart: Instant, pendingNow: Instant)
    requires StatsQueries !! faults.Keys
    ensures GetDashboardStats(Store([], faults), now, todayStart, pendingNow) == Ok(DashboardStats(0, 0, 0, 0, 0, now))
  {
  }

  /**
   * The overdue and pending counts agree with the lengths of the overdue and
   * pending listings taken at the same instants.
   */
  lemma CountsMatchListings(store: Store, now: Instant, todayStart: Instant, pendingNow: Instant, projectNow: Instant)
    requires GetDashboardStats(store, now, todayStart, pendingNow).Ok?
    requires ListOverdueQuery !in store.faults && ListPendingQuery !in store.faults
    ensures GetDashboardStats(store, now, todayStart, pendingNow).value.overdueLoans
         == |ListOverdueReservations(store, now, projectNow).value|
    ensures GetDashboardStats(store, now, todayStart, pendingNow).value.pendingCollection
         == |ListPendingCollections(store, pendingNow, projectNow).value|
  {
    var overdue := ListOverdueReservations(store, now, projectNow).value;
    var pending := ListPendingCollections(store, pendingNow, projectNow).value;
    assert |multiset(overdue)| == |overdue|;
    assert |multiset(pending)| == |pending|;
  }

  /**
   * One hold still open, one hold lapsed without being collected, and one loan
   * past its due date give one pending collection, one overdue loan and one active
   * loan.
   */
  lemma MixedStoreStats(hold: ReservationDocument, lapsed: ReservationDocument, loan: ReservationDocument,
                        now: Instant, todayStart: Instant)
    requires hold.status == Reserved && hold.expiresAt > now
    requires lapsed.status == Reserved && lapsed.expiresAt <= now
    requires loan.status == Collected && loan.returnDueAt.Some? && loan.returnDueAt.value < now
    ensures var r := GetDashboardStats(Store([hold, lapsed, loan], map[]), now, todayStart, now);
            r.Ok? && r.value.pendingCollection == 1 && r.value.overdueLoans == 1 && r.value.activeLoans == 1
  {
    var docs := [hold, lapsed, loan];
    PendingOfMixedStore(hold, lapsed, loan, now);
    OverdueOfMixedStore(hold, lapsed, loan, now);
    ActiveOfMixedStore(hold, lapsed, loan);
    var r := GetDashboardStats(Store(docs, map[]), now, todayStart, now);
    assert r.Ok?;
  }

  /** Selecting from a sequence of three documents tests each of them in turn. */
  lemma SelectThree(a: ReservationDocument, b: ReservationDocument, c: ReservationDocument, cond: Condition)
    ensures Select([a, b, c], cond)
         == (if Satisfies(a, cond) then [a] else []) + (if Satisfies(b, cond) then [b] else [])
          + (if Satisfies(c, cond) then [c] else [])
  {
    var docs := [a, b, c];
    assert docs[0] == a && docs[1..] == [b, c];
    assert [b, c][0] == b && [b, c][1..] == [c];
    assert [c][0] == c && [c][1..] == [];
    var ta, tb, tc := (if Satisfies(a, cond) then [a] else []), (if Satisfies(b, cond) then [b] else []),
                      (if Satisfies(c, cond) then [c] else []);
    assert Select([c], cond) == tc by {
      assert Select([], cond) == [];
      assert [c] + [] == [c];
    }
    assert Select([b, c], cond) == tb + tc by {
      assert [] + tc == tc;
    }
    assert Select(docs, cond) == ta + (tb + tc) by {
      assert [] + (tb + tc) == tb + tc;
    }
    assert ta + (tb + tc) == ta + tb + tc;
  }

  lemma PendingOfMixedStore(hold: ReservationDocument, lapsed: ReservationDocument, loan: ReservationDocument,
                            now: Instant)
    requires hold.status == Reserved && hold.expiresAt > now
    requires lapsed.status == Reserved && lapsed.expiresAt <= now
    requires loan.status == Collected
    ensures Select([hold, lapsed, loan], ReservedExpiringAfter(now)) == [hold]
  {
    SelectThree(hold, lapsed, loan, ReservedExpiringAfter(now));
    assert [hold] + [] + [] == [hold];
  }

  lemma OverdueOfMixedStore(hold: ReservationDocument, lapsed: ReservationDocument, loan: ReservationDocument,
                            now: Instant)
    requires hold.status == Reserved && lapsed.status == Reserved
    requires loan.status == Collected && loan.returnDueAt.Some? && loan.returnDueAt.value < now
    ensures Select([hold, lapsed, loan], CollectedDueBefore(now)) == [loan]
  {
    SelectThree(hold, lapsed, loan, CollectedDueBefore(now));
    assert [] + [] + [loan] == [loan];
  }

  lemma ActiveOfMixedStore(hold: ReservationDocument, lapsed: ReservationDocument, loan: ReservationDocument)
    requires hold.status == Reserved && lapsed.status == Reserved && loan.status == Collected
    ensures Select([hold, lapsed, loan], StatusEquals(Collected)) == [loan]
  {
    SelectThree(hold, lapsed, loan, StatusEquals(Collected));
    assert [] + [] + [loan] == [loan];
  }

  // ---------------------------------------------------------------------------
  // The overdue flag as the projection computes it in JavaScript
  // ---------------------------------------------------------------------------

  /** A JavaScript value the `||`/`&&` chain of the projection can produce. */
  datatype JsValue = JsBool(b: bool) | JsUndefined

  /**
   * The value `forceOverdue || (status === Collected && returnDueAt && now > returnDueAt)`
   * evaluates to: `&&` yields its first falsy operand, so an absent returnDueAt
   * yields `undefined`, not `false`.
   */
  function OverdueValueAsWritten(d: ReservationDocument, now: Instant, forceOverdue: bool): (v: JsValue)
    ensures v == JsUndefined <==> !forceOverdue && d.status == Collected && d.returnDueAt.None?
    ensures v.JsBool? ==> (v.b <==> MapToSummary(d, now, forceOverdue).isOverdue)
  {
    if forceOverdue then JsBool(true)
    else if d.status != Collected then JsBool(false)
    else if d.returnDueAt.None? then JsUndefined
    else JsBool(now > d.returnDueAt.value)
  }

  /**
   * A Collected loan without a due date: the flag as written is `undefined`, so
   * the serialized summary omits `isOverdue`, while the corrected projection sets
   * it to `false`.
   */
  lemma OverdueFlagUndefinedWithoutDueDate(now: Instant)
    ensures var d := ReservationDocument("r1", "u1", "a@x", "d1", "m1", Collected, now - 10, now - 5,
                                         Some(now - 5), None, None, None, None, now - 5);
            OverdueValueAsWritten(d, now, false) == JsUndefined && !MapToSummary(d, now, false).isOverdue
  {
  }
}
