# Reservation query engine

A Dafny model of the read-only reservation query repository of the loans
management service, together with the four use cases that wrap it. The
repository answers four admin questions over the reservation documents:
dashboard statistics, a filtered listing, the overdue loans, and the holds
awaiting collection.

The Cosmos DB container is replaced by an in-memory `Store`. It holds the
sequence of stored `ReservationDocument`s and a map from each failing query
kind to the message that query throws. Each part of a query is modelled on its
own:

- **WHERE clause.** Each clause is a `Condition`, and `Select` picks the
  documents that satisfy it.
- **COUNT(1).** Modelled by `Count`.
- **ORDER BY.** Modelled by `Ordering.OrderBy`, a sort whose contract states
  sortedness and permutation. The order of tied rows is left open.
- **Projection.** `MapToSummary` turns a document into a summary. Rows are
  projected first and sorted second. Ties are unordered, so this gives the
  same result as sorting first.

`BuildListQuery` builds the listing query the way the adapter does: it appends
one clause and one parameter for each supplied filter. Running that query
binds each `@<column>` parameter to the column of the same name. All clocks
are explicit `Instant` parameters:

- `now` and `todayStart` are the values captured by `getDashboardStats`.
- `pendingNow` is the pending count's own clock read.
- `queryNow` is the listing query's clock read.
- `projectNow` is the projection's clock read.

Files:
- `outcomes.dfy`: `Option` and `Outcome`, where `Outcome` is an awaited call
  that either resolved or threw a message.
- `entities.dfy`: statuses, summaries, filters and statistics.
- `ordering.dfy`: the ORDER BY keys and the sort.
- `query_repo.dfy`: the adapter.
- `use_case_result.dfy`: the shared result shape.
- The four use cases, one file each.

The model follows the code where it departs from the intended design. The
pending-collection count reads the clock on its own (`pendingNow`,
cosmos-reservation-query-repo.ts:153). It does not reuse the `now` that
becomes `calculatedAt`.

## Model

| member | source | states |
|---|---|---|
| `DashboardEntities.StatusName` | src/domain/entities/dashboard-stats.ts:22-28 | every status is stored as a non-empty string, so a supplied status filter is always truthy and always applied |
| `DashboardEntities.StatusNameInjective` | src/domain/entities/dashboard-stats.ts:22-28 | two statuses have the same stored string exactly when they are the same status |
| `Ordering.OrderBy` | src/infra/adapters/cosmos-reservation-query-repo.ts:99-103 | the rows come back sorted by the ORDER BY key and are a permutation of the selected rows (same multiset) |
| `CosmosReservationQueryRepo.SelectContents` | src/infra/adapters/cosmos-reservation-query-repo.ts:101-103 | a document is among the rows iff it is stored and satisfies the WHERE clause; each admitted document keeps its multiplicity and the rest have none |
| `CosmosReservationQueryRepo.Count` | src/infra/adapters/cosmos-reservation-query-repo.ts:143-150 | `COUNT(1)` is the number of rows the same WHERE clause selects |
| `CosmosReservationQueryRepo.MapToSummary` | src/infra/adapters/cosmos-reservation-query-repo.ts:198-221 | copies id, userId, userEmail, deviceId, deviceModelId, status, reservedAt and expiresAt; collectedAt, returnDueAt and returnedAt are carried over, so each is absent in the summary exactly when absent in the document; isOverdue holds iff forced, or the document is Collected with a present returnDueAt that `now` is past |
| `CosmosReservationQueryRepo.ProjectionDropsWriteFields` | src/infra/adapters/cosmos-reservation-query-repo.ts:207-220 | cancelledAt, notes and updatedAt have no influence on the summary |
| `CosmosReservationQueryRepo.DerivedOverdueIsOverdueClause` | src/infra/adapters/cosmos-reservation-query-repo.ts:199-205 | at the same instant, the derived overdue flag holds exactly when the overdue query's WHERE clause admits the document |
| `CosmosReservationQueryRepo.BuildListQuery` | src/infra/adapters/cosmos-reservation-query-repo.ts:83-99 | the query is `SELECT * FROM c WHERE 1=1`, then one `AND c.<column> = @<column>` clause per supplied filter, then ` ORDER BY c.reservedAt DESC`; the parameters are one `@<column>` binding per supplied filter, taken from the same filters in the same order |
| `CosmosReservationQueryRepo.ListParametersUnfolded` | src/infra/adapters/cosmos-reservation-query-repo.ts:86-97 | the parameter list is the status binding if a status is given, then the userId binding if userId is non-empty, then the deviceModelId binding if deviceModelId is non-empty |
| `CosmosReservationQueryRepo.ListParametersAreSuppliedFilters` | src/infra/adapters/cosmos-reservation-query-repo.ts:86-97 | `@status`, `@userId` and `@deviceModelId` are each bound, to the filter's value, exactly when that filter is supplied; the bound names occur in that fixed order |
| `CosmosReservationQueryRepo.ListParametersSelectMatches` | src/infra/adapters/cosmos-reservation-query-repo.ts:86-97 | the bound equalities hold of a document iff it matches every supplied filter (AND) |
| `CosmosReservationQueryRepo.ListReservations` | src/infra/adapters/cosmos-reservation-query-repo.ts:82-106 | succeeds iff the listing query does not fail, otherwise reports its message; the summaries are sorted newest reservation first and are exactly the summaries of the documents matching every supplied filter, one per matching document |
| `CosmosReservationQueryRepo.NoFiltersSelectsAll` | src/infra/adapters/cosmos-reservation-query-repo.ts:82-99 | with no filters every stored document is selected, in store order |
| `CosmosReservationQueryRepo.DateFiltersIgnored` | src/infra/adapters/cosmos-reservation-query-repo.ts:86-97 | fromDate and toDate never change which documents are selected |
| `CosmosReservationQueryRepo.ListOverdueReservations` | src/infra/adapters/cosmos-reservation-query-repo.ts:108-123 | succeeds iff its query does not fail; the result is a permutation of the (forced) summaries of exactly the Collected documents with a returnDueAt before the query's now, sorted by returnDueAt ascending; every returned summary is flagged overdue, and every such document appears |
| `CosmosReservationQueryRepo.ListPendingCollections` | src/infra/adapters/cosmos-reservation-query-repo.ts:125-140 | succeeds iff its query does not fail; the result is a permutation of the summaries of exactly the Reserved documents whose expiresAt is after the query's now, sorted by expiresAt ascending; a lapsed hold is excluded and no pending summary is flagged overdue |
| `CosmosReservationQueryRepo.ForcedOverdueAgreesWithDerived` | src/infra/adapters/cosmos-reservation-query-repo.ts:109-122 | when the projection reads the clock no earlier than the query, forcing the flag yields the same summaries as deriving it |
| `CosmosReservationQueryRepo.CountByStatus` | src/infra/adapters/cosmos-reservation-query-repo.ts:143-150 | the number of documents with the given status, or the count query's failure |
| `CosmosReservationQueryRepo.CountPendingCollections` | src/infra/adapters/cosmos-reservation-query-repo.ts:152-163 | the number of Reserved documents expiring after its now, or the failure |
| `CosmosReservationQueryRepo.CountOverdue` | src/infra/adapters/cosmos-reservation-query-repo.ts:165-175 | the number of Collected documents with a returnDueAt before now, or the failure |
| `CosmosReservationQueryRepo.CountReturnedSince` | src/infra/adapters/cosmos-reservation-query-repo.ts:177-187 | the number of Returned documents with a returnedAt at or after `since`, or the failure |
| `CosmosReservationQueryRepo.CountReservedSince` | src/infra/adapters/cosmos-reservation-query-repo.ts:189-196 | the number of documents of any status reserved at or after `since`, or the failure |
| `CosmosReservationQueryRepo.GetDashboardStats` | src/infra/adapters/cosmos-reservation-query-repo.ts:58-80 | succeeds iff none of the five count queries fails; a failure reports the message of a failing count; on success each count is the size of its selection and calculatedAt is the captured now |
| `CosmosReservationQueryRepo.OverdueWithinActive` | src/infra/adapters/cosmos-reservation-query-repo.ts:64-70 | overdueLoans never exceeds activeLoans |
| `CosmosReservationQueryRepo.EmptyStoreStats` | src/infra/adapters/cosmos-reservation-query-repo.ts:58-80 | an empty store yields all-zero counts stamped with the captured now |
| `CosmosReservationQueryRepo.CountsMatchListings` | src/infra/adapters/cosmos-reservation-query-repo.ts:64-67 | overdueLoans equals the length of the overdue listing at the same now; pendingCollection equals the length of the pending listing at the same now |
| `CosmosReservationQueryRepo.MixedStoreStats` | src/infra/adapters/cosmos-reservation-query-repo.ts:64-70 | an open hold, a lapsed hold and a late loan give one pending collection, one overdue loan and one active loan |
| `CosmosReservationQueryRepo.OverdueValueAsWritten` | src/infra/adapters/cosmos-reservation-query-repo.ts:201-205 | the JavaScript value of the flag is `undefined` exactly for an unforced Collected document without returnDueAt; otherwise it is the boolean the corrected projection computes |
| `CosmosReservationQueryRepo.OverdueFlagUndefinedWithoutDueDate` | src/infra/adapters/cosmos-reservation-query-repo.ts:201-205 | for a Collected loan without returnDueAt the flag as written is `undefined`, while the corrected flag is `false` |
| `UseCaseResults.Settle` | src/app/list-all-reservations.ts:21-27 | the result is well formed (a success has data and no error, a failure has an error and no data), and reading it back gives the repository outcome unchanged: the value on success, the thrown message on failure |
| `ListAllReservationsApp.ListAllReservations` | src/app/list-all-reservations.ts:17-28 | the filters reach the repository unchanged; success iff the listing succeeds, with its sorted listing of the matching documents as data; otherwise the failure message as error and no data |
| `ListOverdueReservationsApp.ListOverdueReservations` | src/app/list-overdue-reservations.ts:17-27 | success iff the repository succeeds, with exactly its overdue list (all flagged overdue) as data; otherwise its message as error and no data |
| `ListPendingCollectionsApp.ListPendingCollections` | src/app/list-pending-collections.ts:17-27 | success iff the repository succeeds, with exactly its pending list as data; otherwise its message as error and no data |
| `GetDashboardStatsApp.GetDashboardStats` | src/app/get-dashboard-stats.ts:17-27 | success iff no count fails, with exactly the repository's statistics (overdue within active) as data; otherwise a failing count's message and no data, never partial or zeroed statistics |

## Left out

- Client construction, credentials and logging are not modelled (cosmos-reservation-query-repo.ts:44-56). They are foreign SDK calls. A query is evaluated over the in-memory store instead.
- The `Promise.all` fan-out is not modelled (cosmos-reservation-query-repo.ts:64-70). The five counts run one after another and the first failure stops the rest.
- CosmosReservationQueryRepo.GetDashboardStats: when several counts fail, it promises only that the message of one failing count is reported. Which rejection `Promise.all` reports first depends on timing.
- The concurrent reads are also not mutually consistent, and the model does not show this: all five counts see the same document sequence.
- Clock reads are parameters. This covers `new Date()` and the local-midnight computation of `todayStart`.
- CosmosReservationQueryRepo.MapToSummary: the adapter reads the clock once per document. The model uses one `projectNow` for a whole listing.
- Timestamps are integer instants. The model does not capture:
  - Cosmos comparing ISO-8601 strings rather than instants;
  - invalid date strings becoming Invalid Date;
  - the serialization of dates to ISO strings.
- An empty optional timestamp string is falsy, so the adapter treats it as absent. The model has no empty string for a timestamp, only `None`.
- `resources ?? []` and `resources?.[0] ?? 0` are not modelled, because the in-memory store always returns its rows.
- The ReservationQueryRepo interface (src/domain/repositories/reservation-query-repo.ts) is not modelled as an abstraction with interchangeable implementations. Only the store-backed behaviour is modelled, as module-level functions over `Store`.
- Execution of the listing query reads only its parameter list. The query text is not parsed. Its clause-for-parameter correspondence is proved separately, by `BuildListQuery`.
- Tied rows come out in the order the model's sort gives them. Cosmos's tie order is unspecified and is not modelled.
- An omitted `filters` argument is modelled as `NoFilters`.
- The use cases' `instanceof Error ? message : String(error)` is not modelled: a failure already carries its message.
- Two context files are not part of this model:
  - src/functions/admin-reservations.ts and src/functions/dashboard.ts, which cover HTTP routing, CORS, staff authorization, status codes and JSON serialization;
  - src/config/appServices.ts, which covers environment reading and the cached singleton.

## Findings

| source | as written | input that shows it | evidently intended | confidence | as-written member | corrected member |
|---|---|---|---|---|---|---|
| src/infra/adapters/cosmos-reservation-query-repo.ts:201-205 | The overdue flag is built with `\|\|` and `&&`, which return an operand rather than a boolean. When returnDueAt is absent, the chain yields `undefined`. | an unforced projection of a Collected document that has no returnDueAt | `isOverdue` is the boolean `false`, as the `ReservationSummary` type (src/domain/entities/dashboard-stats.ts:46) and the wire shape require; with `undefined`, the serialized summary has no `isOverdue` key | medium, not executed | `CosmosReservationQueryRepo.OverdueFlagUndefinedWithoutDueDate` | `CosmosReservationQueryRepo.MapToSummary` |
