# Venue synchronisation of the vacation assistant

The vacation assistant stores four lists of venues for each user:
restaurants, bars, coffee shops and activities. A user chooses a location,
a radius in miles and a number of results. `update_location` then deletes
all of that user's venues, and `change_location` queries a business-search
provider once per category and adds one row per returned business. One
commit at the end makes the deletions and the new rows visible together.

This project models that workflow in Dafny and proves what it does.

- `results.dfy` (`Results`): `Option`, `Result` (with `:-` failure
  propagation) and `Outcome`.
- `venues.dfy` (`Venues`): the four row shapes (`Venue`). Restaurants, bars
  and coffee shops carry an optional price; activities carry none. It also
  holds the four tables (`Tables`) and the two ownership filters:
  `OwnedBy`, the rows `filter_by(patron=u)` selects, and `Without`, what
  `filter_by(patron=u).delete()` leaves. Lemmas relate these filters to
  concatenation and stamping.
- `normalizer.dfy` (`Normalizer`): a raw business record (a JSON object,
  modelled as a map from key to value) becomes a row. This covers the
  `try`/`except KeyError` pair with its price fallback and the activity
  construction, which has no fallback.
- `provider.dfy` (`Provider`): the query parameters, with the radius in
  metres at 1610 per mile. It also holds the four search terms in fetch
  order and the three kinds of reply. A reply carries a business list, has
  no `businesses` key, or is a failed request.
- `forms.dfy` (`Forms`): the `DataRequired` validators of `LocationForm`.
- `sync.dfy` (`Sync`, `SyncProperties`): one run and one update as values.
  - `Collect` is the rows `change_location` adds per table, or the exception
    it raises. It is built category by category (`Progress`).
  - `UpdateLocation` is the tables after `update_location`.
  - The lemmas prove when a run succeeds, what rows it adds, that it
    replaces the owner's rows, that it leaves other owners alone, and that
    it is idempotent.
- `session.dfy` (`Store`): the same steps against a database session
  (`Store.Session`).
  - The session has three fields. `committed` is what other requests read.
    `working` is the transaction's view, with the bulk deletes applied.
    `pending` holds the added rows, which are not yet inserted.
  - `ChangeLocation` keeps the source's shape. It holds one `params` record
    whose term is changed between the four blocks. It has the loops that
    call `Add`, the `finally` behaviour and a single `Commit`.
  - The loops are proved against `Sync.PricedRows` and `Sync.ActivityRows`.
  - `UpdateLocation` is proved to leave the database exactly as
    `Sync.UpdateLocation` says.

The provider is a parameter: a total function from query parameters to a
reply. The HTTP request and the JSON decoding are therefore not modelled,
and any provider behaviour is covered. When a request raises, the web
framework removes the session at the end of the request. That rolls back
the uncommitted deletes and the pending rows, and the model performs this
rollback as `Store.Session.Rollback`.

Quirks of the code that the model keeps:

- Only the last activity is added. The `add` at main.py:197 is after the
  loop.
- An empty activity list leaves `new_activity` unbound, so the run raises
  `UnboundLocalError` before the commit.
- A required key missing from the first restaurant, bar or coffee-shop
  record makes the `finally` clause add an unbound variable. The run then
  raises `UnboundLocalError` instead of the `KeyError`.
- A required key missing from a later record re-adds the previous row. That
  row is already pending, so nothing changes, and the `KeyError` propagates.
- The form accepts negative integers. `DataRequired` refuses only 0 and
  blank text (Python's `str.isspace` characters).

A few consequences of the code are worth stating on their own:

- An empty activity list fails the whole run. No venue of any category is
  saved.
- The form demands non-zero integers, not positive ones.
- A failed run leaves the database exactly as it was. The deletes are never
  committed, and the request's session is rolled back.
- A missing required key surfaces as `KeyError` or `UnboundLocalError`.

## Model

| member | source | states |
|---|---|---|
| Normalizer.WithPrice | main.py:119-126 | the `try` branch builds a row iff the four required keys and `price` are present, copying all five; otherwise it raises KeyError on the first missing key in argument order, which is `price` when the required ones are there |
| Normalizer.WithoutPrice | main.py:128-134 | the `except KeyError` branch builds a row with a null price iff the four required keys are present, and otherwise raises KeyError on the first one missing |
| Normalizer.NormalizePriced | main.py:118-134 | a restaurant, bar or coffee-shop row is built iff name, image_url, url and rating are present; it is stamped with the owner and copies those four values; its price is the record's price when present and null otherwise; a missing required key fails both branches with the first missing key |
| Normalizer.NormalizeActivity | main.py:190-196 | an activity row is built iff the four required keys are present, copies them, is stamped with the owner and has no price; otherwise the first missing key is the error |
| Normalizer.Normalize | main.py:50-93 | the row of category c is an activity exactly when c is the activity table, and every row carries the owner |
| Normalizer.NormalizeAll | main.py:117-136 | a list normalises iff every record is complete, giving one row per record in provider order; otherwise it stops at the first incomplete record, after which everything before was complete |
| Sync.Fetch | main.py:116 | a reply yields its business list, a reply without `businesses` raises KeyError("businesses"), and a failed request raises |
| Sync.PricedRows | main.py:117-136 | the loop adds one row per record, in order, iff all records are complete; a failure is UnboundLocalError exactly when the first record is incomplete, and otherwise the KeyError of an incomplete later record |
| Sync.PricedRowsStopAt | main.py:117-136 | the first incomplete record decides the error: UnboundLocalError at index 0, otherwise KeyError with its first missing key |
| Sync.ActivityRows | main.py:188-197 | the activity loop succeeds iff the list is non-empty and complete, and then adds only the last record's row; an empty list raises UnboundLocalError on new_activity; otherwise the error is the KeyError of an incomplete record |
| Sync.ActivityRowsStopAt | main.py:189-196 | the first incomplete activity record decides the KeyError |
| Sync.CategoryRows | main.py:115-197 | one category succeeds iff its reply is a complete business list, which must also be non-empty for activities; every row it yields carries the current user as patron |
| Sync.ProgressOk | main.py:115-187 | the first k categories succeed iff each of them does |
| Sync.ProgressRows | main.py:115-187 | after the first k categories, each of those tables holds exactly its category's rows and the remaining tables hold none |
| Sync.ProgressStep | main.py:115-197 | the next category's rows are appended to its still empty table, or its error ends the run |
| Sync.ProgressErrSticks | main.py:115-198 | once a category raises, no later category runs and the run ends with that error |
| Sync.Collect | main.py:105-198 | `change_location` as a value; every row a successful run adds carries the current user as patron; its other properties are the lemmas below |
| Sync.CollectByCategory | main.py:105-198 | a run succeeds iff all four categories do, and then each table receives exactly its category's rows |
| Provider.Queries | main.py:105-113 | the four queries share location, radius = miles × 1610, limit and sort_by=rating, and their terms are restaurants, drinks, coffee and active life in that order |
| SyncProperties.CollectSucceeds | main.py:116-197 | a run succeeds iff every reply is a business list of complete records and the activity list is non-empty |
| SyncProperties.CollectRows | main.py:116-197 | after a successful run, each restaurant, bar and coffee-shop table gains one row per record in provider order, and the activity table gains exactly the last activity |
| SyncProperties.CollectWithinLimit | main.py:110 | if the provider returns at most `limit` businesses, no table gains more than `limit` rows |
| SyncProperties.EmptyActivitiesFail | main.py:188-198 | with usable replies for the first three categories, an empty activity list makes the run raise UnboundLocalError on new_activity |
| Sync.UpdateLocation | main.py:271-287 | `update_location` as a value: the status is Rejected iff the form fails its validators, and Updated iff the form passes and the run succeeds; a failed run reports the run's error; unless the update commits, the tables are exactly as before |
| SyncProperties.UpdateReplacesOwnRows | main.py:277-286 | after an update that commits, the owner's rows in each table are exactly this run's rows, and none of the old ones remain |
| SyncProperties.UpdateKeepsOtherOwners | main.py:277-280 | whatever the outcome, every other user owns the same rows in every table as before |
| SyncProperties.UpdateIdempotent | main.py:271-287 | a second update against a provider that answers the same way leaves the tables as the first one left them, with the same status |
| Venues.OwnedBy | main.py:277-280 | the rows `filter_by(patron=u)` selects: all belong to u, and there are no more of them than rows |
| Venues.Without | main.py:277-280 | the rows left by `filter_by(patron=u).delete()`: none belongs to u, and together with the selected rows they number exactly the table's rows |
| Venues.OwnedByWithoutSplit | main.py:277-280 | the selected rows and the rows left by the delete together hold every row of the table, each as often as before |
| Venues.DeleteOwner | main.py:277-280 | each table loses exactly the owner's rows |
| Venues.OwnedByConcat | main.py:277-280 | the owner's rows of a concatenation are the owner's rows of each part, in order |
| Venues.WithoutConcat | main.py:277-280 | deleting an owner's rows from a concatenation deletes them from each part |
| Venues.OwnedByWithout | main.py:277-280 | after deleting u's rows, u owns nothing and every other user owns what they owned before |
| Venues.OwnedByStamped | main.py:119-120 | in rows all stamped with u, u owns all of them and nobody else owns any |
| Venues.WithoutStamped | main.py:277-280 | deleting u's rows from rows all stamped with u leaves nothing |
| Venues.WithoutTwice | main.py:277-280 | deleting the same owner's rows twice is the same as deleting them once |
| Store.Session.Add | main.py:136 | the row is appended to its table's pending rows, and nothing else changes |
| Store.Session.DeleteOwned | main.py:277 | the transaction's view of one table loses the owner's rows; other readers still see them |
| Store.Session.DeleteAllOwned | main.py:277-280 | the transaction's view loses every row of the owner in all four tables; what others read and the pending rows are unchanged |
| Store.Session.Commit | main.py:198 | pending rows are inserted after the existing ones, and the transaction becomes what everyone reads |
| Store.Session.Rollback | main.py:28 | the session removed after a request that raised discards its deletes and pending rows |
| Store.Session.AddPricedRows | main.py:117-136 | the loop adds exactly `Sync.PricedRows` to the category's pending rows, or fails with its error, having only appended rows |
| Store.Session.AddLastActivity | main.py:188-197 | the loop and the `add` after it add exactly `Sync.ActivityRows`, or fail with its error and add nothing |
| Store.Session.AddCategory | main.py:115-197 | one block records its query, sends it and adds the next category's rows as the fold defines them; it fails iff the fold fails at this category, and the run's error is then the block's error |
| Store.Session.ChangeLocation | main.py:105-198 | the four blocks send the four queries in order; the run commits iff `Sync.Collect` succeeds, and then commits exactly its rows after what was pending; a run that raises commits nothing, reports Collect's error, and its last query is the failing category's |
| Store.Session.UpdateLocation | main.py:271-287 | from an idle session, the committed tables and the status are exactly `Sync.UpdateLocation` of the tables before; a refused form sends no query; a committed update sent all four; a failed update sent queries up to and including the failing category's, and no later one |

## Left out

- The HTTP request, its headers and the API key are not modelled, and
  neither is JSON decoding. The provider is a parameter. A failed request
  and a body without a `businesses` key are two of its possible replies.
- Flask routes, templates, redirects, flash messages, registration, login
  and password hashing are not modelled. Neither is the application and
  database configuration, including the `DATABASE_URLL` key.
- `Forms.LocationFormValid` is the `validate_on_submit` check, modelled as
  a branch. Coercing form text to integers and the CSRF token are not
  modelled.
- SQLAlchemy's cascade of a new row into the session through its `patron`
  back-reference (in versions before 2.0) is not modelled. The model
  follows the explicit `db.session.add` calls.
- Autoflush timing and database ids are not modelled.
- The `nullable=False` and `String(n)` column constraints are not checked,
  and neither are JSON `null` values. A key that is present is taken as
  its value.
- `rating` and the other copied values are opaque. The float column is
  never computed on.
- Concurrent requests and per-owner serialisation are not modelled. The
  code has none.
- Store.Session.ChangeLocation: when the run raises, the pending rows are
  only stated to extend what was pending before. `UpdateLocation` rolls
  them back in any case.
- Store.Session.AddCategory: when the block raises, the pending rows are
  only stated to extend what was pending when the run began. The rows its
  loop added before the failing record are discarded by the rollback.
- Store.Session.AddPricedRows: on failure, the new pending state is only
  stated to extend the old one. The rows added before the failing record
  are discarded by the rollback.
