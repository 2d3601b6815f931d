# Redshift client of nvim-dbee, modelled in Dafny

This project models the Redshift client of nvim-dbee (`dbee/clients/redshift.go`):

- **The layout builder** `fetchPsqlLayouts` and its type mapping `getLayoutType`. The builder drains a
  result stream of metadata rows `(schema, name[, type])`. It appends one leaf node per row to a
  per-schema list, in read order. It then emits one schema-group node per distinct schema, and the
  group carries that list as its children. Only the `redshift` dialect reads the type column
  (`"TABLE"` gives a table, `"VIEW"` a view, anything else no type). Every other dialect gets a table
  for every row.
- **The connection-release rule** of `RedshiftClient.Query`. It acquires a connection and builds a
  close callback. If the query fails, a deferred closure fires the callback before the error returns.
  If the query succeeds, the callback is installed on the returned rows instead.

Files:

- `wrappers.dfy`: `Option` and `Result`.
- `models.dfy`: column values as a tagged variant (`Value`), rows, iterator steps, layout types and
  layout nodes (the `models` package types the client uses).
- `redshift.dfy`: module `Redshift`.
  - `GetLayoutType`.
  - The stream as a sequence of `rows.Next()` results (`Step`), with `StopIndex` and `Consumed`.
  - The specification of the accumulator (`Group`) and an independent per-schema filter (`Select`).
  - The imperative `FetchPsqlLayouts` and `EmitGroups`, proved against that specification.
  - Lemmas about ordering, classification, counts and termination.
  - The class `RedshiftClient`, whose `Query` is instrumented with connection bookkeeping.

Modelling decisions:

- The iterator is a finite `seq<Step>`. Each step is `(row?, err?)`. Past the end of the sequence the
  iterator yields `(nil, nil)`, which is exhaustion.
- The Go code converts columns with unchecked type assertions (`row[0].(string)`, `row[1].(string)`,
  and `row[2].(string)` for `redshift`), which panic on a malformed row. The model states them as a
  precondition (`WellShaped`) on the rows the loop actually consumes. It does not invent an error
  path.
- Go's map iteration order is unspecified. The emission loop picks an arbitrary remaining key
  (`var k :| k in remaining`). Its contract (`IsGrouping`) fixes the set of groups and leaves their
  order open.
- The driver is abstracted into two outcomes passed to `Query`: `ConnOutcome` (acquisition ok or
  failed) and `ExecOutcome` (query ok or failed). The SQL text is not interpreted. Connections are
  numbered in the order they are acquired. The client records the connections it closed itself
  (`closeLog`) and those whose close callback went to a result stream (`handedOff`). Its invariant
  `Valid()` says that every acquired connection appears in exactly one of these two lists, and
  only once.
- The Go code does no trimming; the `trim(...)` calls run inside the SQL, so rows are taken as read
  and a padded schema name stays a distinct key (`SchemaKeysAreNotTrimmed`).
- A malformed row panics in Go (unchecked `row[i].(string)`); the model excludes it by the
  precondition `WellShaped`.
- The nil-row test at line 112 comes before the error test at line 115, so a step with a nil row and
  an error ends the loop successfully.

## Model

| member | source | states |
|---|---|---|
| `Redshift.Leaf` | dbee/clients/redshift.go:119-135 | the leaf literal built from one row: name from column 1, schema from column 0, the dialect as database, the type from column 2 through `GetLayoutType` for `redshift` and a table otherwise, no children |
| `Redshift.GroupNode` | dbee/clients/redshift.go:141-147 | the group literal: name and schema the key, the dialect as database, no type, the key's list as children |
| `Redshift.Group` | dbee/clients/redshift.go:107-136 | the accumulator after the rows have been read in order, each row's leaf appended to its schema's list (a missing key reads as the empty list); every key's list is non-empty, and every leaf under a key has that key as schema, the dialect as database and no children |
| `Redshift.GetLayoutType` | dbee/clients/redshift.go:153-163 | the result is a table exactly for `"TABLE"`, a view exactly for `"VIEW"`, and no type for every other string |
| `Redshift.StopIndex` | dbee/clients/redshift.go:109-117 | the reading loop stops at the first step whose row is nil or whose error is set; all earlier steps carry a row and no error |
| `Redshift.Consumed` | dbee/clients/redshift.go:109-119 | the rows the loop consumes are, in order, the rows of the steps before the stop index |
| `Redshift.FetchPsqlLayouts` | dbee/clients/redshift.go:106-151 | fails exactly when the stopping step has a non-nil row (then with that step's error, and no partial result); otherwise returns one group per key of the accumulator built from the consumed rows, and holds exactly as many leaves as rows were consumed |
| `Redshift.EmitGroups` | dbee/clients/redshift.go:138-150 | emits one group node per key (name and schema the key, database the dialect, no type, the key's list as children), no key twice, and as many leaves as the accumulator holds |
| `Redshift.EmitStep` | dbee/clients/redshift.go:140-148 | emitting one remaining key keeps the emission loop's invariant and adds that key's leaves to the count |
| `Redshift.GroupAppend` | dbee/clients/redshift.go:119-135 | reading one more row extends the accumulator by that row's leaf, appended to its schema's list |
| `Redshift.GroupOrder` | dbee/clients/redshift.go:119-135 | a schema has a group exactly when some consumed row has that schema; its children are the leaves of exactly those rows, in read order |
| `Redshift.LeafCopiesRow` | dbee/clients/redshift.go:119-135 | every leaf copies its row: name from column 1, schema from column 0 (the group's key), database the dialect, no children |
| `Redshift.TypedLeafType` | dbee/clients/redshift.go:120-127 | for `redshift`, each leaf's type is `GetLayoutType` of column 2 of the row it came from |
| `Redshift.UntypedLeafType` | dbee/clients/redshift.go:130-135 | for every other dialect, every leaf's type is a table |
| `Redshift.UntypedDialectIgnoresTypeColumn` | dbee/clients/redshift.go:130-135 | for a non-`redshift` dialect, rows that agree on schema and name give the same accumulator, whatever their other columns hold |
| `Redshift.GroupTotal` | dbee/clients/redshift.go:107-136 | the accumulator holds exactly one leaf per consumed row |
| `Redshift.TotalLeavesRemove` | dbee/clients/redshift.go:140-148 | the leaf count of an accumulator splits into one key's list plus the rest, whichever key is taken first |
| `Redshift.LayoutMatchesRows` | dbee/clients/redshift.go:138-148 | in a successful result every group is a schema seen in the rows, with no type and the dialect as database, and its children are that schema's leaves in read order; every schema seen has a group |
| `Redshift.SelectAppend` | dbee/clients/redshift.go:122 | appending a row extends the per-schema list of its schema only |
| `Redshift.EmptyStreamEmptyLayout` | dbee/clients/redshift.go:109-114 | a stream whose first row is nil stops at its first step without an error, yields no rows and no groups |
| `Redshift.TypedDialectExample` | dbee/clients/redshift.go:119-136 | for `redshift`, rows (public,t1,TABLE), (public,t2,VIEW), (audit,t3,TABLE) give `public` = [t1 table, t2 view] and `audit` = [t3 table] |
| `Redshift.SchemaKeysAreNotTrimmed` | dbee/clients/redshift.go:119-122 | a padded schema name is the grouping key as read; nothing is trimmed |
| `Redshift.Rows.SetCallback` | dbee/clients/redshift.go:67 | installs the given callback on the result stream |
| `Redshift.RedshiftClient.Fire` | dbee/clients/redshift.go:54-61 | on Query's error path, running the callback closes the pending connection once, restores the invariant and changes nothing else |
| `Redshift.RedshiftClient.Query` | dbee/clients/redshift.go:49-69 | a failed `Conn()` returns its error and closes nothing; a failed `con.Query` returns its error after closing the just-acquired connection exactly once; a successful one closes nothing, returns fresh rows whose callback closes that connection, and hands it off; the invariant that every connection is closed or handed off exactly once is preserved |

## Left out

- `init` and `Store.Register` (dbee/clients/redshift.go:17-22): registration with a store that is not
  part of this model.
- `NewRedshift` (dbee/clients/redshift.go:32-46): it only wraps `url.Parse` and `sql.Open`, foreign
  library calls. `RedshiftClient`'s constructor stands for a fresh client with no connections.
- `RedshiftClient.Close` (dbee/clients/redshift.go:72-75): its only behaviour is the foreign `c.c.Close()`.
- `Layout` (dbee/clients/redshift.go:80-103): the SQL runs inside Redshift (trimming, and mapping
  `relkind = 'v'` to `VIEW`). The Go side is `Query` followed by `fetchPsqlLayouts`, and both are
  modelled.
- The internals of `common.DatabaseClient`, the connection type and `models.IterResult` are not part
  of this model. This covers when the stream fires its callback on exhaustion, whether `close()` is
  idempotent, and whether `Next()` after exhaustion is a no-op. Only the callback that `Query`
  installs is modelled.
- FetchPsqlLayouts: takes a finite stream. A Go iterator that never returns a nil row would loop
  forever; the model cannot express that.
- FetchPsqlLayouts: a malformed row (too few columns, or a non-string column) panics in Go. In the
  model it is excluded by the precondition `WellShaped`.
- The order of the groups in the result is not modelled, because Go's map iteration order is
  unspecified. Ordering is left to the frontend.
- Concurrency: one outstanding query per client is assumed, as in the source.
