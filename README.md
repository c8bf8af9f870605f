# DB Diagram Viewer: schema-to-diagram projection, in Dafny

This project models the client of a database diagram viewer. The client fetches
the database schema (tables with flagged columns, plus foreign-key relationships)
from the server's `GET /api/schema` endpoint. It fills in missing lists with empty
ones and projects the schema onto a diagram graph:

- one `tableNode` node per table, placed on a three-column grid;
- one animated edge per relationship, with a position-indexed id.

Modules:

- `Wrappers` (`wrappers.dfy`): `Option` and `Result`.
- `SchemaTypes` (`schema_types.dfy`): `SchemaColumn`, `SchemaTable`,
  `SchemaRelationship` and `DbSchema`, from `client/src/types/schema.ts`. The
  optional `foreignTable`/`foreignColumn` are `Option<string>`. The TypeScript field
  `type` is called `dataType`, because `type` is a Dafny keyword. For the same reason
  a node's `type` is called `nodeType`.
- `Decimal` (`decimal.dfy`): how a template string renders a non-negative integer
  (`${i}`). It also holds a parser that undoes the rendering, used to prove that
  edge ids are distinct.
- `App` (`app.dfy`): the body normalisation and error branch of `fetchSchema`, and
  `schemaToDiagram`, from `client/src/App.tsx`.

The projection is pure, so it is modelled with functions over sequences. Each
`Array.map((x, i) => …)` becomes a sequence comprehension over the index.

The layout keeps a fact of the code as written: the row height in `y` uses the
current table's own column count, not a running total. So two tables in the same
grid row below the first get different `y` values when their column counts differ.
`SameRowHeightIff` states this exactly.

## Model

| member | source | states |
|---|---|---|
| `App.OrEmpty` | client/src/App.tsx:21 | `??` on a list property: a missing or null list becomes `[]`, a present one passes through unchanged |
| `App.Normalise` | client/src/App.tsx:21 | a missing or null `tables` becomes the empty sequence, and likewise `relationships`; present lists are kept as they are |
| `App.NormaliseToRaw` | client/src/App.tsx:21 | a body carrying both lists normalises back to exactly the schema it carries |
| `App.NormaliseMissingIsNull` | client/src/App.tsx:21 | normalisation cannot tell a missing list from a null one |
| `App.FetchSchema` | client/src/App.tsx:17-22 | succeeds iff the status is 2xx and the body is not `null`; a non-2xx status fails with that status; a `null` body fails (reading `tables` of `null`); on success the schema is the normalised body |
| `App.StatusMessage` | client/src/App.tsx:19 | the error message is exactly "Schema fetch failed: " followed by `${status}` (decimal, no padding), and the status can be read back from it |
| `App.GridRow` | client/src/App.tsx:32 | `Math.floor(i / 3)`: the row `r` with `3r <= i < 3r + 3` |
| `App.GridColumn` | client/src/App.tsx:33 | `i % 3`: a column below 3 with `i == 3 * row + col` |
| `App.NodePosition` | client/src/App.tsx:26-37 | `x == 300 * (i % 3)`, so `x` is 0, 300 or 600; `y == (i / 3) * (40 * (columns + 1) + 60)`, so `y == 0` for the first three tables |
| `App.ColumnsData` | client/src/App.tsx:40-45 | node columns have the same length and order as the table's columns, each copying name, type and both key flags |
| `App.ColumnsDataIgnoresReferences` | client/src/App.tsx:40-45 | `foreignTable`/`foreignColumn` are dropped: columns differing only in them give identical node columns |
| `App.TableToNode` | client/src/App.tsx:31-48 | node of table `i`: `id` and `data.tableName` are the table name, type `tableNode`, columns as `ColumnsData`, position as `NodePosition(i, column count)` |
| `App.RelationshipToEdge` | client/src/App.tsx:50-57 | edge of relationship `i`: source/target are from/to table, handles are `fromColumn + "-source"` and `toColumn + "-target"`, animated; the id is exactly `e-<fromTable>-<fromColumn>-<toTable>-<i>` with `i` in decimal, and its part after the last `-` reads back as `i` |
| `App.EdgeIdDeterminesIndex` | client/src/App.tsx:51 | equal edge ids imply equal positions, whatever the relationships |
| `App.SchemaToDiagram` | client/src/App.tsx:25-60 | one node per table and one edge per relationship, node `i` from table `i` and edge `i` from relationship `i`; edge ids are pairwise distinct |
| `App.NodesIgnoreRelationships` | client/src/App.tsx:31-48 | replacing the relationships leaves the node list identical |
| `App.EdgesIgnoreTables` | client/src/App.tsx:50-57 | replacing the tables leaves the edge list identical |
| `App.GridRepeatsEveryThree` | client/src/App.tsx:32-37 | table `i + 3` has the same `x` as table `i`, one grid row further down |
| `App.SameRowHeightIff` | client/src/App.tsx:37 | in a grid row below the first, two tables share `y` iff they have the same number of columns |
| `App.NodeIdsDistinctIff` | client/src/App.tsx:35 | node ids are pairwise distinct iff table names are |
| `App.EmptyBodyDrawsNothing` | client/src/App.tsx:21-59 | a body whose lists are missing or null projects to a diagram with no nodes and no edges |
| `App.UsersOrdersNodes` | client/src/App.tsx:31-48 | users/orders example: the two tables sit at (0, 0) and (300, 0); the orders node shows `id` as primary and `user_id` as foreign key |
| `App.UsersOrdersEdges` | client/src/App.tsx:50-57 | users/orders example: exactly one edge `e-orders-user_id-users-0`, from `user_id-source` on orders to `id-target` on users |
| `Decimal.NatToString` | client/src/App.tsx:51 | `${i}` for an index: a non-empty string of digits with no leading zero, and exactly "0" for 0 |
| `Decimal.ParseNatToString` | client/src/App.tsx:51 | parsing the rendered index gives back the index |
| `Decimal.NatToStringInjective` | client/src/App.tsx:51 | two indices render alike iff they are equal |

## Left out

- Schema reconciliation on the server (building tables, flags and relationships from column and constraint rows). No code for it exists: `server/src/server.ts` serves only `/health` and `/api/constraints`, which returns raw rows. `GET /api/schema` is not part of this model.
- The network part of `fetchSchema` (`fetch`, `res.json()`). The response becomes a parameter: a status and an already-parsed body. A body that is not valid JSON (a rejection from `res.json()`) is not modelled.
- Runtime types of the body. A present `tables` or `relationships` that is not a list would pass through `??` unchanged. Here every present value has the declared list type.
- `App.FetchSchema`: the message of the `TypeError` raised for a `null` body comes from the JavaScript engine. It is modelled only as the error kind `NullBody`.
- JavaScript numbers are IEEE doubles. Positions are unbounded `nat`s. They agree with the code only while the row height `40 * (columns + 1) + 60` and the product `y` stay at or below 2^53. Beyond that the code's double arithmetic rounds, and that rounding is not modelled.
- React state and effects of the `App` component (`useState`, `useEffect`, `applyNodeChanges`, `applyEdgeChanges`, the status banners). This is UI library state.
- `client/src/TableNode.tsx` (rendering and colours) and `src/App.tsx` (hard-coded sample nodes). These are presentation. Source handles are drawn only on primary-key columns, while edges attach to the foreign-key `fromColumn`. This mismatch appears only at render time and is not stated as a property.
- `server/src/pool.ts` and the Express routes of `server/src/server.ts`: database client, SQL text and HTTP transport.
