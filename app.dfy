/**
 * The diagram side of the client (client/src/App.tsx): the normalisation of
 * the fetched JSON body into a `DbSchema`, and the projection of a schema
 * onto diagram nodes placed on a three-column grid and animated edges.
 */
module App {
  import opened Wrappers
  import opened SchemaTypes
  import Decimal

  // ---------------------------------------------------------------------
  // Fetching the schema
  // ---------------------------------------------------------------------

  /** A property of a parsed JSON object: absent, explicitly null, or present. */
  datatype Field<T> = Missing | Null | Present(value: T)

  /**
   * The parsed body of GET /api/schema. Any non-null JSON value that lacks a
   * property (a number, an array, an object without it) reads it as `Missing`.
   */
  datatype RawSchema = RawSchema(
    tables: Field<seq<SchemaTable>>,
    relationships: Field<seq<SchemaRelationship>>)

  /** An HTTP response: its status code and its body, `None` when the body is JSON `null`. */
  datatype Response = Response(status: nat, body: Option<RawSchema>) {
    /** The `ok` flag of a Fetch response: a status in the range 200 to 299. */
    predicate IsOk() {
      200 <= status <= 299
    }
  }

  /** Why fetching the schema fails. */
  datatype FetchError =
    | StatusNotOk(status: nat)  // the explicit throw on a response that is not ok
    | NullBody                  // reading `tables` of a `null` body throws a TypeError

  const FetchFailedPrefix: string := "Schema fetch failed: "

  /** The `??` operator on a list-valued property: missing and null become the empty list. */
  function OrEmpty<T>(f: Field<seq<T>>): (s: seq<T>)
    ensures f.Present? ==> s == f.value
    ensures !f.Present? ==> s == []
  {
    match f
    case Present(v) => v
    case _ => []
  }

  /** The schema built from a parsed body, each missing or null list defaulted to empty. */
  function Normalise(json: RawSchema): (s: DbSchema)
    ensures json.tables.Present? ==> s.tables == json.tables.value
    ensures !json.tables.Present? ==> s.tables == []
    ensures json.relationships.Present? ==> s.relationships == json.relationships.value
    ensures !json.relationships.Present? ==> s.relationships == []
  {
    DbSchema(OrEmpty(json.tables), OrEmpty(json.relationships))
  }

  /** The body the server sends for a schema: both lists present. */
  function ToRaw(s: DbSchema): RawSchema {
    RawSchema(Present(s.tables), Present(s.relationships))
  }

  /** A schema sent in full comes back unchanged. */
  lemma NormaliseToRaw(s: DbSchema)
    ensures Normalise(ToRaw(s)) == s
  {
  }

  /** Normalising depends on a list only through whether it is present: missing and null agree. */
  lemma NormaliseMissingIsNull(ts: Field<seq<SchemaTable>>, rs: Field<seq<SchemaRelationship>>)
    ensures Normalise(RawSchema(ts, rs)) == Normalise(RawSchema(if ts.Present? then ts else Null, if rs.Present? then rs else Null))
    ensures Normalise(RawSchema(ts, rs)) == Normalise(RawSchema(if ts.Present? then ts else Missing, if rs.Present? then rs else Missing))
  {
  }

  /** fetchSchema once the response is in hand: reject a response that is not ok, then normalise. */
  function FetchSchema(res: Response): (r: Result<DbSchema, FetchError>)
    ensures r.Success? <==> res.IsOk() && res.body.Some?
    ensures !res.IsOk() ==> r == Failure(StatusNotOk(res.status))
    ensures res.IsOk() && res.body.None? ==> r == Failure(NullBody)
    ensures r.Success? ==> r.value == Normalise(res.body.value)
  {
    if !res.IsOk() then Failure(StatusNotOk(res.status))
    else match res.body
      case None => Failure(NullBody)
      case Some(json) => Success(Normalise(json))
  }

  /** The message of the error thrown for a response that is not ok. */
  function StatusMessage(status: nat): (m: string)
    ensures m == FetchFailedPrefix + Decimal.NatToString(status)
    ensures FetchFailedPrefix <= m
    ensures Decimal.ParseNat(m[|FetchFailedPrefix|..]) == Some(status)
  {
    var m := FetchFailedPrefix + Decimal.NatToString(status);
    assert m[|FetchFailedPrefix|..] == Decimal.NatToString(status);
    Decimal.ParseNatToString(status);
    m
  }

  // ---------------------------------------------------------------------
  // The diagram
  // ---------------------------------------------------------------------

  const NodeWidth: nat := 220
  const NodeHeight: nat := 40
  const GapX: nat := 80
  const GapY: nat := 60
  const TableNodeType: string := "tableNode"

  datatype Position = Position(x: nat, y: nat)

  /** A column as a table node shows it: the reference target is not carried. */
  datatype ColumnData = ColumnData(name: string, dataType: string, isPrimaryKey: bool, isForeignKey: bool)

  datatype NodeData = NodeData(tableName: string, columns: seq<ColumnData>)

  datatype Node = Node(id: string, nodeType: string, position: Position, data: NodeData)

  datatype Edge = Edge(
    id: string,
    source: string,
    target: string,
    sourceHandle: string,
    targetHandle: string,
    animated: bool)

  datatype Diagram = Diagram(nodes: seq<Node>, edges: seq<Edge>)

  /** The grid row of the `i`-th table: `Math.floor(i / 3)`. */
  function GridRow(i: nat): (row: nat)
    ensures 3 * row <= i < 3 * row + 3
  {
    i / 3
  }

  /** The grid column of the `i`-th table: `i % 3`. */
  function GridColumn(i: nat): (col: nat)
    ensures col < 3
    ensures i == 3 * GridRow(i) + col
  {
    i % 3
  }

  /** Where the `i`-th table goes; the row height uses that table's own column count. */
  function NodePosition(i: nat, columnCount: nat): (p: Position)
    ensures p.x == 300 * (i % 3)
    ensures p.x == 0 || p.x == 300 || p.x == 600
    ensures p.y == (i / 3) * (40 * (columnCount + 1) + 60)
    ensures i < 3 ==> p.y == 0
  {
    Position(
      GridColumn(i) * (NodeWidth + GapX),
      GridRow(i) * (NodeHeight * (columnCount + 1) + GapY))
  }

  function ToColumnData(c: SchemaColumn): ColumnData {
    ColumnData(c.name, c.dataType, c.isPrimaryKey, c.isForeignKey)
  }

  /** The columns of a node: same length and order, name, type and both key flags copied. */
  function ColumnsData(columns: seq<SchemaColumn>): (ds: seq<ColumnData>)
    ensures |ds| == |columns|
    ensures forall k :: 0 <= k < |columns| ==>
      ds[k].name == columns[k].name && ds[k].dataType == columns[k].dataType &&
      ds[k].isPrimaryKey == columns[k].isPrimaryKey && ds[k].isForeignKey == columns[k].isForeignKey
  {
    seq(|columns|, k requires 0 <= k < |columns| => ToColumnData(columns[k]))
  }

  /** Two columns that differ at most in their reference target. */
  predicate SameShown(a: SchemaColumn, b: SchemaColumn) {
    a.name == b.name && a.dataType == b.dataType &&
    a.isPrimaryKey == b.isPrimaryKey && a.isForeignKey == b.isForeignKey
  }

  /** The reference targets are dropped: column lists that differ only in them give the same node columns. */
  lemma ColumnsDataIgnoresReferences(a: seq<SchemaColumn>, b: seq<SchemaColumn>)
    requires |a| == |b|
    requires forall k :: 0 <= k < |a| ==> SameShown(a[k], b[k])
    ensures ColumnsData(a) == ColumnsData(b)
  {
  }

  /** The node of the `i`-th table. */
  function TableToNode(table: SchemaTable, i: nat): (n: Node)
    ensures n.id == table.name && n.data.tableName == table.name
    ensures n.nodeType == TableNodeType
    ensures n.data.columns == ColumnsData(table.columns)
    ensures n.position == NodePosition(i, |table.columns|)
  {
    Node(
      table.name,
      TableNodeType,
      NodePosition(i, |table.columns|),
      NodeData(table.name, ColumnsData(table.columns)))
  }

  /** The edge id without its final "-<index>". */
  function EdgeIdPrefix(rel: SchemaRelationship): string {
    "e-" + rel.fromTable + "-" + rel.fromColumn + "-" + rel.toTable
  }

  /** What follows the last '-' of `s`, if `s` has one. */
  function AfterLastDash(s: string): (r: Option<string>)
    ensures r.Some? ==> '-' !in r.value && |r.value| < |s|
  {
    if s == [] then None
    else if s[|s| - 1] == '-' then Some([])
    else match AfterLastDash(s[..|s| - 1])
      case None => None
      case Some(t) => Some(t + [s[|s| - 1]])
  }

  lemma {:induction false} AfterLastDashOf(p: string, d: string)
    requires '-' !in d
    ensures AfterLastDash(p + "-" + d) == Some(d)
    decreases |d|
  {
    var s := p + "-" + d;
    if d == [] {
      assert s[|s| - 1] == '-';
    } else {
      var d' := d[..|d| - 1];
      assert s[..|s| - 1] == p + "-" + d';
      assert s[|s| - 1] == d[|d| - 1];
      AfterLastDashOf(p, d');
      assert d' + [d[|d| - 1]] == d;
    }
  }

  /** The position an edge id names: the number after its last '-'. */
  function EdgeIndex(id: string): Option<nat> {
    match AfterLastDash(id)
    case None => None
    case Some(t) => Decimal.ParseNat(t)
  }

  /** The edge of the `i`-th relationship. */
  function RelationshipToEdge(rel: SchemaRelationship, i: nat): (e: Edge)
    ensures e.source == rel.fromTable && e.target == rel.toTable
    ensures e.sourceHandle == rel.fromColumn + "-source"
    ensures e.targetHandle == rel.toColumn + "-target"
    ensures e.animated
    ensures e.id == EdgeIdPrefix(rel) + "-" + Decimal.NatToString(i)
    ensures EdgeIdPrefix(rel) + "-" <= e.id
    ensures EdgeIndex(e.id) == Some(i)
  {
    var digits := Decimal.NatToString(i);
    var id := EdgeIdPrefix(rel) + "-" + digits;
    assert '-' !in digits by {
      forall k | 0 <= k < |digits| ensures digits[k] != '-' {
        assert Decimal.IsDigit(digits[k]);
      }
    }
    AfterLastDashOf(EdgeIdPrefix(rel), digits);
    Decimal.ParseNatToString(i);
    Edge(id, rel.fromTable, rel.toTable, rel.fromColumn + "-source", rel.toColumn + "-target", true)
  }

  /** An edge id determines the position of its relationship, whatever the relationships are. */
  lemma EdgeIdDeterminesIndex(r1: SchemaRelationship, i: nat, r2: SchemaRelationship, j: nat)
    ensures RelationshipToEdge(r1, i).id == RelationshipToEdge(r2, j).id ==> i == j
  {
  }

  /** schemaToDiagram: one node per table, one edge per relationship, in order. */
  function SchemaToDiagram(schema: DbSchema): (d: Diagram)
    ensures |d.nodes| == |schema.tables|
    ensures forall i :: 0 <= i < |d.nodes| ==> d.nodes[i] == TableToNode(schema.tables[i], i)
    ensures |d.edges| == |schema.relationships|
    ensures forall i :: 0 <= i < |d.edges| ==> d.edges[i] == RelationshipToEdge(schema.relationships[i], i)
    ensures forall i, j :: 0 <= i < j < |d.edges| ==> d.edges[i].id != d.edges[j].id
  {
    var tables := schema.tables;
    var rels := schema.relationships;
    var nodes := seq(|tables|, i requires 0 <= i < |tables| => TableToNode(tables[i], i));
    var edges := seq(|rels|, i requires 0 <= i < |rels| => RelationshipToEdge(rels[i], i));
    Diagram(nodes, edges)
  }

  /** Nodes depend only on the tables: replacing the relationships leaves them identical. */
  lemma NodesIgnoreRelationships(schema: DbSchema, rels: seq<SchemaRelationship>)
    ensures SchemaToDiagram(schema.(relationships := rels)).nodes == SchemaToDiagram(schema).nodes
  {
  }

  /** Edges depend only on the relationships: replacing the tables leaves them identical. */
  lemma EdgesIgnoreTables(schema: DbSchema, tables: seq<SchemaTable>)
    ensures SchemaToDiagram(schema.(tables := tables)).edges == SchemaToDiagram(schema).edges
  {
  }

  /** The horizontal placement repeats every three tables, one row further down. */
  lemma GridRepeatsEveryThree(schema: DbSchema, i: nat)
    requires i + 3 < |schema.tables|
    ensures SchemaToDiagram(schema).nodes[i + 3].position.x == SchemaToDiagram(schema).nodes[i].position.x
    ensures GridRow(i + 3) == GridRow(i) + 1
  {
  }

  lemma RowHeightInjective(row: nat, a: nat, b: nat)
    requires row >= 1
    ensures row * (40 * (a + 1) + 60) == row * (40 * (b + 1) + 60) <==> a == b
  {
    var ha, hb := 40 * (a + 1) + 60, 40 * (b + 1) + 60;
    if a != b {
      assert row * ha - row * hb == row * (ha - hb);
      assert ha - hb != 0;
      assert row * (ha - hb) != 0;
    }
  }

  /**
   * Two tables in the same grid row below the first share a `y` exactly when
   * they have the same number of columns.
   */
  lemma SameRowHeightIff(schema: DbSchema, i: nat, j: nat)
    requires i < |schema.tables| && j < |schema.tables|
    requires GridRow(i) == GridRow(j) >= 1
    ensures SchemaToDiagram(schema).nodes[i].position.y == SchemaToDiagram(schema).nodes[j].position.y
        <==> |schema.tables[i].columns| == |schema.tables[j].columns|
  {
    RowHeightInjective(GridRow(i), |schema.tables[i].columns|, |schema.tables[j].columns|);
  }

  /** Node ids are pairwise distinct exactly when the table names are. */
  lemma NodeIdsDistinctIff(schema: DbSchema)
    ensures (forall i, j :: 0 <= i < j < |schema.tables| ==> SchemaToDiagram(schema).nodes[i].id != SchemaToDiagram(schema).nodes[j].id)
        <==> (forall i, j :: 0 <= i < j < |schema.tables| ==> schema.tables[i].name != schema.tables[j].name)
  {
    var d := SchemaToDiagram(schema);
    assert forall i :: 0 <= i < |schema.tables| ==> d.nodes[i].id == schema.tables[i].name;
  }

  /** A body without lists, or with null ones, draws an empty diagram. */
  lemma EmptyBodyDrawsNothing(json: RawSchema)
    requires !json.tables.Present? && !json.relationships.Present?
    ensures SchemaToDiagram(Normalise(json)) == Diagram([], [])
  {
  }

  /** The users/orders example schema: orders.user_id refers to users.id. */
  function UsersOrders(): DbSchema {
    DbSchema(
      [ SchemaTable("users", [
          SchemaColumn("id", "int", true, false, None, None),
          SchemaColumn("name", "varchar", false, false, None, None)]),
        SchemaTable("orders", [
          SchemaColumn("id", "int", true, false, None, None),
          SchemaColumn("user_id", "int", false, true, Some("users"), Some("id"))]) ],
      [SchemaRelationship("orders", "user_id", "users", "id")])
  }

  /** The example draws its two tables side by side in the first row. */
  lemma UsersOrdersNodes()
    ensures SchemaToDiagram(UsersOrders()).nodes[0].position == Position(0, 0)
    ensures SchemaToDiagram(UsersOrders()).nodes[1].position == Position(300, 0)
    ensures SchemaToDiagram(UsersOrders()).nodes[1].data.columns
         == [ColumnData("id", "int", true, false), ColumnData("user_id", "int", false, true)]
  {
    var cs := UsersOrders().tables[1].columns;
    assert ColumnsData(cs)[0] == ColumnData("id", "int", true, false);
    assert ColumnsData(cs)[1] == ColumnData("user_id", "int", false, true);
  }

  /** The example draws one edge, from orders.user_id to users.id. */
  lemma UsersOrdersEdges()
    ensures SchemaToDiagram(UsersOrders()).edges
         == [Edge("e-orders-user_id-users-0", "orders", "users", "user_id-source", "id-target", true)]
  {
    var rel := UsersOrders().relationships[0];
    assert Decimal.NatToString(0) == "0";
    assert EdgeIdPrefix(rel) == "e-orders-user_id-users";
    var e := Edge("e-orders-user_id-users-0", "orders", "users", "user_id-source", "id-target", true);
    assert RelationshipToEdge(rel, 0) == e;
    var edges := SchemaToDiagram(UsersOrders()).edges;
    assert |edges| == 1 && edges[0] == e;
  }
}
