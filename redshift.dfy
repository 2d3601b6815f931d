/**
 * The Redshift client of dbee/clients/redshift.go: the metadata layout
 * builder `fetchPsqlLayouts` with its type mapping `getLayoutType`, and the
 * connection-release discipline of `RedshiftClient.Query`.
 */
module Redshift {
  import opened Wrappers
  import opened Models

  /** The client-type name; when it is the dialect, rows carry a type column. */
  const RedshiftClientName: string := "redshift"

  // ---------------------------------------------------------------------------
  // Type classification
  // ---------------------------------------------------------------------------

  /** Maps the catalog's type column to a layout type. */
  function GetLayoutType(typ: string): (t: LayoutType)
    ensures t == LayoutTable <==> typ == "TABLE"
    ensures t == LayoutView <==> typ == "VIEW"
    ensures t == LayoutNone <==> typ != "TABLE" && typ != "VIEW"
  {
    if typ == "TABLE" then LayoutTable
    else if typ == "VIEW" then LayoutView
    else LayoutNone
  }

  // ---------------------------------------------------------------------------
  // The result stream, as the sequence of what `rows.Next()` returns
  // ---------------------------------------------------------------------------

  /** What `rows.Next()` returns at the i-th call; past the end, (nil, nil). */
  function StepAt(steps: seq<Step>, i: nat): Step
  {
    if i < |steps| then steps[i] else Step(None, None)
  }

  /** A step on which the reading loop stops: a nil row, or an error. */
  predicate Stops(step: Step)
  {
    step.row.None? || step.err.Some?
  }

  /** The index of the step on which the reading loop stops (|steps| if none does). */
  function StopIndex(steps: seq<Step>): (n: nat)
    ensures n <= |steps|
    ensures forall i :: 0 <= i < n ==> !Stops(steps[i])
    ensures n < |steps| ==> Stops(steps[n])
  {
    if |steps| == 0 || Stops(steps[0]) then 0 else 1 + StopIndex(steps[1..])
  }

  /** The rows the reading loop consumes, in read order. */
  function Consumed(steps: seq<Step>): (rows: seq<Row>)
    ensures |rows| == StopIndex(steps)
    ensures forall i :: 0 <= i < |rows| ==> steps[i].row == Some(rows[i])
  {
    if |steps| == 0 || Stops(steps[0]) then []
    else [steps[0].row.value] + Consumed(steps[1..])
  }

  /**
   * The shape the unchecked Go conversions `row[0].(string)`,
   * `row[1].(string)` and, for the typed dialect, `row[2].(string)` demand.
   */
  predicate WellShaped(row: Row, dbType: string)
  {
    && |row| >= 2 && row[0].Text? && row[1].Text?
    && (dbType == RedshiftClientName ==> |row| >= 3 && row[2].Text?)
  }

  predicate AllWellShaped(rows: seq<Row>, dbType: string)
  {
    forall r :: r in rows ==> WellShaped(r, dbType)
  }

  // ---------------------------------------------------------------------------
  // Specification of the grouping
  // ---------------------------------------------------------------------------

  /** The leaf node built from one row. */
  function Leaf(row: Row, dbType: string): Layout
    requires WellShaped(row, dbType)
  {
    Layout(
      name := row[1].s,
      schema := row[0].s,
      database := dbType,
      typ := if dbType == RedshiftClientName then GetLayoutType(row[2].s) else LayoutTable,
      children := [])
  }

  /** The schema-group node emitted for one key of the accumulator. */
  function GroupNode(key: string, leaves: seq<Layout>, dbType: string): Layout
  {
    Layout(name := key, schema := key, database := dbType, typ := LayoutNone, children := leaves)
  }

  /** Go's `m[k]`: the zero value (a nil slice) for a missing key. */
  function Lookup(m: map<string, seq<Layout>>, k: string): seq<Layout>
  {
    if k in m then m[k] else []
  }

  /** A non-empty list of leaves of schema k from dialect dbType. */
  predicate LeavesOfSchema(leaves: seq<Layout>, k: string, dbType: string)
  {
    && |leaves| > 0
    && forall j :: 0 <= j < |leaves| ==>
         leaves[j].schema == k && leaves[j].database == dbType && leaves[j].children == []
  }

  /** The accumulator `children` after the given rows have been appended, in order. */
  function Group(rows: seq<Row>, dbType: string): (m: map<string, seq<Layout>>)
    requires AllWellShaped(rows, dbType)
    ensures forall k :: k in m ==> LeavesOfSchema(m[k], k, dbType)
  {
    if rows == [] then map[]
    else
      var init, last := rows[..|rows| - 1], rows[|rows| - 1];
      assert forall r :: r in init ==> r in rows;
      assert last in rows;
      var m := Group(init, dbType);
      var schema := last[0].s;
      m[schema := Lookup(m, schema) + [Leaf(last, dbType)]]
  }

  /** Whether a row belongs to schema k. */
  predicate HasSchema(row: Row, k: string)
  {
    |row| > 0 && row[0] == Text(k)
  }

  /** Reference definition: the rows of schema k, in read order. */
  function Select(rows: seq<Row>, k: string): (s: seq<Row>)
    ensures forall r :: r in s ==> r in rows && HasSchema(r, k)
    ensures forall r :: r in rows && HasSchema(r, k) ==> r in s
  {
    if rows == [] then []
    else (if HasSchema(rows[0], k) then [rows[0]] else []) + Select(rows[1..], k)
  }

  /** The leaves built from the given rows, one per row, in order. */
  function Leaves(rows: seq<Row>, dbType: string): seq<Layout>
    requires AllWellShaped(rows, dbType)
  {
    seq(|rows|, i requires 0 <= i < |rows| => Leaf(rows[i], dbType))
  }

  /**
   * The output of the emission loop for accumulator `children`: one group node
   * per key, no key twice, in an unspecified order.
   */
  predicate IsGrouping(layout: seq<Layout>, children: map<string, seq<Layout>>, dbType: string)
  {
    && |layout| == |children.Keys|
    && (forall i :: 0 <= i < |layout| ==>
          layout[i].name in children && layout[i] == GroupNode(layout[i].name, children[layout[i].name], dbType))
    && (forall k :: k in children ==> exists i :: 0 <= i < |layout| && layout[i].name == k)
    && (forall i, j :: 0 <= i < j < |layout| ==> layout[i].name != layout[j].name)
  }

  /** The number of leaves below a list of group nodes. */
  function SumChildren(groups: seq<Layout>): nat
  {
    if groups == [] then 0
    else SumChildren(groups[..|groups| - 1]) + |groups[|groups| - 1].children|
  }

  /** The number of leaves held by an accumulator. */
  ghost function TotalLeaves(m: map<string, seq<Layout>>): nat
    decreases m.Keys
  {
    if m.Keys == {} then 0
    else
      var k := PickKey(m);
      |m[k]| + TotalLeaves(m - {k})
  }

  /** Some key of a non-empty map (one fixed choice, so that proofs can unfold TotalLeaves). */
  ghost function PickKey(m: map<string, seq<Layout>>): (k: string)
    requires m.Keys != {}
    ensures k in m
  {
    var k :| k in m; k
  }

  // ---------------------------------------------------------------------------
  // fetchPsqlLayouts
  // ---------------------------------------------------------------------------

  /**
   * Drains the stream, grouping each row's leaf under its schema, then emits
   * one group node per schema.
   */
  method FetchPsqlLayouts(steps: seq<Step>, dbType: string) returns (res: Result<seq<Layout>, Error>)
    requires AllWellShaped(Consumed(steps), dbType)
    ensures res.Failure? <==> StopIndex(steps) < |steps| && steps[StopIndex(steps)].row.Some?
    ensures res.Failure? ==> StopIndex(steps) < |steps| && steps[StopIndex(steps)].err == Some(res.error)
    ensures res.Success? ==> IsGrouping(res.value, Group(Consumed(steps), dbType), dbType)
    ensures res.Success? ==> SumChildren(res.value) == |Consumed(steps)|
  {
    ghost var rows := Consumed(steps);
    var children: map<string, seq<Layout>> := map[];
    var i := 0;
    while true
      invariant 0 <= i <= StopIndex(steps)
      invariant AllWellShaped(rows[..i], dbType)
      invariant children == Group(rows[..i], dbType)
      decreases |steps| - i
    {
      var step := StepAt(steps, i);
      if step.row.None? {
        break;
      }
      if step.err.Some? {
        return Failure(step.err.value);
      }
      var row := step.row.value;
      assert row == rows[i];
      GroupAppend(rows, i, dbType);
      var schema, table := row[0].s, row[1].s;
      if dbType == RedshiftClientName {
        var typ := row[2].s;
        children := children[schema := Lookup(children, schema) +
          [Layout(name := table, schema := schema, database := dbType, typ := GetLayoutType(typ), children := [])]];
        i := i + 1;
        continue;
      }
      children := children[schema := Lookup(children, schema) +
        [Layout(name := table, schema := schema, database := dbType, typ := LayoutTable, children := [])]];
      i := i + 1;
    }
    assert i == |rows| && rows[..i] == rows;

    var layout := EmitGroups(children, dbType);
    GroupTotal(rows, dbType);
    return Success(layout);
  }


  /**
   * The state of the emission loop: `layout` holds one group node for each key
   * of `children` that is no longer in `remaining`.
   */
  ghost predicate Emitted(layout: seq<Layout>, remaining: map<string, seq<Layout>>,
                          children: map<string, seq<Layout>>, dbType: string)
  {
    && remaining.Keys <= children.Keys
    && (forall k :: k in remaining ==> remaining[k] == children[k])
    && (forall j :: 0 <= j < |layout| ==>
          layout[j].name in children && layout[j].name !in remaining &&
          layout[j] == GroupNode(layout[j].name, children[layout[j].name], dbType))
    && (forall k :: k in children && k !in remaining ==>
          exists j :: 0 <= j < |layout| && layout[j].name == k)
    && (forall j, j' :: 0 <= j < j' < |layout| ==> layout[j].name != layout[j'].name)
    && |layout| + |remaining.Keys| == |children.Keys|
  }

  /** Emitting the group of one remaining key keeps the loop's state consistent. */
  lemma EmitStep(layout: seq<Layout>, remaining: map<string, seq<Layout>>,
                 children: map<string, seq<Layout>>, dbType: string, k: string)
    requires Emitted(layout, remaining, children, dbType) && k in remaining
    ensures Emitted(layout + [GroupNode(k, remaining[k], dbType)], remaining - {k}, children, dbType)
    ensures SumChildren(layout + [GroupNode(k, remaining[k], dbType)]) == SumChildren(layout) + |remaining[k]|
  {
    var layout' := layout + [GroupNode(k, remaining[k], dbType)];
    assert layout'[..|layout|] == layout;
    assert (remaining - {k}).Keys == remaining.Keys - {k};
    forall k' | k' in children && k' !in remaining - {k}
      ensures exists j :: 0 <= j < |layout'| && layout'[j].name == k'
    {
      if k' == k {
        assert layout'[|layout|].name == k';
      } else {
        var j :| 0 <= j < |layout| && layout[j].name == k';
        assert layout'[j].name == k';
      }
    }
  }

  /**
   * The second loop of fetchPsqlLayouts: one group node per key of the
   * accumulator, in the map's (unspecified) iteration order.
   */
  method EmitGroups(children: map<string, seq<Layout>>, dbType: string) returns (layout: seq<Layout>)
    ensures IsGrouping(layout, children, dbType)
    ensures SumChildren(layout) == TotalLeaves(children)
  {
    layout := [];
    var remaining := children;
    while remaining.Keys != {}
      invariant Emitted(layout, remaining, children, dbType)
      invariant SumChildren(layout) + TotalLeaves(remaining) == TotalLeaves(children)
      decreases remaining.Keys
    {
      var k :| k in remaining;
      TotalLeavesRemove(remaining, k);
      EmitStep(layout, remaining, children, dbType, k);
      layout := layout + [Layout(name := k, schema := k, database := dbType, typ := LayoutNone, children := remaining[k])];
      remaining := remaining - {k};
    }
  }

  // ---------------------------------------------------------------------------
  // Properties of the grouping
  // ---------------------------------------------------------------------------

  /** Reading row i extends the accumulator of the rows before it by that row's leaf. */
  lemma GroupAppend(rows: seq<Row>, i: nat, dbType: string)
    requires AllWellShaped(rows, dbType) && i < |rows|
    ensures WellShaped(rows[i], dbType)
    ensures AllWellShaped(rows[..i], dbType) && AllWellShaped(rows[..i + 1], dbType)
    ensures Group(rows[..i + 1], dbType) ==
      Group(rows[..i], dbType)[rows[i][0].s := Lookup(Group(rows[..i], dbType), rows[i][0].s) + [Leaf(rows[i], dbType)]]
  {
    assert rows[i] in rows;
    assert forall r :: r in rows[..i + 1] ==> r in rows;
    assert rows[..i + 1][..i] == rows[..i];
  }

  lemma {:induction false} TotalLeavesRemove(m: map<string, seq<Layout>>, k: string)
    requires k in m
    ensures TotalLeaves(m) == |m[k]| + TotalLeaves(m - {k})
    decreases m.Keys
  {
    var k' := PickKey(m);
    if k' != k {
      TotalLeavesRemove(m - {k'}, k);
      TotalLeavesRemove(m - {k}, k');
      assert m - {k'} - {k} == m - {k} - {k'};
    }
  }

  /** Every consumed row becomes exactly one leaf. */
  lemma {:induction false} GroupTotal(rows: seq<Row>, dbType: string)
    requires AllWellShaped(rows, dbType)
    ensures TotalLeaves(Group(rows, dbType)) == |rows|
  {
    if rows != [] {
      var init, last := rows[..|rows| - 1], rows[|rows| - 1];
      assert forall r :: r in init ==> r in rows;
      assert last in rows;
      GroupTotal(init, dbType);
      var g := Group(init, dbType);
      var s := last[0].s;
      var g' := Group(rows, dbType);
      TotalLeavesRemove(g', s);
      if s in g {
        TotalLeavesRemove(g, s);
        assert g' - {s} == g - {s};
      } else {
        assert g' - {s} == g;
      }
    }
  }

  lemma {:induction false} SelectAppend(rows: seq<Row>, last: Row, k: string)
    ensures Select(rows + [last], k) == Select(rows, k) + (if HasSchema(last, k) then [last] else [])
  {
    if rows != [] {
      assert (rows + [last])[1..] == rows[1..] + [last];
      SelectAppend(rows[1..], last, k);
    }
  }

  lemma LeavesAppend(rows: seq<Row>, last: Row, dbType: string)
    requires AllWellShaped(rows + [last], dbType)
    ensures forall r :: r in rows ==> r in rows + [last]
    ensures Leaves(rows + [last], dbType) == Leaves(rows, dbType) + [Leaf(last, dbType)]
  {
  }

  /**
   * A schema has a group exactly when some row of that schema was read, and
   * its leaves are those rows' leaves in the order the rows were read.
   */
  lemma {:induction false} GroupOrder(rows: seq<Row>, dbType: string)
    requires AllWellShaped(rows, dbType)
    ensures forall k :: k in Group(rows, dbType) <==> Select(rows, k) != []
    ensures forall k :: k in Group(rows, dbType) ==>
      AllWellShaped(Select(rows, k), dbType) &&
      Group(rows, dbType)[k] == Leaves(Select(rows, k), dbType)
  {
    if rows != [] {
      var init, last := rows[..|rows| - 1], rows[|rows| - 1];
      assert rows == init + [last];
      assert forall r :: r in init ==> r in rows;
      assert last in rows;
      GroupOrder(init, dbType);
      var g := Group(init, dbType);
      var s := last[0].s;
      forall k ensures k in Group(rows, dbType) <==> Select(rows, k) != []
        ensures k in Group(rows, dbType) ==>
          AllWellShaped(Select(rows, k), dbType) &&
          Group(rows, dbType)[k] == Leaves(Select(rows, k), dbType)
      {
        SelectAppend(init, last, k);
        if k == s {
          LeavesAppend(Select(init, k), last, dbType);
        }
      }
    }
  }

  /** Every leaf under schema k copies the row it came from and has no children. */
  lemma LeafCopiesRow(rows: seq<Row>, dbType: string, k: string, i: nat)
    requires AllWellShaped(rows, dbType)
    requires k in Group(rows, dbType) && i < |Group(rows, dbType)[k]|
    ensures i < |Select(rows, k)|
    ensures var leaf, row := Group(rows, dbType)[k][i], Select(rows, k)[i];
      row in rows && leaf.name == row[1].s && leaf.schema == row[0].s == k &&
      leaf.database == dbType && leaf.children == []
  {
    GroupOrder(rows, dbType);
  }

  /** The typed dialect classifies each leaf by the type column of its row. */
  lemma TypedLeafType(rows: seq<Row>, k: string, i: nat)
    requires AllWellShaped(rows, RedshiftClientName)
    requires k in Group(rows, RedshiftClientName) && i < |Group(rows, RedshiftClientName)[k]|
    ensures i < |Select(rows, k)| && WellShaped(Select(rows, k)[i], RedshiftClientName)
    ensures Group(rows, RedshiftClientName)[k][i].typ == GetLayoutType(Select(rows, k)[i][2].s)
  {
    GroupOrder(rows, RedshiftClientName);
  }

  /** Every other dialect classifies every leaf as a table. */
  lemma UntypedLeafType(rows: seq<Row>, dbType: string, k: string, i: nat)
    requires dbType != RedshiftClientName
    requires AllWellShaped(rows, dbType)
    requires k in Group(rows, dbType) && i < |Group(rows, dbType)[k]|
    ensures Group(rows, dbType)[k][i].typ == LayoutTable
  {
    GroupOrder(rows, dbType);
  }

  /** Rows that agree on schema and name. */
  predicate SameKeyColumns(a: Row, b: Row)
  {
    |a| >= 2 && |b| >= 2 && a[0] == b[0] && a[1] == b[1]
  }

  /** For an untyped dialect the output does not depend on any column past the second. */
  lemma {:induction false} UntypedDialectIgnoresTypeColumn(rows: seq<Row>, rows': seq<Row>, dbType: string)
    requires dbType != RedshiftClientName
    requires AllWellShaped(rows, dbType) && AllWellShaped(rows', dbType)
    requires |rows| == |rows'|
    requires forall i :: 0 <= i < |rows| ==> SameKeyColumns(rows[i], rows'[i])
    ensures Group(rows, dbType) == Group(rows', dbType)
  {
    if rows != [] {
      var n := |rows| - 1;
      assert forall r :: r in rows[..n] ==> r in rows;
      assert forall r :: r in rows'[..n] ==> r in rows';
      assert rows[n] in rows && rows'[n] in rows';
      UntypedDialectIgnoresTypeColumn(rows[..n], rows'[..n], dbType);
      assert SameKeyColumns(rows[n], rows'[n]);
    }
  }

  /**
   * What a successful FetchPsqlLayouts promises, in terms of the rows: one
   * group per distinct schema read, holding exactly that schema's leaves in
   * read order.
   */
  lemma LayoutMatchesRows(layout: seq<Layout>, rows: seq<Row>, dbType: string)
    requires AllWellShaped(rows, dbType)
    requires IsGrouping(layout, Group(rows, dbType), dbType)
    ensures forall i :: 0 <= i < |layout| ==>
      layout[i].schema == layout[i].name && layout[i].typ == LayoutNone && layout[i].database == dbType &&
      Select(rows, layout[i].name) != [] &&
      AllWellShaped(Select(rows, layout[i].name), dbType) &&
      layout[i].children == Leaves(Select(rows, layout[i].name), dbType)
    ensures forall k :: Select(rows, k) != [] ==> exists i :: 0 <= i < |layout| && layout[i].name == k
  {
    GroupOrder(rows, dbType);
  }

  /**
   * An immediately exhausted stream stops at its first step without an error,
   * yields no rows, hence no groups: with FetchPsqlLayouts's contract, the
   * result is a success with an empty layout.
   */
  lemma EmptyStreamEmptyLayout(steps: seq<Step>, dbType: string)
    requires steps == [] || steps[0].row.None?
    ensures StopIndex(steps) == 0 && !(StopIndex(steps) < |steps| && steps[StopIndex(steps)].row.Some?)
    ensures Consumed(steps) == [] && Group(Consumed(steps), dbType) == map[]
  {
  }

  /**
   * Three `redshift` rows over two schemas: `public` with a table and a view,
   * `audit` with a table.
   */
  lemma TypedDialectExample()
    ensures var rows := [[Text("public"), Text("t1"), Text("TABLE")],
                         [Text("public"), Text("t2"), Text("VIEW")],
                         [Text("audit"), Text("t3"), Text("TABLE")]];
      AllWellShaped(rows, RedshiftClientName) &&
      Group(rows, RedshiftClientName) == map[
        "public" := [Layout("t1", "public", "redshift", LayoutTable, []),
                     Layout("t2", "public", "redshift", LayoutView, [])],
        "audit" := [Layout("t3", "audit", "redshift", LayoutTable, [])]]
  {
    var r1, r2, r3 := [Text("public"), Text("t1"), Text("TABLE")],
                      [Text("public"), Text("t2"), Text("VIEW")],
                      [Text("audit"), Text("t3"), Text("TABLE")];
    assert [r1, r2, r3][..2] == [r1, r2];
    assert [r1, r2][..1] == [r1];
    assert [r1][..0] == [];
    var l1, l2, l3 := Layout("t1", "public", "redshift", LayoutTable, []),
                      Layout("t2", "public", "redshift", LayoutView, []),
                      Layout("t3", "audit", "redshift", LayoutTable, []);
    assert Leaf(r1, RedshiftClientName) == l1;
    assert Leaf(r2, RedshiftClientName) == l2;
    assert Leaf(r3, RedshiftClientName) == l3;
    assert AllWellShaped([r1], RedshiftClientName);
    assert AllWellShaped([r1, r2], RedshiftClientName);
    assert Group([], RedshiftClientName) == map[];
    var g1 := Group([r1], RedshiftClientName);
    assert g1 == map[]["public" := [] + [l1]];
    assert [] + [l1] == [l1] && [] + [l3] == [l3];
    var g2 := Group([r1, r2], RedshiftClientName);
    assert g1 == map["public" := [l1]] && [l1] + [l2] == [l1, l2];
    assert g2 == g1["public" := [l1] + [l2]];
    assert g2 == map["public" := [l1, l2]];
    var g3 := Group([r1, r2, r3], RedshiftClientName);
    assert g3 == g2["audit" := [] + [l3]];
    assert g3 == map["public" := [l1, l2], "audit" := [l3]];
  }

  /** Padded schema names are grouping keys as read: nothing is trimmed here. */
  lemma SchemaKeysAreNotTrimmed()
    ensures var rows := [[Text(" public "), Text("t1"), Text("TABLE")]];
      AllWellShaped(rows, RedshiftClientName) &&
      Group(rows, RedshiftClientName).Keys == {" public "}
  {
  }

  // ---------------------------------------------------------------------------
  // RedshiftClient.Query
  // ---------------------------------------------------------------------------

  /** What `c.c.Conn()` returns. */
  datatype ConnOutcome = ConnOk | ConnFail(err: Error)

  /** What `con.Query(query)` returns. */
  datatype ExecOutcome = ExecOk | ExecFail(err: Error)

  /** `cb := func() { con.Close() }`, for the connection with the given number. */
  datatype Callback = CloseConn(conn: nat)

  /** The result stream returned by a successful query; only its callback is modelled. */
  class Rows {
    var callback: Option<Callback>

    constructor ()
      ensures callback == None
    {
      callback := None;
    }

    method SetCallback(cb: Callback)
      modifies this
      ensures callback == Some(cb)
    {
      callback := Some(cb);
    }
  }

  /**
   * The client, instrumented with the connection bookkeeping: connections
   * are numbered in the order Conn() hands them out.
   */
  class RedshiftClient {
    /** How many connections Conn() has handed out. */
    var acquired: nat
    /** The connections closed by Query itself, in order of the Close calls. */
    var closeLog: seq<nat>
    /** The connections whose close callback was handed to a result stream. */
    var handedOff: seq<nat>

    /** Every acquired connection is closed once or handed off once, never both. */
    ghost predicate Valid()
      reads this
    {
      && |closeLog| + |handedOff| == acquired
      && (forall i :: 0 <= i < |closeLog| ==> closeLog[i] < acquired)
      && (forall i :: 0 <= i < |handedOff| ==> handedOff[i] < acquired)
      && (forall i, j :: 0 <= i < j < |closeLog| ==> closeLog[i] != closeLog[j])
      && (forall i, j :: 0 <= i < j < |handedOff| ==> handedOff[i] != handedOff[j])
      && (forall i, j :: 0 <= i < |closeLog| && 0 <= j < |handedOff| ==> closeLog[i] != handedOff[j])
    }

    constructor ()
      ensures Valid()
      ensures acquired == 0 && closeLog == [] && handedOff == []
    {
      acquired := 0;
      closeLog := [];
      handedOff := [];
    }

    /**
     * The state inside Query between acquiring connection `con` and deciding
     * its fate: every other acquired connection is accounted for as in Valid(),
     * and `con` is neither closed nor handed off yet.
     */
    ghost predicate Pending(con: nat)
      reads this
    {
      && |closeLog| + |handedOff| + 1 == acquired
      && con < acquired
      && con !in closeLog && con !in handedOff
      && (forall i :: 0 <= i < |closeLog| ==> closeLog[i] < acquired)
      && (forall i :: 0 <= i < |handedOff| ==> handedOff[i] < acquired)
      && (forall i, j :: 0 <= i < j < |closeLog| ==> closeLog[i] != closeLog[j])
      && (forall i, j :: 0 <= i < j < |handedOff| ==> handedOff[i] != handedOff[j])
      && (forall i, j :: 0 <= i < |closeLog| && 0 <= j < |handedOff| ==> closeLog[i] != handedOff[j])
    }

    /**
     * Query's deferred closure running the callback on the error path:
     * `con.Close()` on the pending connection, which Query itself thereby closes.
     */
    method Fire(cb: Callback)
      requires Pending(cb.conn)
      modifies this
      ensures Valid()
      ensures closeLog == old(closeLog) + [cb.conn]
      ensures acquired == old(acquired) && handedOff == old(handedOff)
    {
      closeLog := closeLog + [cb.conn];
    }

    /**
     * Acquires a connection and runs the query on it. A failed acquisition
     * releases nothing; a failed query closes the connection exactly once
     * before returning; a successful one closes nothing and installs the
     * close callback on the returned rows.
     */
    method Query(query: string, conn: ConnOutcome, exec: ExecOutcome) returns (rows: Rows?, err: Option<Error>)
      requires Valid()
      modifies this
      ensures Valid()
      ensures conn.ConnFail? ==>
        && rows == null && err == Some(conn.err)
        && acquired == old(acquired) && closeLog == old(closeLog) && handedOff == old(handedOff)
      ensures conn.ConnOk? && exec.ExecFail? ==>
        && rows == null && err == Some(exec.err)
        && acquired == old(acquired) + 1
        && closeLog == old(closeLog) + [old(acquired)] && handedOff == old(handedOff)
      ensures conn.ConnOk? && exec.ExecOk? ==>
        && rows != null && fresh(rows) && err == None
        && rows.callback == Some(CloseConn(old(acquired)))
        && acquired == old(acquired) + 1
        && closeLog == old(closeLog) && handedOff == old(handedOff) + [old(acquired)]
    {
      // con, err := c.c.Conn()
      if conn.ConnFail? {
        return null, Some(conn.err);
      }
      var con := acquired;
      acquired := acquired + 1;
      var cb := CloseConn(con);
      assert Pending(con);

      // rows, err := con.Query(query)
      var e: Option<Error> := if exec.ExecFail? then Some(exec.err) else None;
      if e.Some? {
        rows := null;
      } else {
        rows := new Rows();
        rows.SetCallback(cb);
        handedOff := handedOff + [con];
      }

      // the deferred closure: if err != nil { cb() }
      if e.Some? {
        Fire(cb);
      }
      err := e;
    }
  }
}
