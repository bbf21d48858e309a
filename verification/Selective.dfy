/** Selective restore: rows selected from a scratch snapshot are classified against a live table and
    then upserted. The live table may have grown columns since the backup. */
module Selective {
  import opened Prelude

  type Column = string
  type Value = Option<string>
  type Row = map<Column, Value>
  type Key = seq<Value>

  function Get(row: Row, c: Column): Value {
    if c in row then row[c] else None
  }

  function KeyOf(row: Row, pk: seq<Column>): Key {
    seq(|pk|, i requires 0 <= i < |pk| => Get(row, pk[i]))
  }

  /** The snapshot's table: its columns, and which of them are the primary key. */
  datatype Shape = Shape(columns: seq<Column>, pk: seq<Column>)

  ghost predicate Sound(shape: Shape) {
    shape.pk != [] && forall c | c in shape.pk :: c in shape.columns
  }

  ghost predicate Fits(row: Row, columns: seq<Column>) {
    forall c :: c in row <==> c in columns
  }

  ghost predicate KeysDiffer(rows: seq<Row>, pk: seq<Column>) {
    forall i, j | 0 <= i < j < |rows| :: KeyOf(rows[i], pk) != KeyOf(rows[j], pk)
  }

  /** What a query against a table with a primary key can return. */
  ghost predicate Selected(rows: seq<Row>, shape: Shape) {
    && (forall i | 0 <= i < |rows| :: Fits(rows[i], shape.columns))
    && KeysDiffer(rows, shape.pk)
  }

  datatype Action = Insert | Update | Identical

  function Classify(row: Row, pk: seq<Column>, live: map<Key, Row>): Action {
    var key := KeyOf(row, pk);
    if key !in live then Insert else if live[key] == row then Identical else Update
  }

  function Having(rows: seq<Row>, pk: seq<Column>, live: map<Key, Row>, action: Action): seq<Row> {
    if rows == [] then [] else
    var rest, last := Having(rows[..|rows| - 1], pk, live, action), rows[|rows| - 1];
    if Classify(last, pk, live) == action then rest + [last] else rest
  }

  datatype Plan = Plan(shape: Shape, inserts: seq<Row>, updates: seq<Row>, identical: seq<Row>)

  function WriteCount(plan: Plan): nat {
    |plan.inserts| + |plan.updates|
  }

  function ToWrite(plan: Plan): seq<Row> {
    plan.inserts + plan.updates
  }

  function PlanFor(rows: seq<Row>, shape: Shape, live: map<Key, Row>): Plan {
    Plan(shape, Having(rows, shape.pk, live, Insert), Having(rows, shape.pk, live, Update), Having(rows, shape.pk, live, Identical))
  }

  lemma {:induction false} HavingMember(rows: seq<Row>, pk: seq<Column>, live: map<Key, Row>, action: Action, row: Row)
    ensures row in Having(rows, pk, live, action) <==> row in rows && Classify(row, pk, live) == action
  {
    if rows != [] {
      HavingMember(rows[..|rows| - 1], pk, live, action, row);
      assert row in rows <==> row in rows[..|rows| - 1] || row == rows[|rows| - 1];
    }
  }

  /** Every selected row is planned exactly once. */
  lemma {:induction false} PlanPartitions(rows: seq<Row>, shape: Shape, live: map<Key, Row>)
    ensures var plan := PlanFor(rows, shape, live);
      multiset(plan.inserts) + multiset(plan.updates) + multiset(plan.identical) == multiset(rows)
  {
    if rows != [] {
      PlanPartitions(rows[..|rows| - 1], shape, live);
      assert rows == rows[..|rows| - 1] + [rows[|rows| - 1]];
    }
  }

  /** A row is planned as an insert exactly when no live row has its key, as identical exactly when the
      live row of its key is the same, and as an update exactly when that row is another. */
  lemma PlannedExactly(rows: seq<Row>, shape: Shape, live: map<Key, Row>, row: Row)
    ensures var plan := PlanFor(rows, shape, live);
      var key := KeyOf(row, shape.pk);
      && (row in plan.inserts <==> row in rows && key !in live)
      && (row in plan.updates <==> row in rows && key in live && live[key] != row)
      && (row in plan.identical <==> row in rows && key in live && live[key] == row)
  {
    HavingMember(rows, shape.pk, live, Insert, row);
    HavingMember(rows, shape.pk, live, Update, row);
    HavingMember(rows, shape.pk, live, Identical, row);
  }

  ghost predicate Ascending(at: seq<nat>, n: nat) {
    (forall k | 0 <= k < |at| :: at[k] < n) && forall j, k | 0 <= j < k < |at| :: at[j] < at[k]
  }

  /** Each list is in the order of the selection: `at` says where its rows stood. */
  lemma {:induction false} PlannedInOrder(rows: seq<Row>, pk: seq<Column>, live: map<Key, Row>, action: Action) returns (at: seq<nat>)
    ensures |at| == |Having(rows, pk, live, action)| && Ascending(at, |rows|)
    ensures forall k | 0 <= k < |at| :: Having(rows, pk, live, action)[k] == rows[at[k]]
  {
    at := [];
    if rows != [] {
      at := PlannedInOrder(rows[..|rows| - 1], pk, live, action);
      if Classify(rows[|rows| - 1], pk, live) == action { at := at + [|rows| - 1]; }
    }
  }

  /** plan(): refused over the bound, otherwise each row goes on the list of its class, in order. */
  method MakePlan(rows: seq<Row>, shape: Shape, live: map<Key, Row>, maxRows: int) returns (plan: Option<Plan>)
    ensures plan == if |rows| > maxRows then None else Some(PlanFor(rows, shape, live))
  {
    if |rows| > maxRows { return None; }
    var inserts, updates, identical := [], [], [];
    for i := 0 to |rows|
      invariant Plan(shape, inserts, updates, identical) == PlanFor(rows[..i], shape, live)
    {
      var row := rows[i];
      var key := KeyOf(row, shape.pk);
      assert rows[..i + 1][..i] == rows[..i];
      if key !in live {
        inserts := inserts + [row];
      } else if live[key] == row {
        identical := identical + [row];
      } else {
        updates := updates + [row];
      }
    }
    assert rows[..|rows|] == rows;
    return Some(Plan(shape, inserts, updates, identical));
  }

  // ---------------------------------------------------------------- upserts

  /** The live table: its columns and what a column gets when an insert does not name it. */
  datatype Layout = Layout(columns: set<Column>, defaults: map<Column, Value>)

  ghost predicate Holds(layout: Layout, pk: seq<Column>, rows: map<Key, Row>) {
    && (forall c | c in pk :: c in layout.columns)
    && (forall key | key in rows :: rows[key].Keys == layout.columns && KeyOf(rows[key], pk) == key)
  }

  /** An upsert takes the snapshot's values for its columns and keeps or defaults the others. */
  function Upserted(layout: Layout, shape: Shape, rows: map<Key, Row>, row: Row): Row {
    var key := KeyOf(row, shape.pk);
    map c | c in layout.columns ::
      if c in shape.columns then Get(row, c) else if key in rows then Get(rows[key], c) else Get(layout.defaults, c)
  }

  function Upserts(layout: Layout, shape: Shape, rows: map<Key, Row>, written: seq<Row>): map<Key, Row> {
    if written == [] then rows else
    var last := written[|written| - 1];
    var before := Upserts(layout, shape, rows, written[..|written| - 1]);
    before[KeyOf(last, shape.pk) := Upserted(layout, shape, before, last)]
  }

  lemma UpsertHolds(layout: Layout, shape: Shape, rows: map<Key, Row>, row: Row)
    requires Sound(shape) && Holds(layout, shape.pk, rows)
    ensures Holds(layout, shape.pk, rows[KeyOf(row, shape.pk) := Upserted(layout, shape, rows, row)])
  {
    var made := Upserted(layout, shape, rows, row);
    forall i | 0 <= i < |shape.pk| ensures Get(made, shape.pk[i]) == Get(row, shape.pk[i]) {
      assert shape.pk[i] in shape.columns;
    }
    assert KeyOf(made, shape.pk) == KeyOf(row, shape.pk);
    assert made.Keys == layout.columns;
  }

  /** A key that is not written is untouched. */
  lemma {:induction false} UpsertsElsewhere(layout: Layout, shape: Shape, rows: map<Key, Row>, written: seq<Row>, key: Key)
    requires forall i | 0 <= i < |written| :: KeyOf(written[i], shape.pk) != key
    ensures key in Upserts(layout, shape, rows, written) <==> key in rows
    ensures key in rows ==> Upserts(layout, shape, rows, written)[key] == rows[key]
  {
    if written != [] {
      var init := written[..|written| - 1];
      assert forall i | 0 <= i < |init| :: init[i] == written[i];
      UpsertsElsewhere(layout, shape, rows, init, key);
    }
  }

  lemma UpsertedDepends(layout: Layout, shape: Shape, rows: map<Key, Row>, rows': map<Key, Row>, row: Row)
    requires var key := KeyOf(row, shape.pk); (key in rows <==> key in rows') && (key in rows ==> rows[key] == rows'[key])
    ensures Upserted(layout, shape, rows, row) == Upserted(layout, shape, rows', row)
  {
  }

  /** Each written key gets its own upsert of the row that was there. */
  lemma {:induction false} UpsertsAt(layout: Layout, shape: Shape, rows: map<Key, Row>, written: seq<Row>, i: nat)
    requires KeysDiffer(written, shape.pk) && i < |written|
    ensures KeyOf(written[i], shape.pk) in Upserts(layout, shape, rows, written)
    ensures Upserts(layout, shape, rows, written)[KeyOf(written[i], shape.pk)] == Upserted(layout, shape, rows, written[i])
  {
    var init, last := written[..|written| - 1], written[|written| - 1];
    if i < |init| {
      UpsertsAt(layout, shape, rows, init, i);
    } else {
      UpsertsElsewhere(layout, shape, rows, init, KeyOf(last, shape.pk));
      UpsertedDepends(layout, shape, Upserts(layout, shape, rows, init), rows, last);
    }
  }

  function InsertedRow(layout: Layout, shape: Shape, row: Row): Row {
    map c | c in layout.columns :: if c in shape.columns then Get(row, c) else Get(layout.defaults, c)
  }

  function UpdatedRow(layout: Layout, shape: Shape, current: Row, row: Row): Row {
    map c | c in layout.columns :: if c in shape.columns && c !in shape.pk then Get(row, c) else Get(current, c)
  }

  ghost predicate Lacks(layout: Layout, shape: Shape) {
    exists c | c in shape.columns :: c !in layout.columns
  }

  /** Whether the database turns a row away: constraints, types, triggers. */
  type Rejects = (map<Key, Row>, Row) -> bool

  /** Statement `i` fails: the table lacks a column of the snapshot, or the database rejects the row. */
  ghost predicate Fails(layout: Layout, shape: Shape, rows: map<Key, Row>, written: seq<Row>, rejects: Rejects, i: nat)
    requires i < |written|
  {
    Lacks(layout, shape) || rejects(Upserts(layout, shape, rows, written[..i]), written[i])
  }

  /** None of the first `n` statements fails. */
  ghost predicate Passing(layout: Layout, shape: Shape, rows: map<Key, Row>, written: seq<Row>, rejects: Rejects, n: nat)
    requires n <= |written|
  {
    forall i | 0 <= i < n :: !Fails(layout, shape, rows, written, rejects, i)
  }

  lemma UpsertsNext(layout: Layout, shape: Shape, rows: map<Key, Row>, written: seq<Row>, i: nat)
    requires i < |written|
    ensures var before := Upserts(layout, shape, rows, written[..i]);
      Upserts(layout, shape, rows, written[..i + 1]) == before[KeyOf(written[i], shape.pk) := Upserted(layout, shape, before, written[i])]
  {
    assert written[..i + 1][..i] == written[..i];
  }

  class LiveTable {
    const layout: Layout
    var rows: map<Key, Row>

    constructor (layout: Layout)
      ensures this.layout == layout && rows == map[]
    {
      this.layout := layout;
      rows := map[];
    }

    /** The INSERT with its ON CONFLICT clause. A conflict updates only the columns outside the key,
        and does nothing when there are none. A column the table lacks is an error, and so is anything
        else the database rejects the row for. */
    method Execute(shape: Shape, row: Row, rejects: Rejects) returns (ok: bool)
      requires Sound(shape) && Holds(layout, shape.pk, rows)
      modifies this
      ensures ok <==> !Lacks(layout, shape) && !rejects(old(rows), row)
      ensures ok ==> rows == old(rows)[KeyOf(row, shape.pk) := Upserted(layout, shape, old(rows), row)]
      ensures !ok ==> rows == old(rows)
      ensures Holds(layout, shape.pk, rows)
    {
      if exists c | c in shape.columns :: c !in layout.columns { return false; }
      if rejects(rows, row) { return false; }
      var key := KeyOf(row, shape.pk);
      UpsertHolds(layout, shape, rows, row);
      UpsertCases(layout, shape, rows, row);
      if key !in rows {
        rows := rows[key := InsertedRow(layout, shape, row)];
      } else if exists c | c in shape.columns :: c !in shape.pk {
        rows := rows[key := UpdatedRow(layout, shape, rows[key], row)];
      }
      return true;
    }

    /** The statements of the transaction, up to the first that fails. */
    method ExecuteAll(shape: Shape, written: seq<Row>, rejects: Rejects) returns (done: nat)
      requires Sound(shape) && Holds(layout, shape.pk, rows)
      modifies this
      ensures done <= |written| && Passing(layout, shape, old(rows), written, rejects, done)
      ensures done < |written| ==> Fails(layout, shape, old(rows), written, rejects, done)
      ensures rows == Upserts(layout, shape, old(rows), written[..done]) && Holds(layout, shape.pk, rows)
    {
      ghost var before := rows;
      for i := 0 to |written|
        invariant Holds(layout, shape.pk, rows)
        invariant rows == Upserts(layout, shape, before, written[..i])
        invariant Passing(layout, shape, before, written, rejects, i)
      {
        UpsertsNext(layout, shape, before, written, i);
        var ok := Execute(shape, written[i], rejects);
        if !ok { return i; }
      }
      return |written|;
    }

    /** apply(): one transaction. It fails, and changes nothing, exactly when one of its statements does. */
    method Apply(plan: Plan, rejects: Rejects) returns (count: Option<nat>)
      requires Sound(plan.shape) && Holds(layout, plan.shape.pk, rows)
      modifies this
      ensures count == None <==>
        exists i | 0 <= i < |ToWrite(plan)| :: Fails(layout, plan.shape, old(rows), ToWrite(plan), rejects, i)
      ensures count == None ==> rows == old(rows)
      ensures count != None ==>
        && count.value == WriteCount(plan)
        && rows == Upserts(layout, plan.shape, old(rows), ToWrite(plan))
      ensures Holds(layout, plan.shape.pk, rows)
    {
      var toWrite := ToWrite(plan);
      if toWrite == [] { return Some(0); }
      var before := rows;
      var done := ExecuteAll(plan.shape, toWrite, rejects);
      if done < |toWrite| {
        rows := before;
        return None;
      }
      assert toWrite[..|toWrite|] == toWrite;
      return Some(|toWrite|);
    }
  }

  /** On a key conflict the key columns already agree, so setting only the others, or none when there
      are none, still leaves the whole upsert. */
  lemma UpsertCases(layout: Layout, shape: Shape, rows: map<Key, Row>, row: Row)
    requires Sound(shape) && Holds(layout, shape.pk, rows)
    ensures var key := KeyOf(row, shape.pk);
      && (key !in rows ==> Upserted(layout, shape, rows, row) == InsertedRow(layout, shape, row))
      && (key in rows ==> Upserted(layout, shape, rows, row) == UpdatedRow(layout, shape, rows[key], row))
      && (key in rows && (forall c | c in shape.columns :: c in shape.pk) ==> Upserted(layout, shape, rows, row) == rows[key])
  {
    var key := KeyOf(row, shape.pk);
    if key in rows {
      forall i | 0 <= i < |shape.pk| ensures Get(rows[key], shape.pk[i]) == Get(row, shape.pk[i]) {
        assert KeyOf(rows[key], shape.pk)[i] == KeyOf(row, shape.pk)[i];
      }
    }
  }

  // ---------------------------------------------------------------- restoring

  /** The row's values are the table's on all of the snapshot's columns. */
  ghost predicate Agrees(live: map<Key, Row>, row: Row, shape: Shape) {
    var key := KeyOf(row, shape.pk);
    key in live && forall c | c in shape.columns :: Get(live[key], c) == Get(row, c)
  }

  lemma {:induction false} HavingKeys(rows: seq<Row>, pk: seq<Column>, live: map<Key, Row>, action: Action)
    requires KeysDiffer(rows, pk)
    ensures KeysDiffer(Having(rows, pk, live, action), pk)
  {
    if rows != [] {
      var init, last := rows[..|rows| - 1], rows[|rows| - 1];
      HavingKeys(init, pk, live, action);
      forall row | row in Having(init, pk, live, action) ensures KeyOf(row, pk) != KeyOf(last, pk) {
        HavingMember(init, pk, live, action, row);
      }
    }
  }

  lemma WrittenKeysDiffer(rows: seq<Row>, shape: Shape, live: map<Key, Row>)
    requires KeysDiffer(rows, shape.pk)
    ensures KeysDiffer(ToWrite(PlanFor(rows, shape, live)), shape.pk)
  {
    var plan := PlanFor(rows, shape, live);
    HavingKeys(rows, shape.pk, live, Insert);
    HavingKeys(rows, shape.pk, live, Update);
    forall i, j | 0 <= i < |plan.inserts| && 0 <= j < |plan.updates|
      ensures KeyOf(plan.inserts[i], shape.pk) != KeyOf(plan.updates[j], shape.pk)
    {
      HavingMember(rows, shape.pk, live, Insert, plan.inserts[i]);
      HavingMember(rows, shape.pk, live, Update, plan.updates[j]);
    }
  }

  lemma UpsertAgrees(layout: Layout, shape: Shape, rows: map<Key, Row>, row: Row)
    requires forall c | c in shape.columns :: c in layout.columns
    ensures forall c | c in shape.columns :: Get(Upserted(layout, shape, rows, row), c) == Get(row, c)
  {
  }

  /** Whatever happened to the live table since planning, applying makes every row planned for
      writing agree. */
  lemma WrittenRowsAgree(rows: seq<Row>, shape: Shape, planned: map<Key, Row>, layout: Layout, live: map<Key, Row>, row: Row)
    requires Selected(rows, shape) && forall c | c in shape.columns :: c in layout.columns
    requires row in ToWrite(PlanFor(rows, shape, planned))
    ensures Agrees(Upserts(layout, shape, live, ToWrite(PlanFor(rows, shape, planned))), row, shape)
  {
    var written := ToWrite(PlanFor(rows, shape, planned));
    WrittenKeysDiffer(rows, shape, planned);
    var i :| 0 <= i < |written| && written[i] == row;
    UpsertsAt(layout, shape, live, written, i);
    UpsertAgrees(layout, shape, live, row);
  }

  lemma WrittenMember(rows: seq<Row>, shape: Shape, live: map<Key, Row>, row: Row)
    ensures row in ToWrite(PlanFor(rows, shape, live)) <==> row in rows && Classify(row, shape.pk, live) != Identical
  {
    HavingMember(rows, shape.pk, live, Insert, row);
    HavingMember(rows, shape.pk, live, Update, row);
  }

  lemma SameKeySameRow(rows: seq<Row>, shape: Shape, r: Row, s: Row)
    requires KeysDiffer(rows, shape.pk) && r in rows && s in rows && KeyOf(r, shape.pk) == KeyOf(s, shape.pk)
    ensures r == s
  {
  }

  /** Applied to the table it was planned on, the restore makes the live table agree with the snapshot
      on every selected row, keeping the values of columns the snapshot does not have. */
  lemma RestoreAgrees(rows: seq<Row>, shape: Shape, layout: Layout, live: map<Key, Row>, row: Row)
    requires Selected(rows, shape) && Holds(layout, shape.pk, live) && row in rows
    requires forall c | c in shape.columns :: c in layout.columns
    ensures var after := Upserts(layout, shape, live, ToWrite(PlanFor(rows, shape, live)));
      var key := KeyOf(row, shape.pk);
      && Agrees(after, row, shape) && after[key].Keys == layout.columns
      && forall c | c in layout.columns && c !in shape.columns ::
           Get(after[key], c) == if key in live then Get(live[key], c) else Get(layout.defaults, c)
  {
    var written := ToWrite(PlanFor(rows, shape, live));
    WrittenKeysDiffer(rows, shape, live);
    WrittenMember(rows, shape, live, row);
    if row in written {
      var i :| 0 <= i < |written| && written[i] == row;
      UpsertsAt(layout, shape, live, written, i);
      UpsertAgrees(layout, shape, live, row);
    } else {
      forall i | 0 <= i < |written| ensures KeyOf(written[i], shape.pk) != KeyOf(row, shape.pk) {
        WrittenMember(rows, shape, live, written[i]);
        if KeyOf(written[i], shape.pk) == KeyOf(row, shape.pk) { SameKeySameRow(rows, shape, written[i], row); }
      }
      UpsertsElsewhere(layout, shape, live, written, KeyOf(row, shape.pk));
    }
  }

  /** Keys that were not selected are untouched. */
  lemma OthersUntouched(rows: seq<Row>, shape: Shape, layout: Layout, live: map<Key, Row>, key: Key)
    requires forall row | row in rows :: KeyOf(row, shape.pk) != key
    ensures var after := Upserts(layout, shape, live, ToWrite(PlanFor(rows, shape, live)));
      (key in after <==> key in live) && (key in live ==> after[key] == live[key])
  {
    var written := ToWrite(PlanFor(rows, shape, live));
    forall i | 0 <= i < |written| ensures KeyOf(written[i], shape.pk) != key {
      WrittenMember(rows, shape, live, written[i]);
    }
    UpsertsElsewhere(layout, shape, live, written, key);
  }

  lemma {:induction false} HavingAll(rows: seq<Row>, pk: seq<Column>, live: map<Key, Row>, action: Action, a: Action)
    requires forall row | row in rows :: Classify(row, pk, live) == action
    ensures Having(rows, pk, live, a) == if a == action then rows else []
  {
    if rows != [] {
      HavingAll(rows[..|rows| - 1], pk, live, action, a);
      assert rows == rows[..|rows| - 1] + [rows[|rows| - 1]];
    }
  }

  /** Planning again finds every row identical exactly when the live table has no columns of its own;
      otherwise it plans to update every row again. */
  lemma PlanningAgain(rows: seq<Row>, shape: Shape, layout: Layout, live: map<Key, Row>)
    requires Selected(rows, shape) && Holds(layout, shape.pk, live)
    requires forall c | c in shape.columns :: c in layout.columns
    ensures var after := Upserts(layout, shape, live, ToWrite(PlanFor(rows, shape, live)));
      PlanFor(rows, shape, after) ==
      if forall c | c in layout.columns :: c in shape.columns then Plan(shape, [], [], rows) else Plan(shape, [], rows, [])
  {
    var after := Upserts(layout, shape, live, ToWrite(PlanFor(rows, shape, live)));
    var action := if forall c | c in layout.columns :: c in shape.columns then Identical else Update;
    forall row | row in rows ensures Classify(row, shape.pk, after) == action {
      RestoreAgrees(rows, shape, layout, live, row);
      SameRowExactly(after, row, shape, layout);
    }
    HavingAll(rows, shape.pk, after, action, Insert);
    HavingAll(rows, shape.pk, after, action, Update);
    HavingAll(rows, shape.pk, after, action, Identical);
  }

  lemma SameRowExactly(live: map<Key, Row>, row: Row, shape: Shape, layout: Layout)
    requires Agrees(live, row, shape) && Fits(row, shape.columns) && live[KeyOf(row, shape.pk)].Keys == layout.columns
    requires forall c | c in shape.columns :: c in layout.columns
    ensures live[KeyOf(row, shape.pk)] == row <==> forall c | c in layout.columns :: c in shape.columns
  {
    var found := live[KeyOf(row, shape.pk)];
    if forall c | c in layout.columns :: c in shape.columns {
      assert found.Keys == row.Keys;
      assert forall c | c in row :: found[c] == Get(found, c) && row[c] == Get(row, c);
    } else {
      var c :| c in layout.columns && c !in shape.columns;
      assert c in found && c !in row;
    }
  }
}
