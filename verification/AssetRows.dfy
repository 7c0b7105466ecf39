/** The rows of one asset in PostgreSQL: capturing them, deleting them in one transaction, and
    inserting them again in another. */
module AssetRows {
  import opened Basics
  import opened Ordering

  type TableName = string
  type Column = string

  /** A row; a column that is missing from the map is null. */
  type Row = map<Column, string>

  /** Every table has a primary key, so a table is a set of rows. */
  type Tables = map<TableName, set<Row>>

  const ASSET: TableName := "public.asset"
  const ID: Column := "id"

  /** A column of a table that refers to the asset's id. */
  datatype Relation = Relation(table: TableName, column: Column)

  /** A foreign key to the asset table; deleting the asset either cascades or is refused. */
  datatype ForeignKey = ForeignKey(relation: Relation, cascades: bool)

  datatype Schema = Schema(foreignKeys: set<ForeignKey>, primaryKeys: map<TableName, set<Column>>)

  datatype Record = Record(table: TableName, rows: set<Row>)

  function Rows(db: Tables, t: TableName): set<Row> {
    if t in db then db[t] else {}
  }

  predicate Refers(row: Row, column: Column, id: string) {
    column in row && row[column] == id
  }

  function Only(rows: set<Row>, column: Column, id: string): set<Row> {
    set r | r in rows && Refers(r, column, id)
  }

  function Referring(db: Tables, r: Relation, id: string): set<Row> {
    Only(Rows(db, r.table), r.column, id)
  }

  // ----- constraints -----

  predicate SameKey(key: set<Column>, a: Row, b: Row) {
    forall c :: c in key ==> (c in a <==> c in b) && (c in a ==> a[c] == b[c])
  }

  predicate KeyOk(schema: Schema, t: TableName, rows: set<Row>) {
    t in schema.primaryKeys ==>
      forall a, b :: a in rows && b in rows && SameKey(schema.primaryKeys[t], a, b) ==> a == b
  }

  predicate IsAsset(db: Tables, id: string) {
    exists a :: a in Rows(db, ASSET) && Refers(a, ID, id)
  }

  predicate FkOk(db: Tables, r: Relation) {
    forall row :: row in Rows(db, r.table) && r.column in row ==> IsAsset(db, row[r.column])
  }

  ghost predicate FksOk(schema: Schema, db: Tables) {
    forall fk :: fk in schema.foreignKeys ==> FkOk(db, fk.relation)
  }

  ghost predicate Consistent(schema: Schema, db: Tables) {
    (forall t :: KeyOk(schema, t, Rows(db, t))) && FksOk(schema, db)
  }

  // ----- statements -----

  function DeleteReferring(db: Tables, r: Relation, id: string): Tables {
    db[r.table := Rows(db, r.table) - Referring(db, r, id)]
  }

  function DeleteRelations(db: Tables, relations: seq<Relation>, id: string): Tables {
    if relations == [] then db
    else DeleteReferring(DeleteRelations(db, relations[..|relations| - 1], id), relations[|relations| - 1], id)
  }

  /** Something refers to the asset through a key that does not cascade. */
  predicate Refused(schema: Schema, db: Tables, id: string) {
    exists fk :: fk in schema.foreignKeys && !fk.cascades && Referring(db, fk.relation, id) != {}
  }

  predicate CascadesTo(schema: Schema, t: TableName, row: Row, id: string) {
    exists fk :: fk in schema.foreignKeys && fk.cascades && fk.relation.table == t && Refers(row, fk.relation.column, id)
  }

  /** DELETE FROM public.asset WHERE id = ..., with what cascades from it. */
  function DeleteAsset(schema: Schema, db: Tables, id: string): Option<Tables> {
    if Refused(schema, db, id) then None
    else Some(map t | t in db ::
                set row | row in db[t] && !(t == ASSET && Refers(row, ID, id)) && !CascadesTo(schema, t, row, id))
  }

  /** The whole deletion before its commit; None when a statement fails or the asset was not there. */
  function Deletion(schema: Schema, db: Tables, relations: seq<Relation>, id: string): Option<Tables> {
    var children := DeleteRelations(db, relations, id);
    if Only(Rows(children, ASSET), ID, id) == {} then None else DeleteAsset(schema, children, id)
  }

  /** INSERT INTO ... VALUES of all rows of one record; the constraints are checked at its end. */
  function InsertRows(schema: Schema, db: Tables, rec: Record): Option<Tables> {
    var after := db[rec.table := Rows(db, rec.table) + rec.rows];
    if && Rows(db, rec.table) !! rec.rows
       && KeyOk(schema, rec.table, Rows(after, rec.table))
       && (forall fk :: fk in schema.foreignKeys && fk.relation.table == rec.table ==> FkOk(after, fk.relation))
    then Some(after) else None
  }

  function InsertAll(schema: Schema, db: Tables, recs: seq<Record>): Option<Tables> {
    if recs == [] then Some(db)
    else
      var before := InsertAll(schema, db, recs[..|recs| - 1]);
      if before.None? || recs[|recs| - 1].rows == {} then before
      else InsertRows(schema, before.value, recs[|recs| - 1])
  }

  /** The asset's own record comes first, the others by table name. */
  predicate RecordLe(a: Record, b: Record) {
    a.table == ASSET || (b.table != ASSET && StringLe(a.table, b.table))
  }

  lemma RecordOrder()
    ensures TotalPreorder(RecordLe)
  {
    StringOrder();
  }

  function Insertion(schema: Schema, db: Tables, recs: seq<Record>): Option<Tables> {
    InsertAll(schema, db, Sort(RecordLe, recs))
  }

  // ----- capturing -----

  function RecordOf(table: TableName, rows: set<Row>): seq<Record> {
    if rows == {} then [] else [Record(table, rows)]
  }

  function CaptureRelations(db: Tables, relations: seq<Relation>, id: string): seq<Record> {
    if relations == [] then []
    else
      var last := relations[|relations| - 1];
      CaptureRelations(db, relations[..|relations| - 1], id) + RecordOf(last.table, Referring(db, last, id))
  }

  function Capture(db: Tables, relations: seq<Relation>, id: string): seq<Record> {
    RecordOf(ASSET, Only(Rows(db, ASSET), ID, id)) + CaptureRelations(db, relations, id)
  }

  // ----- the transactions, in place -----

  /** Where a database call fails: at a statement, or at the commit, before or after it took effect. */
  datatype Fault = NoFault | AtStatement(n: nat) | CommitRefused | AcknowledgementLost

  datatype Result<T> = Ok(value: T) | Failed

  /** What a transaction leaves behind; `hit` says that one of its statements fails. */
  function Committed(db: Tables, work: Option<Tables>, hit: bool, fault: Fault): Tables {
    if work.None? || hit || fault.CommitRefused? then db else work.value
  }

  predicate Acknowledged(work: Option<Tables>, hit: bool, fault: Fault) {
    work.Some? && !hit && !fault.CommitRefused? && !fault.AcknowledgementLost?
  }

  predicate DeleteHit(relations: seq<Relation>, fault: Fault) {
    fault.AtStatement? && fault.n <= |relations|
  }

  /** A record without rows makes no database call. */
  predicate InsertHit(recs: seq<Record>, fault: Fault) {
    fault.AtStatement? && fault.n < |recs| && recs[fault.n].rows != {}
  }

  function AfterDeletion(schema: Schema, db: Tables, relations: seq<Relation>, id: string, fault: Fault): Tables {
    Committed(db, Deletion(schema, db, relations, id), DeleteHit(relations, fault), fault)
  }

  predicate DeletionHeard(schema: Schema, db: Tables, relations: seq<Relation>, id: string, fault: Fault) {
    Acknowledged(Deletion(schema, db, relations, id), DeleteHit(relations, fault), fault)
  }

  function AfterInsertion(schema: Schema, db: Tables, recs: seq<Record>, fault: Fault): Tables {
    Committed(db, Insertion(schema, db, recs), InsertHit(Sort(RecordLe, recs), fault), fault)
  }

  predicate InsertionHeard(schema: Schema, db: Tables, recs: seq<Record>, fault: Fault) {
    Acknowledged(Insertion(schema, db, recs), InsertHit(Sort(RecordLe, recs), fault), fault)
  }

  class PostgresAdapter {
    const schema: Schema
    var tables: Tables

    constructor (schema: Schema, tables: Tables)
      ensures this.schema == schema && this.tables == tables
    {
      this.schema, this.tables := schema, tables;
    }

    /** SELECT the asset's row and the rows of every relation. */
    method CaptureRecords(relations: seq<Relation>, id: string) returns (records: seq<Record>)
      ensures records == Capture(tables, relations, id)
    {
      records := RecordOf(ASSET, Only(Rows(tables, ASSET), ID, id));
      for i := 0 to |relations|
        invariant records == Capture(tables, relations[..i], id)
      {
        assert relations[..i + 1][..i] == relations[..i];
        var rows := Referring(tables, relations[i], id);
        if rows != {} {
          records := records + [Record(relations[i].table, rows)];
        }
      }
      assert relations[..|relations|] == relations;
    }

    /** Children first, then the asset; the records come back with the asset first. */
    method DeleteAssetReferenceRecords(relations: seq<Relation>, id: string, fault: Fault)
      returns (deleted: Result<seq<Record>>)
      modifies this
      ensures tables == AfterDeletion(schema, old(tables), relations, id, fault)
      ensures deleted.Ok? == DeletionHeard(schema, old(tables), relations, id, fault)
      ensures deleted.Ok? ==> deleted.value == RecordOf(ASSET, Only(Rows(DeleteRelations(old(tables), relations, id), ASSET), ID, id))
                                               + DeletedRecords(old(tables), relations, id)
    {
      var tx, records := tables, [];
      for i := 0 to |relations|
        invariant tables == old(tables) && tx == DeleteRelations(tables, relations[..i], id)
        invariant records == DeletedRecords(tables, relations[..i], id)
        invariant fault.AtStatement? ==> fault.n >= i
      {
        if fault == AtStatement(i) {
          return Failed;
        }
        assert relations[..i + 1][..i] == relations[..i];
        var rows := Referring(tx, relations[i], id);
        if rows != {} {
          records := records + [Record(relations[i].table, rows)];
        }
        tx := tx[relations[i].table := Rows(tx, relations[i].table) - rows];
      }
      assert relations[..|relations|] == relations;
      var assetRows := Only(Rows(tx, ASSET), ID, id);
      var emptied := DeleteAsset(schema, tx, id);
      if fault == AtStatement(|relations|) || emptied.None? || assetRows == {} || fault.CommitRefused? {
        return Failed;
      }
      tables := emptied.value;
      if fault.AcknowledgementLost? {
        return Failed;
      }
      return Ok([Record(ASSET, assetRows)] + records);
    }

    /** The loop of the insertions, inside the open transaction. */
    method InsertOrdered(ordered: seq<Record>, fault: Fault) returns (tx: Option<Tables>, total: nat)
      ensures tx == if InsertHit(ordered, fault) then None else InsertAll(schema, tables, ordered)
      ensures tx.Some? ==> total == RowCount(ordered)
    {
      tx, total := Some(tables), 0;
      for i := 0 to |ordered|
        invariant tx.Some? && InsertAll(schema, tables, ordered[..i]) == tx
        invariant total == RowCount(ordered[..i])
        invariant InsertHit(ordered, fault) ==> fault.n >= i
      {
        InsertAllStep(schema, tables, ordered, i);
        if ordered[i].rows != {} {
          if fault == AtStatement(i) {
            return None, total;
          }
          tx := InsertRows(schema, tx.value, ordered[i]);
          if tx.None? {
            InsertAllFailsEarly(schema, tables, ordered, i + 1);
            return;
          }
          total := total + |ordered[i].rows|;
        }
      }
      assert ordered[..|ordered|] == ordered;
    }

    /** Insert the records, the asset's first. */
    method RestoreAssetReferenceRecords(records: seq<Record>, fault: Fault) returns (inserted: Result<nat>)
      modifies this
      ensures tables == AfterInsertion(schema, old(tables), records, fault)
      ensures inserted.Ok? == InsertionHeard(schema, old(tables), records, fault)
      ensures inserted.Ok? ==> inserted.value == RowCount(records)
    {
      var ordered := Sort(RecordLe, records);
      var tx, total := InsertOrdered(ordered, fault);
      if tx.None? || fault.CommitRefused? {
        return Failed;
      }
      tables := tx.value;
      RecordOrder();
      SortIsSorted(RecordLe, records);
      RowCountPermuted(ordered, records);
      return if fault.AcknowledgementLost? then Failed else Ok(total);
    }
  }

  lemma InsertAllStep(schema: Schema, db: Tables, recs: seq<Record>, i: nat)
    requires i < |recs|
    ensures var before := InsertAll(schema, db, recs[..i]);
      InsertAll(schema, db, recs[..i + 1]) ==
        if before.None? || recs[i].rows == {} then before else InsertRows(schema, before.value, recs[i])
    ensures RowCount(recs[..i + 1]) == RowCount(recs[..i]) + |recs[i].rows|
  {
    assert recs[..i + 1][..i] == recs[..i];
  }

  lemma RowCountLast(recs: seq<Record>, r: Record)
    ensures RowCount(recs + [r]) == RowCount(recs) + |r.rows|
  {
    assert (recs + [r])[..|recs|] == recs;
  }

  lemma {:induction false} RowCountSplit(a: seq<Record>, r: Record, b: seq<Record>)
    ensures RowCount(a + [r] + b) == RowCount(a + b) + |r.rows|
  {
    if b == [] {
      assert a + [r] + b == a + [r] && a + b == a;
      RowCountLast(a, r);
    } else {
      var init, last := b[..|b| - 1], b[|b| - 1];
      var long, short := a + [r] + init, a + init;
      RowCountSplit(a, r, init);
      SplitLast(a, r, b);
      RowCountLast(long, last);
      RowCountLast(short, last);
    }
  }

  lemma {:induction false} RowCountPermuted(a: seq<Record>, b: seq<Record>)
    requires multiset(a) == multiset(b)
    ensures RowCount(a) == RowCount(b)
    decreases |a|
  {
    assert |a| == |multiset(a)| == |b|;
    if a != [] {
      var i := RemovedLast(a, b);
      RowCountPermuted(a[..|a| - 1], b[..i] + b[i + 1..]);
      assert b == b[..i] + [b[i]] + b[i + 1..];
      RowCountSplit(b[..i], b[i], b[i + 1..]);
    }
  }

  function DeletedRecords(db: Tables, relations: seq<Relation>, id: string): seq<Record> {
    if relations == [] then []
    else
      var init, last := relations[..|relations| - 1], relations[|relations| - 1];
      DeletedRecords(db, init, id) + RecordOf(last.table, Referring(DeleteRelations(db, init, id), last, id))
  }

  function RowCount(recs: seq<Record>): nat {
    if recs == [] then 0 else RowCount(recs[..|recs| - 1]) + |recs[|recs| - 1].rows|
  }

  lemma {:induction false} InsertAllFailsEarly(schema: Schema, db: Tables, recs: seq<Record>, n: nat)
    requires n <= |recs| && InsertAll(schema, db, recs[..n]).None?
    ensures InsertAll(schema, db, recs).None?
    decreases |recs| - n
  {
    if n < |recs| {
      assert recs[..n + 1][..n] == recs[..n];
      InsertAllFailsEarly(schema, db, recs, n + 1);
    } else {
      assert recs[..n] == recs;
    }
  }
}
