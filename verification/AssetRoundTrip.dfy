/** Deleting an asset's rows and inserting the captured rows again gives the database back, exactly
    when no row refers to the asset through two relations of one table. */
module AssetRoundTrip {
  import opened AssetRows

  /** Every foreign key to the asset table is one of the relations, and none is on the asset table. */
  ghost predicate Covered(schema: Schema, relations: seq<Relation>) {
    && (forall fk :: fk in schema.foreignKeys ==> fk.relation in relations)
    && (forall r :: r in relations ==> r.table != ASSET)
  }

  /** No row of a table is captured through two relations. */
  ghost predicate Once(db: Tables, relations: seq<Relation>, id: string) {
    forall i, j :: 0 <= i < j < |relations| && relations[i].table == relations[j].table ==>
      Referring(db, relations[i], id) !! Referring(db, relations[j], id)
  }

  ghost predicate SameRows(a: Tables, b: Tables) {
    forall t :: Rows(a, t) == Rows(b, t)
  }

  // ----- deletion -----

  predicate RefersThrough(relations: seq<Relation>, t: TableName, row: Row, id: string) {
    exists i :: 0 <= i < |relations| && relations[i].table == t && Refers(row, relations[i].column, id)
  }

  /** The rows of a table that the relations lead to. */
  function Related(db: Tables, relations: seq<Relation>, t: TableName, id: string): set<Row> {
    set row | row in Rows(db, t) && RefersThrough(relations, t, row, id)
  }

  lemma RefersThroughOneMore(relations: seq<Relation>, r: Relation, t: TableName, row: Row, id: string)
    ensures RefersThrough(relations + [r], t, row, id) <==>
            RefersThrough(relations, t, row, id) || (r.table == t && Refers(row, r.column, id))
  {
    var more := relations + [r];
    assert more[|relations|] == r;
    if i :| 0 <= i < |relations| && relations[i].table == t && Refers(row, relations[i].column, id) {
      assert more[i] == relations[i];
    }
  }

  lemma {:induction false} DeletedRows(db: Tables, relations: seq<Relation>, id: string, t: TableName)
    ensures Rows(DeleteRelations(db, relations, id), t) == Rows(db, t) - Related(db, relations, t, id)
  {
    if relations != [] {
      var init, last := relations[..|relations| - 1], relations[|relations| - 1];
      assert relations == init + [last];
      DeletedRows(db, init, id, t);
      forall row ensures row in Rows(DeleteRelations(db, relations, id), t) <==>
                         row in Rows(db, t) - Related(db, relations, t, id)
      {
        RefersThroughOneMore(init, last, t, row, id);
      }
    }
  }

  lemma AssetStays(db: Tables, relations: seq<Relation>, id: string)
    requires forall r :: r in relations ==> r.table != ASSET
    ensures Rows(DeleteRelations(db, relations, id), ASSET) == Rows(db, ASSET)
  {
    DeletedRows(db, relations, id, ASSET);
    forall i | 0 <= i < |relations| ensures relations[i].table != ASSET { assert relations[i] in relations; }
  }

  /** After each of the child statements every foreign key still holds. */
  lemma ChildDeletionsKeepForeignKeys(schema: Schema, db: Tables, relations: seq<Relation>, id: string, n: nat)
    requires FksOk(schema, db) && Covered(schema, relations) && n <= |relations|
    ensures FksOk(schema, DeleteRelations(db, relations[..n], id))
  {
    var after := DeleteRelations(db, relations[..n], id);
    assert forall r :: r in relations[..n] ==> r in relations;
    AssetStays(db, relations[..n], id);
    forall fk | fk in schema.foreignKeys ensures FkOk(after, fk.relation) {
      DeletedRows(db, relations[..n], id, fk.relation.table);
      assert FkOk(db, fk.relation);
      forall row | row in Rows(after, fk.relation.table) && fk.relation.column in row
        ensures IsAsset(after, row[fk.relation.column])
      {
        assert IsAsset(db, row[fk.relation.column]);
      }
    }
  }

  lemma NobodyRefers(schema: Schema, db: Tables, relations: seq<Relation>, id: string, fk: ForeignKey)
    requires Covered(schema, relations) && fk in schema.foreignKeys
    ensures Referring(DeleteRelations(db, relations, id), fk.relation, id) == {}
  {
    var t := fk.relation.table;
    DeletedRows(db, relations, id, t);
    var i :| 0 <= i < |relations| && relations[i] == fk.relation;
    forall row | row in Rows(db, t) && Refers(row, fk.relation.column, id) ensures RefersThrough(relations, t, row, id) {
      assert relations[i].table == t && Refers(row, relations[i].column, id);
    }
  }

  /** The rows a covered deletion takes from a table: those the relations lead to, and the asset's own. */
  function Taken(db: Tables, relations: seq<Relation>, t: TableName, id: string): set<Row> {
    if t == ASSET then Only(Rows(db, ASSET), ID, id) else Related(db, relations, t, id)
  }

  lemma NothingCascades(schema: Schema, db: Tables, relations: seq<Relation>, id: string, t: TableName, row: Row)
    requires Covered(schema, relations) && row in Rows(DeleteRelations(db, relations, id), t)
    ensures !CascadesTo(schema, t, row, id)
  {
    forall fk | fk in schema.foreignKeys && fk.relation.table == t ensures !Refers(row, fk.relation.column, id) {
      NobodyRefers(schema, db, relations, id, fk);
      var left := Referring(DeleteRelations(db, relations, id), fk.relation, id);
      assert row in left <==> Refers(row, fk.relation.column, id);
    }
  }

  /** With every reference covered, the deletion succeeds exactly when the asset is there, and takes
      the asset's rows and nothing else. */
  lemma CoveredDeletion(schema: Schema, db: Tables, relations: seq<Relation>, id: string)
    requires Covered(schema, relations)
    ensures Deletion(schema, db, relations, id).Some? <==> IsAsset(db, id)
    ensures IsAsset(db, id) ==> forall t ::
              Rows(Deletion(schema, db, relations, id).value, t) == Rows(db, t) - Taken(db, relations, t, id)
  {
    var children := DeleteRelations(db, relations, id);
    AssetStays(db, relations, id);
    assert IsAsset(db, id) <==> Only(Rows(children, ASSET), ID, id) != {} by {
      if a :| a in Rows(db, ASSET) && Refers(a, ID, id) { assert a in Only(Rows(children, ASSET), ID, id); }
    }
    assert !Refused(schema, children, id) by {
      forall fk | fk in schema.foreignKeys ensures Referring(children, fk.relation, id) == {} {
        NobodyRefers(schema, db, relations, id, fk);
      }
    }
    if IsAsset(db, id) {
      var after := Deletion(schema, db, relations, id).value;
      forall t ensures Rows(after, t) == Rows(db, t) - Taken(db, relations, t, id) {
        DeletedRows(db, relations, id, t);
        forall row | row in Rows(children, t) ensures !CascadesTo(schema, t, row, id) {
          NothingCascades(schema, db, relations, id, t, row);
        }
      }
    }
  }

  /** After the last statement, too, every foreign key holds. */
  lemma DeletionKeepsForeignKeys(schema: Schema, db: Tables, relations: seq<Relation>, id: string)
    requires FksOk(schema, db) && Covered(schema, relations) && IsAsset(db, id)
    ensures Deletion(schema, db, relations, id).Some? && FksOk(schema, Deletion(schema, db, relations, id).value)
  {
    CoveredDeletion(schema, db, relations, id);
    var after := Deletion(schema, db, relations, id).value;
    forall fk | fk in schema.foreignKeys ensures FkOk(after, fk.relation) {
      var t, c := fk.relation.table, fk.relation.column;
      assert FkOk(db, fk.relation);
      var i :| 0 <= i < |relations| && relations[i] == fk.relation;
      forall row | row in Rows(after, t) && c in row ensures IsAsset(after, row[c]) {
        assert relations[i].table == t && (Refers(row, relations[i].column, id) <==> row[c] == id);
        var a :| a in Rows(db, ASSET) && Refers(a, ID, row[c]);
        assert a in Rows(after, ASSET);
      }
    }
  }

  // ----- what is captured -----

  predicate Apart(a: Record, b: Record) {
    a.table == b.table ==> a.rows !! b.rows
  }

  /** No row is in two of the records. */
  ghost predicate Pairwise(recs: seq<Record>) {
    forall i, j :: 0 <= i < j < |recs| ==> Apart(recs[i], recs[j])
  }

  lemma PairwiseOneMore(recs: seq<Record>, r: Record)
    ensures Pairwise(recs + [r]) <==> Pairwise(recs) && forall x :: x in recs ==> Apart(x, r)
  {
    var more := recs + [r];
    if Pairwise(more) {
      forall i, j | 0 <= i < j < |recs| ensures Apart(recs[i], recs[j]) { assert Apart(more[i], more[j]); }
      forall x | x in recs ensures Apart(x, r) {
        var i :| 0 <= i < |recs| && recs[i] == x;
        assert Apart(more[i], more[|recs|]);
      }
    }
  }

  /** Pairwise, said without positions. */
  ghost predicate PairwiseBag(m: multiset<Record>) {
    forall a, b :: a in m && b in m && (a != b || m[a] >= 2) ==> Apart(a, b)
  }

  lemma BagOneMore(m: multiset<Record>, x: Record)
    ensures PairwiseBag(m + multiset{x}) <==> PairwiseBag(m) && forall a :: a in m ==> Apart(a, x)
  {
    var more := m + multiset{x};
    if PairwiseBag(more) {
      forall a, b | a in m && b in m && (a != b || m[a] >= 2) ensures Apart(a, b) {
        assert a in more && b in more && (a != b || more[a] >= 2);
      }
      forall a | a in m ensures Apart(a, x) { assert a in more && x in more && (a != x || more[a] >= 2); }
    }
    if PairwiseBag(m) && forall a :: a in m ==> Apart(a, x) {
      forall a, b | a in more && b in more && (a != b || more[a] >= 2) ensures Apart(a, b) {
        assert a != x ==> a in m && more[a] == m[a];
        assert b != x ==> b in m;
        assert a == b == x ==> x in m;
      }
    }
  }

  lemma {:induction false} PairwiseIsBag(recs: seq<Record>)
    ensures Pairwise(recs) <==> PairwiseBag(multiset(recs))
  {
    if recs != [] {
      var init, last := recs[..|recs| - 1], recs[|recs| - 1];
      assert recs == init + [last];
      PairwiseIsBag(init);
      PairwiseOneMore(init, last);
      BagOneMore(multiset(init), last);
      assert forall x :: x in init <==> x in multiset(init);
    }
  }

  lemma {:induction false} CaptureHas(db: Tables, relations: seq<Relation>, id: string, rec: Record)
    ensures rec in CaptureRelations(db, relations, id) <==> exists i :: CapturedAt(db, relations, id, rec, i)
  {
    if relations != [] {
      var n := |relations| - 1;
      CaptureHas(db, relations[..n], id, rec);
      if i :| CapturedAt(db, relations, id, rec, i) {
        if i < n { assert CapturedAt(db, relations[..n], id, rec, i); }
      }
      if i :| CapturedAt(db, relations[..n], id, rec, i) { assert CapturedAt(db, relations, id, rec, i); }
      if rec in RecordOf(relations[n].table, Referring(db, relations[n], id)) { assert CapturedAt(db, relations, id, rec, n); }
    }
  }

  predicate CapturedAt(db: Tables, relations: seq<Relation>, id: string, rec: Record, i: int) {
    && 0 <= i < |relations| && Referring(db, relations[i], id) != {}
    && rec == Record(relations[i].table, Referring(db, relations[i], id))
  }

  /** No row that refers to the asset through r does so through an earlier relation of that table. */
  ghost predicate NotMet(db: Tables, relations: seq<Relation>, r: Relation, id: string) {
    forall i :: 0 <= i < |relations| && relations[i].table == r.table ==>
      Referring(db, relations[i], id) !! Referring(db, r, id)
  }

  lemma OnceOneMore(db: Tables, relations: seq<Relation>, r: Relation, id: string)
    ensures Once(db, relations + [r], id) <==> Once(db, relations, id) && NotMet(db, relations, r, id)
  {
    var more := relations + [r];
    assert more[|relations|] == r;
    assert forall i :: 0 <= i < |relations| ==> more[i] == relations[i];
  }

  lemma {:induction false} CapturedApartIff(db: Tables, relations: seq<Relation>, id: string)
    ensures Pairwise(CaptureRelations(db, relations, id)) <==> Once(db, relations, id)
  {
    if relations != [] {
      var init, last := relations[..|relations| - 1], relations[|relations| - 1];
      assert relations == init + [last];
      var before, rows := CaptureRelations(db, init, id), Referring(db, last, id);
      CapturedApartIff(db, init, id);
      OnceOneMore(db, init, last, id);
      ApartFromLastIff(db, init, last, id);
      if rows != {} { PairwiseOneMore(before, Record(last.table, rows)); } else { assert before + [] == before; }
    }
  }

  lemma ApartFromLastIff(db: Tables, init: seq<Relation>, last: Relation, id: string)
    ensures var r := Record(last.table, Referring(db, last, id));
      (forall x :: x in CaptureRelations(db, init, id) ==> Apart(x, r)) <==> NotMet(db, init, last, id)
  {
    var before, r := CaptureRelations(db, init, id), Record(last.table, Referring(db, last, id));
    if forall x :: x in before ==> Apart(x, r) {
      forall i | 0 <= i < |init| && init[i].table == last.table ensures Referring(db, init[i], id) !! r.rows {
        var x := Record(init[i].table, Referring(db, init[i], id));
        if x.rows != {} {
          assert CapturedAt(db, init, id, x, i);
          CaptureHas(db, init, id, x);
        }
      }
    }
    if NotMet(db, init, last, id) {
      forall x | x in before ensures Apart(x, r) {
        CaptureHas(db, init, id, x);
        var i :| CapturedAt(db, init, id, x, i);
      }
    }
  }

  /** All rows of the records of one table. */
  function RowsIn(recs: seq<Record>, t: TableName): set<Row> {
    set i, row | 0 <= i < |recs| && recs[i].table == t && row in recs[i].rows :: row
  }

  lemma RowsInIs(recs: seq<Record>, t: TableName, row: Row)
    ensures row in RowsIn(recs, t) <==> exists r :: r in recs && r.table == t && row in r.rows
  {
    if r :| r in recs && r.table == t && row in r.rows {
      var i :| 0 <= i < |recs| && recs[i] == r;
    }
  }

  /** The captured rows are exactly the rows that the deletion takes. */
  lemma CapturedIsTaken(db: Tables, relations: seq<Relation>, id: string, t: TableName)
    requires forall r :: r in relations ==> r.table != ASSET
    ensures RowsIn(Capture(db, relations, id), t) == Taken(db, relations, t, id)
  {
    var recs := Capture(db, relations, id);
    forall row ensures row in RowsIn(recs, t) <==> row in Taken(db, relations, t, id) {
      RowsInIs(recs, t, row);
      RowCapturedIff(db, relations, id, t, row);
    }
  }

  lemma RowCapturedIff(db: Tables, relations: seq<Relation>, id: string, t: TableName, row: Row)
    requires forall r :: r in relations ==> r.table != ASSET
    ensures (exists r :: r in Capture(db, relations, id) && r.table == t && row in r.rows)
       <==> row in Taken(db, relations, t, id)
  {
    var own, children := RecordOf(ASSET, Only(Rows(db, ASSET), ID, id)), CaptureRelations(db, relations, id);
    if r :| r in Capture(db, relations, id) && r.table == t && row in r.rows {
      CaptureHas(db, relations, id, r);
      if r in children {
        var i :| CapturedAt(db, relations, id, r, i);
        assert relations[i] in relations;
        assert relations[i].table == t && Refers(row, relations[i].column, id);
      }
    }
    if row in Taken(db, relations, t, id) {
      if t == ASSET {
        assert Record(ASSET, Only(Rows(db, ASSET), ID, id)) in own;
      } else {
        var i :| 0 <= i < |relations| && relations[i].table == t && Refers(row, relations[i].column, id);
        var r := Record(t, Referring(db, relations[i], id));
        assert row in r.rows && CapturedAt(db, relations, id, r, i);
        CaptureHas(db, relations, id, r);
        assert r in children;
      }
    }
  }

  lemma {:induction false} CapturePairwiseIff(db: Tables, relations: seq<Relation>, id: string)
    requires forall r :: r in relations ==> r.table != ASSET
    ensures Pairwise(Capture(db, relations, id)) <==> Once(db, relations, id)
  {
    var own, children := RecordOf(ASSET, Only(Rows(db, ASSET), ID, id)), CaptureRelations(db, relations, id);
    CapturedApartIff(db, relations, id);
    forall r | r in children ensures r.table != ASSET {
      CaptureHas(db, relations, id, r);
      var i :| CapturedAt(db, relations, id, r, i);
      assert relations[i] in relations;
    }
    if own != [] { PairwiseOneFirst(own[0], children); } else { assert own + children == children; }
  }

  lemma PairwiseOneFirst(r: Record, recs: seq<Record>)
    requires forall x :: x in recs ==> Apart(r, x)
    ensures Pairwise([r] + recs) <==> Pairwise(recs)
  {
    var more := [r] + recs;
    assert forall i :: 0 <= i < |recs| ==> more[i + 1] == recs[i];
    if Pairwise(more) {
      forall i, j | 0 <= i < j < |recs| ensures Apart(recs[i], recs[j]) { assert Apart(more[i + 1], more[j + 1]); }
    }
    if Pairwise(recs) {
      forall i, j | 0 <= i < j < |more| ensures Apart(more[i], more[j]) {
        if i == 0 { assert more[j] in recs; } else { assert Apart(recs[i - 1], recs[j - 1]); }
      }
    }
  }
}
