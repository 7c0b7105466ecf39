/** Inserting captured rows again: when it succeeds, what it gives back, and what it never loses. */
module AssetRestoration {
  import opened Basics
  import opened Ordering
  import opened AssetRows
  import opened AssetRoundTrip

  // ----- records that complete a database -----

  /** The records hold exactly what the database lacks of a consistent target, the asset's row first. */
  ghost predicate Completes(schema: Schema, target: Tables, db: Tables, recs: seq<Record>) {
    && Consistent(schema, target) && FksOk(schema, db)
    && (forall fk :: fk in schema.foreignKeys ==> fk.relation.table != ASSET)
    && (forall t :: RowsIn(recs, t) <= Rows(target, t) && Rows(db, t) == Rows(target, t) - RowsIn(recs, t))
    && AssetFirst(recs)
  }

  ghost predicate AssetFirst(recs: seq<Record>) {
    && recs != [] && recs[0].table == ASSET
    && (forall i :: 0 < i < |recs| ==> recs[i].table != ASSET)
    && (forall i :: 0 <= i < |recs| ==> recs[i].rows != {})
  }

  lemma KeyOfSubset(schema: Schema, t: TableName, a: set<Row>, b: set<Row>)
    requires a <= b && KeyOk(schema, t, b)
    ensures KeyOk(schema, t, a)
  {
  }

  lemma RowsInOneMore(recs: seq<Record>, r: Record, t: TableName)
    ensures RowsIn(recs + [r], t) == RowsIn(recs, t) + if r.table == t then r.rows else {}
  {
    var more := recs + [r];
    assert more[|recs|] == r;
    forall row ensures row in RowsIn(more, t) <==> row in RowsIn(recs, t) + if r.table == t then r.rows else {} {
      RowsInIs(recs, t, row);
      RowsInIs(more, t, row);
      assert forall x :: x in more <==> x in recs || x == r;
    }
  }

  lemma RowsInPrefix(recs: seq<Record>, n: nat, t: TableName)
    requires n <= |recs|
    ensures RowsIn(recs[..n], t) <= RowsIn(recs, t)
    ensures AssetFirst(recs) && n > 0 ==> RowsIn(recs[..n], ASSET) == RowsIn(recs, ASSET)
  {
  }

  /** One insertion into a database that is part of the target. */
  lemma InsertOne(schema: Schema, target: Tables, db: Tables, rec: Record)
    requires Consistent(schema, target) && FksOk(schema, db)
    requires forall fk :: fk in schema.foreignKeys ==> fk.relation.table != ASSET
    requires forall t :: Rows(db, t) <= Rows(target, t)
    requires rec.rows <= Rows(target, rec.table) && Rows(db, rec.table) !! rec.rows
    requires rec.table != ASSET ==> Rows(db, ASSET) == Rows(target, ASSET)
    ensures var after := InsertRows(schema, db, rec);
      && after == Some(db[rec.table := Rows(db, rec.table) + rec.rows]) && FksOk(schema, after.value)
  {
    var after := db[rec.table := Rows(db, rec.table) + rec.rows];
    KeyOfSubset(schema, rec.table, Rows(after, rec.table), Rows(target, rec.table));
    forall fk | fk in schema.foreignKeys ensures FkOk(after, fk.relation) {
      var r := fk.relation;
      assert FkOk(target, r) && FkOk(db, r);
      forall row | row in Rows(after, r.table) && r.column in row ensures IsAsset(after, row[r.column]) {
        if r.table == rec.table {
          assert IsAsset(target, row[r.column]);
        } else {
          assert IsAsset(db, row[r.column]);
        }
      }
    }
  }

  /** The state after the insertion of some records: they are there, and every foreign key holds. */
  ghost predicate Inserted(schema: Schema, db: Tables, recs: seq<Record>, after: Tables) {
    FksOk(schema, after) && forall t :: Rows(after, t) == Rows(db, t) + RowsIn(recs, t)
  }

  lemma InsertNext(schema: Schema, target: Tables, db: Tables, recs: seq<Record>, n: nat, before: Tables)
    returns (after: Tables)
    requires Completes(schema, target, db, recs) && Pairwise(recs) && n < |recs|
    requires Inserted(schema, db, recs[..n], before)
    ensures recs[n].rows != {} && InsertRows(schema, before, recs[n]) == Some(after)
    ensures Inserted(schema, db, recs[..n] + [recs[n]], after)
  {
    var rec := recs[n];
    forall t ensures Rows(before, t) <= Rows(target, t) { RowsInPrefix(recs, n, t); }
    NotYetInserted(db, recs, n);
    RowsInPrefix(recs, n, ASSET);
    assert rec.rows <= RowsIn(recs, rec.table);
    InsertOne(schema, target, before, rec);
    after := before[rec.table := Rows(before, rec.table) + rec.rows];
    forall t ensures Rows(after, t) == Rows(db, t) + RowsIn(recs[..n] + [rec], t) { RowsInOneMore(recs[..n], rec, t); }
  }

  lemma NothingInserted(schema: Schema, db: Tables)
    requires FksOk(schema, db)
    ensures Inserted(schema, db, [], db)
  {
    assert forall t :: RowsIn([], t) == {};
  }

  lemma InsertedOneMore(schema: Schema, db: Tables, recs: seq<Record>, r: Record, before: Tables, after: Tables)
    requires InsertAll(schema, db, recs) == Some(before) && r.rows != {} && InsertRows(schema, before, r) == Some(after)
    ensures InsertAll(schema, db, recs + [r]) == Some(after)
  {
    InsertAllStep(schema, db, recs + [r], |recs|);
    assert (recs + [r])[..|recs|] == recs && (recs + [r])[..|recs| + 1] == recs + [r];
  }

  /** After every statement of the restoration the inserted rows are there and every foreign key holds. */
  lemma {:induction false} InsertPrefix(schema: Schema, target: Tables, db: Tables, recs: seq<Record>, n: nat)
    returns (after: Tables)
    requires Completes(schema, target, db, recs) && Pairwise(recs) && n <= |recs|
    ensures InsertAll(schema, db, recs[..n]) == Some(after) && Inserted(schema, db, recs[..n], after)
  {
    if n == 0 {
      NothingInserted(schema, db);
      after := db;
      assert recs[..0] == [];
    } else {
      var before := InsertPrefix(schema, target, db, recs, n - 1);
      after := InsertNext(schema, target, db, recs, n - 1, before);
      InsertedOneMore(schema, db, recs[..n - 1], recs[n - 1], before, after);
      TakeOneMore(recs, n - 1);
    }
  }

  lemma NotYetInserted(db: Tables, recs: seq<Record>, n: nat)
    requires n < |recs| && Pairwise(recs)
    requires Rows(db, recs[n].table) !! RowsIn(recs, recs[n].table)
    ensures Rows(db, recs[n].table) + RowsIn(recs[..n], recs[n].table) !! recs[n].rows
  {
    forall row | row in recs[n].rows ensures row in RowsIn(recs, recs[n].table) && row !in RowsIn(recs[..n], recs[n].table) {
      forall i | 0 <= i < n && recs[i].table == recs[n].table ensures row !in recs[i].rows {
        assert Apart(recs[i], recs[n]);
      }
    }
  }

  /** What was inserted stays while the rest is inserted. */
  lemma {:induction false} InsertedStay(schema: Schema, db: Tables, recs: seq<Record>, i: nat)
    requires i < |recs| && InsertAll(schema, db, recs).Some?
    ensures recs[i].rows <= Rows(InsertAll(schema, db, recs).value, recs[i].table)
  {
    if i < |recs| - 1 { InsertedStay(schema, db, recs[..|recs| - 1], i); }
  }

  lemma ConflictFails(schema: Schema, db: Tables, recs: seq<Record>, i: nat, r: Record)
    requires i < |recs| && !Apart(recs[i], r)
    ensures InsertAll(schema, db, recs + [r]).None?
  {
    if InsertAll(schema, db, recs).Some? { InsertedStay(schema, db, recs, i); }
    InsertAllStep(schema, db, recs + [r], |recs|);
    assert (recs + [r])[..|recs|] == recs && (recs + [r])[..|recs| + 1] == recs + [r];
  }

  /** Records that share a row cannot both be inserted. */
  lemma SharedRowFails(schema: Schema, db: Tables, recs: seq<Record>)
    requires !Pairwise(recs)
    ensures InsertAll(schema, db, recs).None?
  {
    var i, j :| 0 <= i < j < |recs| && !Apart(recs[i], recs[j]);
    ConflictFails(schema, db, recs[..j], i, recs[j]);
    TakeOneMore(recs, j);
    InsertAllFailsEarly(schema, db, recs, j + 1);
  }

  /** Records that complete a database restore the target exactly when no row is in two of them. */
  lemma CompletionIff(schema: Schema, target: Tables, db: Tables, recs: seq<Record>)
    requires Completes(schema, target, db, recs)
    ensures var after := InsertAll(schema, db, recs);
      (after.Some? <==> Pairwise(recs)) && (after.Some? ==> SameRows(after.value, target))
  {
    if Pairwise(recs) {
      var after := InsertPrefix(schema, target, db, recs, |recs|);
      assert recs[..|recs|] == recs;
    } else {
      SharedRowFails(schema, db, recs);
    }
  }

  // ----- the order of the restoration -----

  lemma SortedRecords(recs: seq<Record>)
    ensures multiset(Sort(RecordLe, recs)) == multiset(recs)
    ensures forall r :: r in Sort(RecordLe, recs) <==> r in recs
    ensures forall t :: RowsIn(Sort(RecordLe, recs), t) == RowsIn(recs, t)
    ensures Pairwise(Sort(RecordLe, recs)) <==> Pairwise(recs)
  {
    RecordOrder();
    SortIsSorted(RecordLe, recs);
    var sorted := Sort(RecordLe, recs);
    forall r ensures r in sorted <==> r in recs {
      assert r in recs <==> r in multiset(recs);
      assert r in sorted <==> r in multiset(sorted);
    }
    forall t, row ensures row in RowsIn(sorted, t) <==> row in RowsIn(recs, t) {
      RowsInIs(sorted, t, row);
      RowsInIs(recs, t, row);
    }
    PairwiseIsBag(sorted);
    PairwiseIsBag(recs);
  }

  lemma OwnIsFirst(own: Record, sorted: seq<Record>)
    requires own in sorted && own.table == ASSET && Sorted(RecordLe, sorted)
    requires forall r :: r in sorted && r.table == ASSET ==> r == own
    ensures sorted[0] == own
  {
    var i :| 0 <= i < |sorted| && sorted[i] == own;
    assert i > 0 ==> RecordLe(sorted[0], sorted[i]);
    assert sorted[0] in sorted;
  }

  lemma RestAreChildren(own: Record, children: seq<Record>, sorted: seq<Record>, j: nat)
    requires sorted != [] && sorted[0] == own && multiset(sorted) == multiset([own] + children) && 0 < j < |sorted|
    ensures sorted[j] in children
  {
    assert sorted == [own] + sorted[1..];
    assert multiset(sorted) == multiset{own} + multiset(sorted[1..]);
    assert multiset([own] + children) == multiset{own} + multiset(children);
    assert multiset(sorted[1..]) == multiset(sorted) - multiset{own} == multiset(children);
    assert sorted[1..][j - 1] == sorted[j];
    assert sorted[j] in multiset(children);
  }

  lemma AssetComesFirst(own: Record, children: seq<Record>)
    requires own.table == ASSET && own.rows != {}
    requires forall r :: r in children ==> r.table != ASSET && r.rows != {}
    ensures AssetFirst(Sort(RecordLe, [own] + children))
  {
    var recs := [own] + children;
    var sorted := Sort(RecordLe, recs);
    SortedRecords(recs);
    RecordOrder();
    SortIsSorted(RecordLe, recs);
    assert recs[0] == own;
    OwnIsFirst(own, sorted);
    forall j | 0 < j < |sorted| ensures sorted[j] in children { RestAreChildren(own, children, sorted, j); }
  }

  // ----- the round trip -----

  lemma CapturedShape(db: Tables, relations: seq<Relation>, id: string)
    requires forall r :: r in relations ==> r.table != ASSET
    requires IsAsset(db, id)
    ensures AssetFirst(Sort(RecordLe, Capture(db, relations, id)))
  {
    var own, children := Record(ASSET, Only(Rows(db, ASSET), ID, id)), CaptureRelations(db, relations, id);
    var a :| a in Rows(db, ASSET) && Refers(a, ID, id);
    assert a in own.rows;
    forall r | r in children ensures r.table != ASSET && r.rows != {} {
      CaptureHas(db, relations, id, r);
      var i :| CapturedAt(db, relations, id, r, i);
      assert relations[i] in relations;
    }
    AssetComesFirst(own, children);
  }

  lemma CapturedCompletes(schema: Schema, db: Tables, relations: seq<Relation>, id: string)
    requires Consistent(schema, db) && Covered(schema, relations) && IsAsset(db, id)
    ensures Deletion(schema, db, relations, id).Some?
    ensures Completes(schema, db, Deletion(schema, db, relations, id).value, Sort(RecordLe, Capture(db, relations, id)))
  {
    var recs := Capture(db, relations, id);
    CoveredDeletion(schema, db, relations, id);
    DeletionKeepsForeignKeys(schema, db, relations, id);
    CapturedShape(db, relations, id);
    SortedRecords(recs);
    forall t ensures RowsIn(recs, t) == Taken(db, relations, t, id) { CapturedIsTaken(db, relations, id, t); }
    forall fk | fk in schema.foreignKeys ensures fk.relation.table != ASSET { assert fk.relation in relations; }
  }

  /** Capture, delete and restore give back every row of every table if and only if no row refers to
      the asset through two relations of one table; otherwise the restoration always fails. */
  lemma RoundTripIff(schema: Schema, db: Tables, relations: seq<Relation>, id: string)
    requires Consistent(schema, db) && Covered(schema, relations) && IsAsset(db, id)
    ensures Deletion(schema, db, relations, id).Some?
    ensures var back := Insertion(schema, Deletion(schema, db, relations, id).value, Capture(db, relations, id));
      (back.Some? <==> Once(db, relations, id)) && (back.Some? ==> SameRows(back.value, db))
  {
    var recs := Capture(db, relations, id);
    CapturedCompletes(schema, db, relations, id);
    SortedRecords(recs);
    CapturePairwiseIff(db, relations, id);
    CompletionIff(schema, db, Deletion(schema, db, relations, id).value, Sort(RecordLe, recs));
  }

  /** If every table is related through one column only, the condition holds for every asset. */
  lemma OneRelationPerTable(db: Tables, relations: seq<Relation>, id: string)
    requires forall i, j :: 0 <= i < j < |relations| ==> relations[i].table != relations[j].table
    ensures Once(db, relations, id)
  {
  }

  /** What the deletion reports is what was captured before it. */
  lemma {:induction false} DeletedIsCaptured(db: Tables, relations: seq<Relation>, id: string)
    requires Once(db, relations, id)
    ensures DeletedRecords(db, relations, id) == CaptureRelations(db, relations, id)
  {
    if relations != [] {
      var init, last := relations[..|relations| - 1], relations[|relations| - 1];
      assert relations == init + [last];
      OnceOneMore(db, init, last, id);
      DeletedIsCaptured(db, init, id);
      DeletedRows(db, init, id, last.table);
      assert Referring(DeleteRelations(db, init, id), last, id) == Referring(db, last, id) by {
        forall row | row in Referring(db, last, id) ensures !RefersThrough(init, last.table, row, id) {
          forall i | 0 <= i < |init| && init[i].table == last.table ensures !Refers(row, init[i].column, id) {
            assert row in Referring(db, init[i], id) <==> Refers(row, init[i].column, id);
          }
        }
      }
    }
  }

  // ----- what an incomplete list of relations loses -----

  /** The deletion takes no row that was not captured exactly when everything that cascades is
      related: the row-level meaning of a covered schema. */
  ghost predicate CascadesRelated(schema: Schema, db: Tables, relations: seq<Relation>, id: string) {
    forall t, row :: row in Rows(db, t) && CascadesTo(schema, t, row, id) ==> row in Taken(db, relations, t, id)
  }

  lemma NothingUncapturedIff(schema: Schema, db: Tables, relations: seq<Relation>, id: string)
    requires forall r :: r in relations ==> r.table != ASSET
    requires Deletion(schema, db, relations, id).Some?
    ensures (forall t, row :: row in Rows(db, t) ==>
                 row in Rows(Deletion(schema, db, relations, id).value, t) || row in RowsIn(Capture(db, relations, id), t))
       <==> CascadesRelated(schema, db, relations, id)
  {
    var after := Deletion(schema, db, relations, id).value;
    AssetStays(db, relations, id);
    forall t, row | row in Rows(db, t)
      ensures row in RowsIn(Capture(db, relations, id), t) <==> row in Taken(db, relations, t, id)
      ensures row in Rows(after, t) <==> row !in Taken(db, relations, t, id) && !CascadesTo(schema, t, row, id)
    {
      CapturedIsTaken(db, relations, id, t);
      DeletedRows(db, relations, id, t);
      NoneThroughAsset(relations, row, id);
    }
  }

  lemma NoneThroughAsset(relations: seq<Relation>, row: Row, id: string)
    requires forall r :: r in relations ==> r.table != ASSET
    ensures !RefersThrough(relations, ASSET, row, id)
  {
    forall i | 0 <= i < |relations| ensures relations[i].table != ASSET { assert relations[i] in relations; }
  }
}
