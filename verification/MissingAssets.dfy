/** Removing missing assets and restoring them: capture, restore point, deletion and
    re-insertion, one by one and in batches, with a failure at any database call. */
module MissingAssets {
  import opened Basics
  import Ordering
  import opened AssetRows
  import opened AssetRoundTrip
  import opened AssetRestoration
  import opened RepairRuns
  import opened RestorePoints

  datatype World = World(db: Tables, points: Points)

  /** What the scan before the run says about a selected asset. */
  datatype Finding = NotInScan | NotReady | Ready

  datatype ItemStatus = AlreadyRemoved | Skipped | Applied | ItemRestored | ItemFailed

  /** One selected asset, the id its restore point would get, and where its deletion fails. */
  datatype Job = Job(asset: string, finding: Finding, point: PointId, now: nat, fault: Fault)

  // ----- one asset, one point -----

  function PointOf(db: Tables, relations: seq<Relation>, job: Job): RestorePoint {
    RestorePoint(job.point, job.asset, job.now, Available, Capture(db, relations, job.asset))
  }

  function ApplyStatus(schema: Schema, relations: seq<Relation>, w: World, job: Job): ItemStatus {
    if job.finding.NotInScan? then AlreadyRemoved
    else if job.finding.NotReady? then Skipped
    else if Capture(w.db, relations, job.asset) == [] then AlreadyRemoved
    else if DeletionHeard(schema, w.db, relations, job.asset, job.fault) then Applied
    else ItemFailed
  }

  predicate Attempts(relations: seq<Relation>, w: World, job: Job) {
    job.finding.Ready? && Capture(w.db, relations, job.asset) != []
  }

  /** The point is written before the deletion and deleted again when the deletion raises. */
  function AfterApply(schema: Schema, relations: seq<Relation>, w: World, job: Job): World {
    if !Attempts(relations, w, job) then w
    else
      var created := Create(w.points, PointOf(w.db, relations, job));
      World(AfterDeletion(schema, w.db, relations, job.asset, job.fault),
            if ApplyStatus(schema, relations, w, job).Applied? then created else Delete(created, {job.point}))
  }

  function RestoreStatus(schema: Schema, w: World, point: RestorePoint, fault: Fault): ItemStatus {
    if point.status.Restored? then Skipped
    else if InsertionHeard(schema, w.db, point.records, fault) then ItemRestored
    else ItemFailed
  }

  function AfterRestore(schema: Schema, w: World, point: RestorePoint, fault: Fault): World {
    if point.status.Restored? then w
    else World(
      AfterInsertion(schema, w.db, point.records, fault),
      if RestoreStatus(schema, w, point, fault).ItemRestored? then Create(w.points, point.(status := PointStatus.Restored))
      else w.points)
  }

  class MissingAssetService {
    const postgres: PostgresAdapter
    const store: RestorePointStore

    constructor (postgres: PostgresAdapter, store: RestorePointStore)
      ensures this.postgres == postgres && this.store == store
    {
      this.postgres, this.store := postgres, store;
    }

    function State(): World
      reads this, postgres, store
    {
      World(postgres.tables, store.State())
    }

    method ApplySingleAsset(relations: seq<Relation>, job: Job) returns (status: ItemStatus)
      requires store.Valid()
      modifies postgres, store
      ensures store.Valid()
      ensures State() == AfterApply(postgres.schema, relations, old(State()), job)
      ensures status == ApplyStatus(postgres.schema, relations, old(State()), job)
    {
      if job.finding.NotInScan? {
        return AlreadyRemoved;
      }
      if job.finding.NotReady? {
        return Skipped;
      }
      var captured := postgres.CaptureRecords(relations, job.asset);
      if captured == [] {
        return AlreadyRemoved;
      }
      var removed := RemoveUnderPoint(relations, job, RestorePoint(job.point, job.asset, job.now, Available, captured));
      return if removed then Applied else ItemFailed;
    }

    /** Write the point, delete the rows, and take the point back if the deletion raises. */
    method RemoveUnderPoint(relations: seq<Relation>, job: Job, point: RestorePoint) returns (removed: bool)
      requires store.Valid() && point.id == job.point
      modifies postgres, store
      ensures store.Valid()
      ensures removed == DeletionHeard(postgres.schema, old(postgres.tables), relations, job.asset, job.fault)
      ensures postgres.tables == AfterDeletion(postgres.schema, old(postgres.tables), relations, job.asset, job.fault)
      ensures store.State() == var created := Create(old(store.State()), point);
        if removed then created else Delete(created, {job.point})
    {
      store.CreatePoint(point);
      var deleted := postgres.DeleteAssetReferenceRecords(relations, job.asset, job.fault);
      removed := deleted.Ok?;
      if !removed {
        var _ := store.DeletePoints({job.point});
      }
    }

    method RestoreSinglePoint(point: RestorePoint, fault: Fault) returns (status: ItemStatus)
      requires store.Valid()
      modifies postgres, store
      ensures store.Valid()
      ensures State() == AfterRestore(postgres.schema, old(State()), point, fault)
      ensures status == RestoreStatus(postgres.schema, old(State()), point, fault)
    {
      if point.status.Restored? {
        return Skipped;
      }
      var inserted := postgres.RestoreAssetReferenceRecords(point.records, fault);
      if inserted.Failed? {
        return ItemFailed;
      }
      store.UpdatePoint(point.(status := PointStatus.Restored));
      return ItemRestored;
    }

    /** Delete the given restore points, or all that are listed; what they hold is not looked at. */
    method DeleteRestorePoints(ids: set<PointId>, all: bool) returns (deleted: seq<PointId>)
      requires store.Valid()
      modifies store
      ensures store.Valid()
      ensures State() == World(old(postgres.tables), Delete(old(store.State()), if all then Ids(old(store.index)) else ids))
      ensures forall id :: id in deleted <==> id in old(store.files) && (all || id in ids)
    {
      var points := store.ListPoints();
      IdsAreFiles(store.State());
      ListedIsIndex(store.State());
      assert Ids(points) == Ids(store.index);
      deleted := store.DeletePoints(if all then Ids(points) else ids);
    }
  }

  // ----- constraints hold after every call -----

  lemma DeletionShrinks(schema: Schema, db: Tables, relations: seq<Relation>, id: string)
    requires Covered(schema, relations) && Consistent(schema, db) && Deletion(schema, db, relations, id).Some?
    ensures Consistent(schema, Deletion(schema, db, relations, id).value)
    ensures forall t :: Rows(Deletion(schema, db, relations, id).value, t) <= Rows(db, t)
    ensures !IsAsset(Deletion(schema, db, relations, id).value, id)
  {
    var after := Deletion(schema, db, relations, id).value;
    CoveredDeletion(schema, db, relations, id);
    DeletionKeepsForeignKeys(schema, db, relations, id);
    forall t ensures KeyOk(schema, t, Rows(after, t)) { KeyOfSubset(schema, t, Rows(after, t), Rows(db, t)); }
    assert Rows(after, ASSET) == Rows(db, ASSET) - Only(Rows(db, ASSET), ID, id);
  }

  lemma InsertKeepsConsistent(schema: Schema, db: Tables, rec: Record)
    requires Consistent(schema, db) && InsertRows(schema, db, rec).Some?
    ensures Consistent(schema, InsertRows(schema, db, rec).value)
    ensures forall t :: Rows(db, t) <= Rows(InsertRows(schema, db, rec).value, t)
  {
    var after := InsertRows(schema, db, rec).value;
    forall t ensures KeyOk(schema, t, Rows(after, t)) { assert KeyOk(schema, t, Rows(db, t)); }
    forall fk | fk in schema.foreignKeys && fk.relation.table != rec.table ensures FkOk(after, fk.relation) {
      assert FkOk(db, fk.relation);
      forall row | row in Rows(after, fk.relation.table) && fk.relation.column in row
        ensures IsAsset(after, row[fk.relation.column])
      {
        assert IsAsset(db, row[fk.relation.column]);
      }
    }
  }

  lemma {:induction false} InsertAllGrows(schema: Schema, db: Tables, recs: seq<Record>)
    requires Consistent(schema, db) && InsertAll(schema, db, recs).Some?
    ensures Consistent(schema, InsertAll(schema, db, recs).value)
    ensures forall t :: Rows(db, t) <= Rows(InsertAll(schema, db, recs).value, t)
  {
    if recs != [] {
      var n := |recs| - 1;
      InsertAllGrows(schema, db, recs[..n]);
      if recs[n].rows != {} { InsertKeepsConsistent(schema, InsertAll(schema, db, recs[..n]).value, recs[n]); }
    }
  }

  lemma InsertionGrows(schema: Schema, db: Tables, recs: seq<Record>)
    requires Consistent(schema, db) && Insertion(schema, db, recs).Some?
    ensures Consistent(schema, Insertion(schema, db, recs).value)
    ensures forall t :: Rows(db, t) + RowsIn(recs, t) <= Rows(Insertion(schema, db, recs).value, t)
  {
    var sorted := Ordering.Sort(RecordLe, recs);
    var after := Insertion(schema, db, recs).value;
    InsertAllGrows(schema, db, sorted);
    SortedRecords(recs);
    forall t, row | row in RowsIn(recs, t) ensures row in Rows(after, t) {
      var i :| 0 <= i < |sorted| && sorted[i].table == t && row in sorted[i].rows;
      InsertedStay(schema, db, sorted, i);
    }
  }

  // ----- no loss -----

  predicate InPoint(points: Points, t: TableName, row: Row) {
    exists p :: p in points.index && p.status.Available? && row in RowsIn(p.records, t)
  }

  /** A row is safe while it is in the database or in a restore point that can still be restored. */
  predicate IsSafe(w: World, t: TableName, row: Row) {
    row in Rows(w.db, t) || InPoint(w.points, t, row)
  }

  ghost predicate KeepsAllRows(w: World, w': World) {
    forall t, row :: IsSafe(w, t, row) ==> IsSafe(w', t, row)
  }

  ghost predicate WorldOk(schema: Schema, w: World) {
    Consistent(schema, w.db) && Agree(w.points)
  }

  /** The commit took effect and the caller was told that it failed. */
  predicate LosesAcknowledgement(schema: Schema, relations: seq<Relation>, w: World, job: Job) {
    Attempts(relations, w, job) && job.fault.AcknowledgementLost? && Deletion(schema, w.db, relations, job.asset).Some?
  }

  /** Everything the deletion takes is also in an older restore point that is still available. */
  ghost predicate BackedUp(relations: seq<Relation>, w: World, job: Job) {
    forall t, row :: row in Taken(w.db, relations, t, job.asset) ==> InPoint(w.points, t, row)
  }

  lemma ApplyKeepsWorldOk(schema: Schema, relations: seq<Relation>, w: World, job: Job)
    requires WorldOk(schema, w) && Covered(schema, relations)
    ensures WorldOk(schema, AfterApply(schema, relations, w, job))
  {
    if Attempts(relations, w, job) {
      var point := PointOf(w.db, relations, job);
      CreateKeepsAgreement(w.points, point);
      DeleteKeepsAgreement(Create(w.points, point), {job.point});
      if Deletion(schema, w.db, relations, job.asset).Some? { DeletionShrinks(schema, w.db, relations, job.asset); }
    }
  }

  lemma AppliedIsInPoint(schema: Schema, relations: seq<Relation>, w: World, job: Job, t: TableName, row: Row)
    requires WorldOk(schema, w) && Covered(schema, relations) && job.point !in w.points.files
    requires ApplyStatus(schema, relations, w, job).Applied?
    ensures row in Rows(w.db, t) ==> IsSafe(AfterApply(schema, relations, w, job), t, row)
    ensures InPoint(w.points, t, row) ==> InPoint(AfterApply(schema, relations, w, job).points, t, row)
  {
    var point, w' := PointOf(w.db, relations, job), AfterApply(schema, relations, w, job);
    CreateKeepsAgreement(w.points, point);
    CoveredDeletion(schema, w.db, relations, job.asset);
    CapturedIsTaken(w.db, relations, job.asset, t);
    assert point in w'.points.index;
    if p :| p in w.points.index && p.status.Available? && row in RowsIn(p.records, t) {
      assert p.id in w.points.files;
      assert p in w'.points.index;
    }
  }

  lemma FailedLeavesPoints(schema: Schema, relations: seq<Relation>, w: World, job: Job)
    requires WorldOk(schema, w) && job.point !in w.points.files && !ApplyStatus(schema, relations, w, job).Applied?
    ensures forall x :: x in AfterApply(schema, relations, w, job).points.index <==> x in w.points.index
  {
    if Attempts(relations, w, job) { CreateThenDelete(w.points, PointOf(w.db, relations, job)); }
  }

  lemma SamePointsSameRows(a: Points, b: Points, t: TableName, row: Row)
    requires forall x :: x in a.index <==> x in b.index
    ensures InPoint(a, t, row) <==> InPoint(b, t, row)
  {
  }

  lemma LostRowsAreOnlyInPoints(schema: Schema, relations: seq<Relation>, w: World, job: Job, t: TableName, row: Row)
    requires WorldOk(schema, w) && Covered(schema, relations) && job.point !in w.points.files
    requires LosesAcknowledgement(schema, relations, w, job)
    ensures var w' := AfterApply(schema, relations, w, job);
      && (row in Taken(w.db, relations, t, job.asset) ==>
            IsSafe(w, t, row) && (IsSafe(w', t, row) <==> InPoint(w.points, t, row)))
      && (row !in Taken(w.db, relations, t, job.asset) ==> (IsSafe(w, t, row) <==> IsSafe(w', t, row)))
  {
    FailedLeavesPoints(schema, relations, w, job);
    SamePointsSameRows(w.points, AfterApply(schema, relations, w, job).points, t, row);
    CoveredDeletion(schema, w.db, relations, job.asset);
  }

  lemma LostAcknowledgementKeepsRowsIff(schema: Schema, relations: seq<Relation>, w: World, job: Job)
    requires WorldOk(schema, w) && Covered(schema, relations) && job.point !in w.points.files
    requires LosesAcknowledgement(schema, relations, w, job)
    ensures KeepsAllRows(w, AfterApply(schema, relations, w, job)) <==> BackedUp(relations, w, job)
  {
    var w' := AfterApply(schema, relations, w, job);
    forall t, row
      ensures row in Taken(w.db, relations, t, job.asset) ==>
                IsSafe(w, t, row) && (IsSafe(w', t, row) <==> InPoint(w.points, t, row))
      ensures row !in Taken(w.db, relations, t, job.asset) ==> (IsSafe(w, t, row) <==> IsSafe(w', t, row))
    {
      LostRowsAreOnlyInPoints(schema, relations, w, job, t, row);
    }
  }

  lemma FailedKeepsRows(schema: Schema, relations: seq<Relation>, w: World, job: Job)
    requires WorldOk(schema, w) && job.point !in w.points.files
    requires !ApplyStatus(schema, relations, w, job).Applied? && !LosesAcknowledgement(schema, relations, w, job)
    ensures KeepsAllRows(w, AfterApply(schema, relations, w, job))
  {
    var w' := AfterApply(schema, relations, w, job);
    assert w'.db == w.db;
    FailedLeavesPoints(schema, relations, w, job);
    forall t, row ensures InPoint(w.points, t, row) <==> InPoint(w'.points, t, row) {
      SamePointsSameRows(w.points, w'.points, t, row);
    }
  }

  /** Applying to one asset keeps every safe row safe, unless the deletion commits and its
      acknowledgement is lost: then the restore point is deleted although the rows are gone. */
  lemma ApplyKeepsRowsIff(schema: Schema, relations: seq<Relation>, w: World, job: Job)
    requires WorldOk(schema, w) && Covered(schema, relations) && job.point !in w.points.files
    ensures KeepsAllRows(w, AfterApply(schema, relations, w, job)) <==>
            (LosesAcknowledgement(schema, relations, w, job) ==> BackedUp(relations, w, job))
  {
    if LosesAcknowledgement(schema, relations, w, job) {
      LostAcknowledgementKeepsRowsIff(schema, relations, w, job);
    } else if ApplyStatus(schema, relations, w, job).Applied? {
      forall t, row | IsSafe(w, t, row) ensures IsSafe(AfterApply(schema, relations, w, job), t, row) {
        AppliedIsInPoint(schema, relations, w, job, t, row);
      }
    } else {
      FailedKeepsRows(schema, relations, w, job);
    }
  }

  /** A point that stops being available has all its rows in the database. */
  lemma RestoredRowsAreBack(schema: Schema, w: World, point: RestorePoint, fault: Fault, t: TableName, row: Row)
    requires WorldOk(schema, w) && point in w.points.index && row in RowsIn(point.records, t)
    requires point.status.Available?
    ensures IsSafe(AfterRestore(schema, w, point, fault), t, row)
  {
    if Insertion(schema, w.db, point.records).Some? { InsertionGrows(schema, w.db, point.records); }
  }

  lemma RestoreKeepsWorldOk(schema: Schema, w: World, point: RestorePoint, fault: Fault)
    requires WorldOk(schema, w)
    ensures WorldOk(schema, AfterRestore(schema, w, point, fault))
    ensures forall t :: Rows(w.db, t) <= Rows(AfterRestore(schema, w, point, fault).db, t)
  {
    CreateKeepsAgreement(w.points, point.(status := PointStatus.Restored));
    if Insertion(schema, w.db, point.records).Some? { InsertionGrows(schema, w.db, point.records); }
  }

  /** Restoring a point never makes a row unsafe, whatever fails. */
  lemma RestoreKeepsRows(schema: Schema, w: World, point: RestorePoint, fault: Fault)
    requires WorldOk(schema, w) && point in w.points.index
    ensures WorldOk(schema, AfterRestore(schema, w, point, fault))
    ensures KeepsAllRows(w, AfterRestore(schema, w, point, fault))
  {
    var w' := AfterRestore(schema, w, point, fault);
    RestoreKeepsWorldOk(schema, w, point, fault);
    forall t, row | IsSafe(w, t, row) ensures IsSafe(w', t, row) {
      if row !in Rows(w.db, t) {
        var p :| p in w.points.index && p.status.Available? && row in RowsIn(p.records, t);
        if p == point {
          RestoredRowsAreBack(schema, w, point, fault, t, row);
        } else {
          PointSurvivesRestore(schema, w, point, fault, p);
        }
      }
    }
  }

  lemma PointSurvivesRestore(schema: Schema, w: World, point: RestorePoint, fault: Fault, p: RestorePoint)
    requires WorldOk(schema, w) && point in w.points.index && p in w.points.index && p != point
    ensures p in AfterRestore(schema, w, point, fault).points.index
  {
    CreateKeepsAgreement(w.points, point.(status := PointStatus.Restored));
    assert w.points.files[p.id] == p && w.points.files[point.id] == point;
  }

  // ----- apply and restore -----

  lemma AssetIsCaptured(db: Tables, relations: seq<Relation>, id: string)
    requires IsAsset(db, id)
    ensures Capture(db, relations, id) != []
  {
    var a :| a in Rows(db, ASSET) && Refers(a, ID, id);
    assert a in Only(Rows(db, ASSET), ID, id);
  }

  lemma UndisturbedApply(schema: Schema, relations: seq<Relation>, w: World, job: Job)
    requires job.finding.Ready? && job.fault.NoFault? && IsAsset(w.db, job.asset)
    requires Deletion(schema, w.db, relations, job.asset).Some?
    ensures ApplyStatus(schema, relations, w, job).Applied?
    ensures AfterApply(schema, relations, w, job)
         == World(Deletion(schema, w.db, relations, job.asset).value, Create(w.points, PointOf(w.db, relations, job)))
  {
    AssetIsCaptured(w.db, relations, job.asset);
  }

  /** An undisturbed apply removes the asset and leaves its restore point. */
  lemma ApplySucceeds(schema: Schema, relations: seq<Relation>, w: World, job: Job)
    requires WorldOk(schema, w) && Covered(schema, relations)
    requires job.finding.Ready? && job.fault.NoFault? && IsAsset(w.db, job.asset)
    ensures var w1 := AfterApply(schema, relations, w, job);
      && ApplyStatus(schema, relations, w, job).Applied? && !IsAsset(w1.db, job.asset)
      && Some(w1.db) == Deletion(schema, w.db, relations, job.asset)
      && PointOf(w.db, relations, job) in w1.points.index
  {
    CoveredDeletion(schema, w.db, relations, job.asset);
    UndisturbedApply(schema, relations, w, job);
    DeletionShrinks(schema, w.db, relations, job.asset);
    CreateKeepsAgreement(w.points, PointOf(w.db, relations, job));
  }

  lemma UndisturbedRestore(schema: Schema, w: World, point: RestorePoint)
    requires point.status.Available?
    ensures var back, w' := Insertion(schema, w.db, point.records), AfterRestore(schema, w, point, NoFault);
      if back.Some? then w'.db == back.value else w' == w
  {
  }

  /** Applying and then restoring gives the database back, exactly when no row of the asset is
      captured twice; otherwise the restoration fails and the rows stay in the restore point. */
  lemma ApplyThenRestore(schema: Schema, relations: seq<Relation>, w: World, job: Job)
    requires WorldOk(schema, w) && Covered(schema, relations)
    requires job.finding.Ready? && job.fault.NoFault? && IsAsset(w.db, job.asset)
    ensures var w1 := AfterApply(schema, relations, w, job);
      var w2 := AfterRestore(schema, w1, PointOf(w.db, relations, job), NoFault);
      if Once(w.db, relations, job.asset) then SameRows(w2.db, w.db) else w2 == w1
  {
    var w1, point := AfterApply(schema, relations, w, job), PointOf(w.db, relations, job);
    RoundTripIff(schema, w.db, relations, job.asset);
    ApplySucceeds(schema, relations, w, job);
    UndisturbedRestore(schema, w1, point);
    assert Insertion(schema, w1.db, point.records)
        == Insertion(schema, Deletion(schema, w.db, relations, job.asset).value, Capture(w.db, relations, job.asset));
  }

  // ----- a batch and its status -----

  function ApplyBatch(schema: Schema, relations: seq<Relation>, w: World, jobs: seq<Job>): World {
    if jobs == [] then w
    else AfterApply(schema, relations, ApplyBatch(schema, relations, w, jobs[..|jobs| - 1]), jobs[|jobs| - 1])
  }

  function BatchItems(schema: Schema, relations: seq<Relation>, w: World, jobs: seq<Job>): (r: seq<ItemStatus>)
    ensures |r| == |jobs|
  {
    if jobs == [] then []
    else
      var init := jobs[..|jobs| - 1];
      BatchItems(schema, relations, w, init)
      + [ApplyStatus(schema, relations, ApplyBatch(schema, relations, w, init), jobs[|jobs| - 1])]
  }

  /** The loop over the selected assets. */
  method ApplyAll(service: MissingAssetService, relations: seq<Relation>, jobs: seq<Job>)
    returns (items: seq<ItemStatus>, status: RunStatus)
    requires service.store.Valid()
    modifies service.postgres, service.store
    ensures service.store.Valid()
    ensures service.State() == ApplyBatch(service.postgres.schema, relations, old(service.State()), jobs)
    ensures items == BatchItems(service.postgres.schema, relations, old(service.State()), jobs)
    ensures status == FinalStatus(items, ItemFailed, Applied)
  {
    items := [];
    for i := 0 to |jobs|
      invariant service.store.Valid()
      invariant service.State() == ApplyBatch(service.postgres.schema, relations, old(service.State()), jobs[..i])
      invariant items == BatchItems(service.postgres.schema, relations, old(service.State()), jobs[..i])
    {
      assert jobs[..i + 1][..i] == jobs[..i];
      var item := service.ApplySingleAsset(relations, jobs[i]);
      items := items + [item];
    }
    assert jobs[..|jobs|] == jobs;
    status := FinalStatus(items, ItemFailed, Applied);
  }

  lemma {:induction false} ApplyOnlyRemoves(schema: Schema, relations: seq<Relation>, w: World, job: Job)
    requires WorldOk(schema, w) && Covered(schema, relations)
    ensures forall t :: Rows(AfterApply(schema, relations, w, job).db, t) <= Rows(w.db, t)
    ensures ApplyStatus(schema, relations, w, job).Applied? ==> !IsAsset(AfterApply(schema, relations, w, job).db, job.asset)
    ensures job.finding.Ready? && ApplyStatus(schema, relations, w, job).AlreadyRemoved? ==> !IsAsset(w.db, job.asset)
  {
    if Deletion(schema, w.db, relations, job.asset).Some? { DeletionShrinks(schema, w.db, relations, job.asset); }
    if a :| a in Rows(w.db, ASSET) && Refers(a, ID, job.asset) {
      assert a in Only(Rows(w.db, ASSET), ID, job.asset);
      assert Capture(w.db, relations, job.asset) != [];
    }
  }

  lemma {:induction false} BatchRemoves(schema: Schema, relations: seq<Relation>, w: World, jobs: seq<Job>, i: nat)
    requires WorldOk(schema, w) && Covered(schema, relations) && i < |jobs|
    ensures WorldOk(schema, ApplyBatch(schema, relations, w, jobs))
    ensures jobs[i].finding.Ready? && !BatchItems(schema, relations, w, jobs)[i].ItemFailed? ==>
              !IsAsset(ApplyBatch(schema, relations, w, jobs).db, jobs[i].asset)
  {
    var n := |jobs| - 1;
    var before := ApplyBatch(schema, relations, w, jobs[..n]);
    if n > 0 { BatchRemoves(schema, relations, w, jobs[..n], if i < n then i else 0); }
    ApplyOnlyRemoves(schema, relations, before, jobs[n]);
    ApplyKeepsWorldOk(schema, relations, before, jobs[n]);
  }

  /** A run reported as completed has removed every selected asset that was ready. */
  lemma CompletedMeansRemoved(schema: Schema, relations: seq<Relation>, w: World, jobs: seq<Job>, i: nat)
    requires WorldOk(schema, w) && Covered(schema, relations) && i < |jobs| && jobs[i].finding.Ready?
    requires FinalStatus(BatchItems(schema, relations, w, jobs), ItemFailed, Applied).RunCompleted?
    ensures !IsAsset(ApplyBatch(schema, relations, w, jobs).db, jobs[i].asset)
  {
    BatchRemoves(schema, relations, w, jobs, i);
    assert BatchItems(schema, relations, w, jobs)[i] in BatchItems(schema, relations, w, jobs);
  }

  lemma UnappliedLeavesTables(schema: Schema, relations: seq<Relation>, w: World, job: Job)
    requires !ApplyStatus(schema, relations, w, job).Applied? && !job.fault.AcknowledgementLost?
    ensures AfterApply(schema, relations, w, job).db == w.db
  {
  }

  lemma BatchItemsSplit(schema: Schema, relations: seq<Relation>, w: World, jobs: seq<Job>)
    requires jobs != []
    ensures var n := |jobs| - 1;
      BatchItems(schema, relations, w, jobs) == BatchItems(schema, relations, w, jobs[..n])
        + [ApplyStatus(schema, relations, ApplyBatch(schema, relations, w, jobs[..n]), jobs[n])]
  {
  }

  /** A run without an applied item has changed no table, as long as no acknowledgement was lost. */
  lemma {:induction false} FailedMeansUnchanged(schema: Schema, relations: seq<Relation>, w: World, jobs: seq<Job>)
    requires Applied !in BatchItems(schema, relations, w, jobs)
    requires forall i :: 0 <= i < |jobs| ==> !jobs[i].fault.AcknowledgementLost?
    ensures ApplyBatch(schema, relations, w, jobs).db == w.db
  {
    if jobs != [] {
      var n := |jobs| - 1;
      var before := ApplyBatch(schema, relations, w, jobs[..n]);
      BatchItemsSplit(schema, relations, w, jobs);
      FailedMeansUnchanged(schema, relations, w, jobs[..n]);
      UnappliedLeavesTables(schema, relations, before, jobs[n]);
    }
  }

  // ----- restoring a batch -----

  type RestoreFaults = map<PointId, Fault>

  function FaultFor(faults: RestoreFaults, id: PointId): Fault {
    if id in faults then faults[id] else NoFault
  }

  function RestoreBatch(schema: Schema, w: World, points: seq<RestorePoint>, faults: RestoreFaults): World {
    if points == [] then w
    else
      var p := points[|points| - 1];
      AfterRestore(schema, RestoreBatch(schema, w, points[..|points| - 1], faults), p, FaultFor(faults, p.id))
  }

  function RestoreItems(schema: Schema, w: World, points: seq<RestorePoint>, faults: RestoreFaults): (r: seq<ItemStatus>)
    ensures |r| == |points|
  {
    if points == [] then []
    else
      var init, p := points[..|points| - 1], points[|points| - 1];
      RestoreItems(schema, w, init, faults)
      + [RestoreStatus(schema, RestoreBatch(schema, w, init, faults), p, FaultFor(faults, p.id))]
  }

  /** The loop over the selected points, as they were listed at the start. */
  method RestoreAll(service: MissingAssetService, points: seq<RestorePoint>, faults: RestoreFaults)
    returns (items: seq<ItemStatus>, status: RunStatus)
    requires service.store.Valid()
    modifies service.postgres, service.store
    ensures service.store.Valid()
    ensures service.State() == RestoreBatch(service.postgres.schema, old(service.State()), points, faults)
    ensures items == RestoreItems(service.postgres.schema, old(service.State()), points, faults)
    ensures status == FinalStatus(items, ItemFailed, ItemRestored)
  {
    items := [];
    for i := 0 to |points|
      invariant service.store.Valid()
      invariant service.State() == RestoreBatch(service.postgres.schema, old(service.State()), points[..i], faults)
      invariant items == RestoreItems(service.postgres.schema, old(service.State()), points[..i], faults)
    {
      assert points[..i + 1][..i] == points[..i];
      var item := service.RestoreSinglePoint(points[i], FaultFor(faults, points[i].id));
      items := items + [item];
    }
    assert points[..|points|] == points;
    status := FinalStatus(items, ItemFailed, ItemRestored);
  }

  ghost predicate AllListed(points: seq<RestorePoint>, p: Points) {
    IdsDistinct(points) && forall x :: x in points ==> x in p.index
  }

  /** Restoring points leaves the points after them in place, and never makes a row unsafe. */
  lemma {:induction false} RestoreBatchKeeps(schema: Schema, w: World, points: seq<RestorePoint>, faults: RestoreFaults)
    requires WorldOk(schema, w) && AllListed(points, w.points)
    ensures var w' := RestoreBatch(schema, w, points, faults);
      && WorldOk(schema, w') && KeepsAllRows(w, w')
      && (forall x :: x in w.points.index && x.id !in Ids(points) ==> x in w'.points.index)
  {
    if points != [] {
      var init, p := points[..|points| - 1], points[|points| - 1];
      assert points == init + [p] && p in points;
      assert forall x :: x in init ==> x in points;
      assert IdsDistinct(init);
      IdsOneMore(init, p, points);
      LastIdIsNew(init, p);
      RestoreBatchKeeps(schema, w, init, faults);
      var before := RestoreBatch(schema, w, init, faults);
      RestoreKeepsRows(schema, before, p, FaultFor(faults, p.id));
      forall x | x in w.points.index && x.id !in Ids(points)
        ensures x in AfterRestore(schema, before, p, FaultFor(faults, p.id)).points.index
      {
        PointSurvivesRestore(schema, before, p, FaultFor(faults, p.id), x);
      }
    }
  }

  lemma LastIdIsNew(init: seq<RestorePoint>, p: RestorePoint)
    requires IdsDistinct(init + [p])
    ensures p.id !in Ids(init)
  {
    var all := init + [p];
    forall x | x in init ensures x.id != p.id {
      var i :| 0 <= i < |init| && init[i] == x;
      assert all[i].id != all[|init|].id;
    }
  }

  ghost predicate RowsBack(db: Tables, p: RestorePoint) {
    forall t :: RowsIn(p.records, t) <= Rows(db, t)
  }

  lemma RestoredMeansBack(schema: Schema, w: World, p: RestorePoint, fault: Fault)
    requires WorldOk(schema, w) && RestoreStatus(schema, w, p, fault).ItemRestored?
    ensures RowsBack(AfterRestore(schema, w, p, fault).db, p)
  {
    InsertionGrows(schema, w.db, p.records);
  }

  lemma RowsStayBack(schema: Schema, w: World, p: RestorePoint, fault: Fault, q: RestorePoint)
    requires WorldOk(schema, w) && RowsBack(w.db, q)
    ensures RowsBack(AfterRestore(schema, w, p, fault).db, q)
  {
    RestoreKeepsWorldOk(schema, w, p, fault);
  }

  lemma ListedPrefix(points: seq<RestorePoint>, w: World)
    requires points != [] && AllListed(points, w.points)
    ensures AllListed(points[..|points| - 1], w.points)
  {
    var init := points[..|points| - 1];
    assert points == init + [points[|points| - 1]];
    forall x | x in init ensures x in w.points.index { assert x in points; }
  }

  lemma ItemsSplit(schema: Schema, w: World, points: seq<RestorePoint>, faults: RestoreFaults, i: nat)
    requires i < |points|
    ensures var n := |points| - 1;
      var before := RestoreBatch(schema, w, points[..n], faults);
      RestoreItems(schema, w, points, faults)[i] ==
        if i < n then RestoreItems(schema, w, points[..n], faults)[i]
        else RestoreStatus(schema, before, points[n], FaultFor(faults, points[n].id))
  {
  }

  lemma {:induction false} RestoredItemIsBack(schema: Schema, w: World, points: seq<RestorePoint>, faults: RestoreFaults, i: nat)
    requires WorldOk(schema, w) && AllListed(points, w.points) && i < |points|
    requires RestoreItems(schema, w, points, faults)[i].ItemRestored?
    ensures RowsBack(RestoreBatch(schema, w, points, faults).db, points[i])
  {
    var n := |points| - 1;
    var init, p := points[..n], points[n];
    var before := RestoreBatch(schema, w, init, faults);
    ItemsSplit(schema, w, points, faults, i);
    ListedPrefix(points, w);
    RestoreBatchKeeps(schema, w, init, faults);
    assert RestoreBatch(schema, w, points, faults) == AfterRestore(schema, before, p, FaultFor(faults, p.id));
    if i < n {
      RestoredItemIsBack(schema, w, init, faults, i);
      RowsStayBack(schema, before, p, FaultFor(faults, p.id), points[i]);
    } else {
      RestoredMeansBack(schema, before, p, FaultFor(faults, p.id));
    }
  }

  lemma {:induction false} AvailableIsNotSkipped(schema: Schema, w: World, points: seq<RestorePoint>, faults: RestoreFaults,
                                                 i: nat)
    requires i < |points| && points[i].status.Available?
    ensures var item := RestoreItems(schema, w, points, faults)[i]; item.ItemRestored? || item.ItemFailed?
  {
    if i < |points| - 1 { AvailableIsNotSkipped(schema, w, points[..|points| - 1], faults, i); }
  }

  /** A restore run reported as completed has brought back every row of every selected available point. */
  lemma CompletedMeansRestored(schema: Schema, w: World, points: seq<RestorePoint>, faults: RestoreFaults, i: nat)
    requires WorldOk(schema, w) && AllListed(points, w.points) && i < |points| && points[i].status.Available?
    requires FinalStatus(RestoreItems(schema, w, points, faults), ItemFailed, ItemRestored).RunCompleted?
    ensures RowsBack(RestoreBatch(schema, w, points, faults).db, points[i])
  {
    var items := RestoreItems(schema, w, points, faults);
    AvailableIsNotSkipped(schema, w, points, faults, i);
    assert items[i] in items;
    RestoredItemIsBack(schema, w, points, faults, i);
  }
}
