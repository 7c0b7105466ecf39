/** Runs of the missing-asset workflow: applying, restoring and deleting restore points in any order,
    with a failure at any database call; which rows such a run can lose. */
module MissingAssetRuns {
  import Ordering
  import opened AssetRows
  import opened AssetRoundTrip
  import opened AssetRestoration
  import opened RestorePoints
  import opened MissingAssets

  datatype Op = ApplyOp(job: Job) | RestoreOp(id: PointId, fault: Fault) | DeleteOp(ids: set<PointId>)

  function AfterDelete(w: World, ids: set<PointId>): World {
    World(w.db, Delete(w.points, ids))
  }

  function Step(schema: Schema, relations: seq<Relation>, w: World, op: Op): World {
    match op
    case ApplyOp(job) => AfterApply(schema, relations, w, job)
    case RestoreOp(id, fault) => if id in w.points.files then AfterRestore(schema, w, w.points.files[id], fault) else w
    case DeleteOp(ids) => AfterDelete(w, ids)
  }

  function Run(schema: Schema, relations: seq<Relation>, w: World, ops: seq<Op>): World
    decreases |ops|
  {
    if ops == [] then w
    else Run(schema, relations, Step(schema, relations, w, ops[0]), ops[1..])
  }

  predicate NewPoint(w: World, op: Op) {
    op.ApplyOp? ==> op.job.point !in w.points.files
  }

  /** Restore points get new ids. */
  predicate NewPoints(schema: Schema, relations: seq<Relation>, w: World, ops: seq<Op>)
    decreases |ops|
  {
    ops == [] || (NewPoint(w, ops[0]) && NewPoints(schema, relations, Step(schema, relations, w, ops[0]), ops[1..]))
  }

  // ----- what one step drops -----

  /** The row is in a restore point that can still be restored and is not one of these. */
  predicate InOtherPoint(points: Points, ids: set<PointId>, t: TableName, row: Row) {
    exists p :: p in points.index && p.id !in ids && p.status.Available? && row in RowsIn(p.records, t)
  }

  /** The row is safe before the step and held by nothing that the step leaves. */
  predicate Drops(schema: Schema, relations: seq<Relation>, w: World, op: Op, t: TableName, row: Row) {
    match op
    case ApplyOp(job) =>
      && LosesAcknowledgement(schema, relations, w, job)
      && row in Taken(w.db, relations, t, job.asset) && !InPoint(w.points, t, row)
    case RestoreOp(_, _) => false
    case DeleteOp(ids) => row !in Rows(w.db, t) && InPoint(w.points, t, row) && !InOtherPoint(w.points, ids, t, row)
  }

  /** What a caller can check before the step. */
  ghost predicate Harmless(schema: Schema, relations: seq<Relation>, w: World, op: Op) {
    match op
    case ApplyOp(job) => LosesAcknowledgement(schema, relations, w, job) ==> BackedUp(relations, w, job)
    case RestoreOp(_, _) => true
    case DeleteOp(ids) =>
      forall t, row :: InPoint(w.points, t, row) ==> row in Rows(w.db, t) || InOtherPoint(w.points, ids, t, row)
  }

  lemma {:induction false} InsertAllAdds(schema: Schema, db: Tables, recs: seq<Record>, t: TableName)
    requires InsertAll(schema, db, recs).Some?
    ensures Rows(InsertAll(schema, db, recs).value, t) == Rows(db, t) + RowsIn(recs, t)
  {
    if recs == [] {
      assert RowsIn(recs, t) == {};
    } else {
      var init, last := recs[..|recs| - 1], recs[|recs| - 1];
      assert recs == init + [last];
      InsertAllAdds(schema, db, init, t);
      RowsInOneMore(init, last, t);
    }
  }

  /** A restoration adds the rows of its records and no others. */
  lemma InsertionAdds(schema: Schema, db: Tables, recs: seq<Record>, t: TableName)
    requires Insertion(schema, db, recs).Some?
    ensures Rows(Insertion(schema, db, recs).value, t) == Rows(db, t) + RowsIn(recs, t)
  {
    InsertAllAdds(schema, db, Ordering.Sort(RecordLe, recs), t);
    SortedRecords(recs);
  }

  lemma ApplyAddsOnePoint(schema: Schema, relations: seq<Relation>, w: World, job: Job, p: RestorePoint)
    requires WorldOk(schema, w) && p in AfterApply(schema, relations, w, job).points.index
    ensures p in w.points.index || p == PointOf(w.db, relations, job)
  {
    var point := PointOf(w.db, relations, job);
    CreateKeepsAgreement(w.points, point);
    DeleteKeepsAgreement(Create(w.points, point), {job.point});
  }

  lemma PointHoldsDatabaseRows(db: Tables, relations: seq<Relation>, job: Job, t: TableName)
    requires forall r :: r in relations ==> r.table != ASSET
    ensures RowsIn(PointOf(db, relations, job).records, t) <= Rows(db, t)
  {
    CapturedIsTaken(db, relations, job.asset, t);
  }

  lemma ApplyAddsNoRow(schema: Schema, relations: seq<Relation>, w: World, job: Job, t: TableName, row: Row)
    requires WorldOk(schema, w) && Covered(schema, relations)
    requires IsSafe(AfterApply(schema, relations, w, job), t, row)
    ensures IsSafe(w, t, row)
  {
    var w' := AfterApply(schema, relations, w, job);
    if row in Rows(w'.db, t) {
      ApplyOnlyRemoves(schema, relations, w, job);
    } else {
      var p :| p in w'.points.index && p.status.Available? && row in RowsIn(p.records, t);
      ApplyAddsOnePoint(schema, relations, w, job, p);
      PointHoldsDatabaseRows(w.db, relations, job, t);
    }
  }

  lemma RestoreAddsNoRow(schema: Schema, w: World, point: RestorePoint, fault: Fault, t: TableName, row: Row)
    requires WorldOk(schema, w) && point in w.points.index
    requires IsSafe(AfterRestore(schema, w, point, fault), t, row)
    ensures IsSafe(w, t, row)
  {
    var w' := AfterRestore(schema, w, point, fault);
    CreateKeepsAgreement(w.points, point.(status := PointStatus.Restored));
    if Insertion(schema, w.db, point.records).Some? { InsertionAdds(schema, w.db, point.records, t); }
    if row in Rows(w'.db, t) && row !in Rows(w.db, t) {
      assert InPoint(w.points, t, row);
    }
  }

  lemma ApplyIsSafeIff(schema: Schema, relations: seq<Relation>, w: World, job: Job, t: TableName, row: Row)
    requires WorldOk(schema, w) && Covered(schema, relations) && job.point !in w.points.files
    ensures IsSafe(AfterApply(schema, relations, w, job), t, row) <==>
            IsSafe(w, t, row) && !Drops(schema, relations, w, ApplyOp(job), t, row)
  {
    var w' := AfterApply(schema, relations, w, job);
    if IsSafe(w', t, row) { ApplyAddsNoRow(schema, relations, w, job, t, row); }
    if LosesAcknowledgement(schema, relations, w, job) {
      LostRowsAreOnlyInPoints(schema, relations, w, job, t, row);
    } else {
      ApplyKeepsRowsIff(schema, relations, w, job);
    }
  }

  /** Deleting restore points makes a row unsafe exactly when nothing but the deleted points holds it. */
  lemma DeleteIsSafeIff(schema: Schema, relations: seq<Relation>, w: World, ids: set<PointId>, t: TableName, row: Row)
    requires WorldOk(schema, w)
    ensures InPoint(Delete(w.points, ids), t, row) <==> InOtherPoint(w.points, ids, t, row)
    ensures IsSafe(AfterDelete(w, ids), t, row) <==>
            IsSafe(w, t, row) && !Drops(schema, relations, w, DeleteOp(ids), t, row)
  {
    DeleteKeepsAgreement(w.points, ids);
  }

  /** After any step a row is safe exactly when it was safe before and the step does not drop it: no
      step makes a row safe again. */
  lemma StepIsSafeIff(schema: Schema, relations: seq<Relation>, w: World, op: Op, t: TableName, row: Row)
    requires WorldOk(schema, w) && Covered(schema, relations) && NewPoint(w, op)
    ensures IsSafe(Step(schema, relations, w, op), t, row) <==>
            IsSafe(w, t, row) && !Drops(schema, relations, w, op, t, row)
  {
    match op
    case ApplyOp(job) => ApplyIsSafeIff(schema, relations, w, job, t, row);
    case DeleteOp(ids) => DeleteIsSafeIff(schema, relations, w, ids, t, row);
    case RestoreOp(id, fault) =>
      if id in w.points.files {
        var point := w.points.files[id];
        RestoreKeepsRows(schema, w, point, fault);
        if IsSafe(Step(schema, relations, w, op), t, row) { RestoreAddsNoRow(schema, w, point, fault, t, row); }
      }
  }

  lemma StepKeepsWorldOk(schema: Schema, relations: seq<Relation>, w: World, op: Op)
    requires WorldOk(schema, w) && Covered(schema, relations)
    ensures WorldOk(schema, Step(schema, relations, w, op))
  {
    match op
    case ApplyOp(job) => ApplyKeepsWorldOk(schema, relations, w, job);
    case DeleteOp(ids) => DeleteKeepsAgreement(w.points, ids);
    case RestoreOp(id, fault) =>
      if id in w.points.files { RestoreKeepsWorldOk(schema, w, w.points.files[id], fault); }
  }

  lemma DeleteHarmlessIff(schema: Schema, relations: seq<Relation>, w: World, ids: set<PointId>)
    requires WorldOk(schema, w)
    ensures Harmless(schema, relations, w, DeleteOp(ids)) <==> KeepsAllRows(w, AfterDelete(w, ids))
  {
    forall t, row
      ensures IsSafe(w, t, row) && !IsSafe(AfterDelete(w, ids), t, row) <==>
              InPoint(w.points, t, row) && row !in Rows(w.db, t) && !InOtherPoint(w.points, ids, t, row)
    {
      DeleteIsSafeIff(schema, relations, w, ids, t, row);
    }
  }

  /** A step is harmless exactly when it drops no row. */
  lemma HarmlessIff(schema: Schema, relations: seq<Relation>, w: World, op: Op)
    requires WorldOk(schema, w) && Covered(schema, relations) && NewPoint(w, op)
    ensures Harmless(schema, relations, w, op) <==> KeepsAllRows(w, Step(schema, relations, w, op))
  {
    match op
    case ApplyOp(job) => ApplyKeepsRowsIff(schema, relations, w, job);
    case DeleteOp(ids) => DeleteHarmlessIff(schema, relations, w, ids);
    case RestoreOp(id, fault) =>
      if id in w.points.files { RestoreKeepsRows(schema, w, w.points.files[id], fault); }
  }

  // ----- whole runs -----

  /** Some step of the run drops the row. */
  predicate RunDrops(schema: Schema, relations: seq<Relation>, w: World, ops: seq<Op>, t: TableName, row: Row)
    decreases |ops|
  {
    ops != [] && (
      || Drops(schema, relations, w, ops[0], t, row)
      || RunDrops(schema, relations, Step(schema, relations, w, ops[0]), ops[1..], t, row))
  }

  /** Whatever is applied, restored and deleted, and whichever database calls fail: a row is safe at
      the end exactly when it was safe at the start and no step dropped it; every key holds, and the
      point files agree with their index. */
  lemma {:induction false} RunIsSafeIff(schema: Schema, relations: seq<Relation>, w: World, ops: seq<Op>, t: TableName,
                                        row: Row)
    requires WorldOk(schema, w) && Covered(schema, relations) && NewPoints(schema, relations, w, ops)
    ensures WorldOk(schema, Run(schema, relations, w, ops))
    ensures IsSafe(Run(schema, relations, w, ops), t, row) <==>
            IsSafe(w, t, row) && !RunDrops(schema, relations, w, ops, t, row)
    decreases |ops|
  {
    if ops != [] {
      StepKeepsWorldOk(schema, relations, w, ops[0]);
      StepIsSafeIff(schema, relations, w, ops[0], t, row);
      RunIsSafeIff(schema, relations, Step(schema, relations, w, ops[0]), ops[1..], t, row);
    }
  }

  ghost predicate HarmlessRun(schema: Schema, relations: seq<Relation>, w: World, ops: seq<Op>)
    decreases |ops|
  {
    ops == [] || (
      && Harmless(schema, relations, w, ops[0])
      && HarmlessRun(schema, relations, Step(schema, relations, w, ops[0]), ops[1..]))
  }

  /** A run keeps a set of safe rows exactly when its first step does and the rest of it does. */
  lemma KeepsSplit(schema: Schema, relations: seq<Relation>, w: World, op: Op, rest: seq<Op>)
    requires WorldOk(schema, w) && Covered(schema, relations) && NewPoint(w, op)
    requires NewPoints(schema, relations, Step(schema, relations, w, op), rest)
    ensures var w1 := Step(schema, relations, w, op);
      KeepsAllRows(w, Run(schema, relations, w1, rest)) <==>
      KeepsAllRows(w, w1) && KeepsAllRows(w1, Run(schema, relations, w1, rest))
  {
    var w1 := Step(schema, relations, w, op);
    var w2 := Run(schema, relations, w1, rest);
    StepKeepsWorldOk(schema, relations, w, op);
    forall t, row
      ensures IsSafe(w1, t, row) ==> IsSafe(w, t, row)
      ensures IsSafe(w2, t, row) ==> IsSafe(w1, t, row)
    {
      StepIsSafeIff(schema, relations, w, op, t, row);
      RunIsSafeIff(schema, relations, w1, rest, t, row);
    }
  }

  /** No loss over whole runs, exactly: every row that was in the database or in an available restore
      point still is in one of them if and only if every deletion whose acknowledgement was lost took
      rows that older points hold, and every deleted point held rows that something else holds. */
  lemma {:induction false} RunKeepsEveryRowIff(schema: Schema, relations: seq<Relation>, w: World, ops: seq<Op>)
    requires WorldOk(schema, w) && Covered(schema, relations) && NewPoints(schema, relations, w, ops)
    ensures KeepsAllRows(w, Run(schema, relations, w, ops)) <==> HarmlessRun(schema, relations, w, ops)
    decreases |ops|
  {
    if ops != [] {
      StepKeepsWorldOk(schema, relations, w, ops[0]);
      HarmlessIff(schema, relations, w, ops[0]);
      KeepsSplit(schema, relations, w, ops[0], ops[1..]);
      RunKeepsEveryRowIff(schema, relations, Step(schema, relations, w, ops[0]), ops[1..]);
    }
  }
}
