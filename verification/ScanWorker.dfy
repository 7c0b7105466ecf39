/** The worker loop in place, for one worker alone: it runs the store's transactions and the
    controller's calls one after the other, and leaves what a sequential scan leaves. */
module ScanWorker {
  import opened Basics
  import opened CatalogTables
  import opened Ordering
  import opened ScanProtocol
  import opened ScanInvariant
  import opened ScanSteps
  import opened ScanTheorems
  import CS = CatalogStore
  import RC = RuntimeController
  import C = ControllerState
  import FO = FileObservation

  /** What the control provider answers at one turn. */
  datatype Control = Control(pause: bool, stop: bool)

  /** Why the loop ends; a paused worker waits in the source until another thread resumes it. */
  datatype LoopEnd = Drained | AskedToStop | AskedToPause | OwnStop | WaitsForResume | LimitReached

  /** Every planned batch lists its paths in order, as discovery leaves them. */
  ghost predicate SortedPlan(plan: Plan) {
    forall k :: k in plan ==> Sorted(StringLe, FO.PathsFromPayload(plan[k].paths))
  }

  lemma ClaimThenFinish(plan: Plan, q: seq<QueueRow>, i: nat, w: WorkerId)
    requires QueueOk(plan, q) && NoneProcessing(q) && i < |q| && q[i].status.Pending?
    ensures var q2 := Mark(Mark(q, q[i].key, Processing(w)), q[i].key, Done);
      && QueueOk(plan, q2) && NoneProcessing(q2)
      && DoneKeys(q2) == DoneKeys(q) + {q[i].key} && q[i].key !in DoneKeys(q)
      && CountUnfinished(q2) < CountUnfinished(q)
  {
    ClaimKeeps(plan, q, i, w);
    var q1 := Mark(q, q[i].key, Processing(w));
    FinishKeeps(plan, q1, i);
    DoneAndUnfinished(q);
    DoneAndUnfinished(Mark(q1, q[i].key, Done));
  }

  lemma ScanOneMore(tree: Tree, plan: Plan, start: Outcome, keys: seq<Key>, k: Key)
    requires (forall x :: x in keys ==> x in plan) && k in plan
    ensures var o := SequentialScan(tree, plan, start, keys);
      var b := BatchOf(tree, start.session.root, plan[k].paths, plan[k].errors);
      SequentialScan(tree, plan, start, keys + [k])
      == Outcome(Advanced(o.session, b), UpsertAll(o.files, start.session.root, start.session.snapshot, b.files))
  {
    assert (keys + [k])[..|keys|] == keys;
  }

  /** The queue between two turns of the loop. */
  ghost predicate Settled(plan: Plan, db: Database, sid: SessionId) {
    sid in db.sessions && QueueOk(plan, Queue(db, sid)) && NoneProcessing(Queue(db, sid))
  }

  function Held(db: Database, sid: SessionId): Outcome
    requires sid in db.sessions
  {
    Outcome(db.sessions[sid], db.files)
  }

  /** What the loop has done so far: it applied exactly these keys, each once, on top of the start. */
  ghost predicate Progress(tree: Tree, plan: Plan, start: Database, db: Database, sid: SessionId, keys: seq<Key>) {
    && sid in start.sessions && Settled(plan, db, sid) && Distinct(keys) && (forall k :: k in keys ==> k in plan)
    && DoneKeys(Queue(db, sid)) == DoneKeys(Queue(start, sid)) + Elements(keys)
    && Held(db, sid) == SequentialScan(tree, plan, Held(start, sid), keys)
  }

  lemma NoProgressYet(tree: Tree, plan: Plan, db: Database, sid: SessionId)
    requires Settled(plan, db, sid)
    ensures Progress(tree, plan, db, db, sid, [])
  {
    assert DoneKeys(Queue(db, sid)) + Elements<Key>([]) == DoneKeys(Queue(db, sid));
  }

  /** The tables after one claimed item was applied. */
  function AfterTurn(tree: Tree, plan: Plan, db: Database, sid: SessionId, w: WorkerId, i: nat): Database
    requires sid in db.sessions && i < |Queue(db, sid)| && Queue(db, sid)[i].key in plan
  {
    var s, key := db.sessions[sid], Queue(db, sid)[i].key;
    var b := BatchOf(tree, s.root, plan[key].paths, plan[key].errors);
    ApplyBatch(ClaimRow(db, sid, w, i), sid, s.root, s.snapshot, key, b.files, b.bytes, b.errors)
  }

  lemma TurnQueue(tree: Tree, plan: Plan, db: Database, sid: SessionId, w: WorkerId, i: nat)
    requires Settled(plan, db, sid) && i < |Queue(db, sid)| && Queue(db, sid)[i].status.Pending?
    ensures var db2, q := AfterTurn(tree, plan, db, sid, w, i), Queue(db, sid);
      && Settled(plan, db2, sid) && q[i].key !in DoneKeys(q) && DoneKeys(Queue(db2, sid)) == DoneKeys(q) + {q[i].key}
      && CountUnfinished(Queue(db2, sid)) < CountUnfinished(q)
  {
    ClaimThenFinish(plan, Queue(db, sid), i, w);
  }

  lemma OneMoreKey(first: set<Key>, keys: seq<Key>, k: Key)
    requires Distinct(keys) && k !in first + Elements(keys)
    ensures Distinct(keys + [k]) && first + Elements(keys + [k]) == first + Elements(keys) + {k}
  {
    DistinctSplit(keys, [k]);
    assert forall x :: x in keys + [k] <==> x in keys || x == k;
  }

  lemma TurnOutcome(tree: Tree, plan: Plan, db: Database, sid: SessionId, w: WorkerId, i: nat)
    requires sid in db.sessions && i < |Queue(db, sid)| && Queue(db, sid)[i].key in plan
    ensures var s, item := db.sessions[sid], plan[Queue(db, sid)[i].key];
      var b := BatchOf(tree, s.root, item.paths, item.errors);
      Held(AfterTurn(tree, plan, db, sid, w, i), sid) == Outcome(Advanced(s, b), UpsertAll(db.files, s.root, s.snapshot, b.files))
  {
  }

  lemma OneMoreTurn(tree: Tree, plan: Plan, start: Database, db: Database, sid: SessionId, keys: seq<Key>, w: WorkerId,
                    i: nat)
    requires Progress(tree, plan, start, db, sid, keys)
    requires i < |Queue(db, sid)| && Queue(db, sid)[i].status.Pending?
    ensures var db2 := AfterTurn(tree, plan, db, sid, w, i);
      && Progress(tree, plan, start, db2, sid, keys + [Queue(db, sid)[i].key])
      && CountUnfinished(Queue(db2, sid)) < CountUnfinished(Queue(db, sid))
  {
    var k := Queue(db, sid)[i].key;
    TurnQueue(tree, plan, db, sid, w, i);
    TurnOutcome(tree, plan, db, sid, w, i);
    OneMoreKey(DoneKeys(Queue(start, sid)), keys, k);
    ScanOneMore(tree, plan, Held(start, sid), keys, k);
  }

  /** Observe the files of a claimed row and apply the batch. */
  method ApplyClaimed(store: CS.CatalogStore, sid: SessionId, row: QueueRow, tree: Tree, ghost plan: Plan)
    returns (count: nat)
    requires store.Valid() && sid in store.sessions && row.key in plan && row.payload == Some(plan[row.key].paths)
    requires row.errors == plan[row.key].errors && SortedPlan(plan)
    modifies store
    ensures store.Valid()
    ensures var s := old(store.sessions[sid]);
      var b := BatchOf(tree, s.root, plan[row.key].paths, plan[row.key].errors);
      && count == |b.files|
      && store.Db() == ApplyBatch(old(store.Db()), sid, s.root, s.snapshot, row.key, b.files, b.bytes, b.errors)
  {
    var s := store.sessions[sid];
    var batch := FO.ObserveFileBatch(tree, s.root, FO.PathsFromPayload(row.payload.value));
    assert batch == FO.Observe(tree, s.root, FO.PathsFromPayload(row.payload.value));
    var _ := store.ApplyDirectoryFiles(sid, s.root, s.snapshot, row.key, batch.files, batch.errors + row.errors, batch.bytes);
    count := |batch.files|;
  }

  /** Claim the next item and apply it; nothing changes when nothing is pending. */
  method ScanNextItem(store: CS.CatalogStore, controller: RC.ScanRuntimeController, sid: SessionId, w: WorkerId,
                      tree: Tree, ghost plan: Plan, ghost start: Database, ghost keys: seq<Key>)
    returns (done: Option<Key>, count: nat)
    requires store.Valid() && Progress(tree, plan, start, store.Db(), sid, keys) && SortedPlan(plan)
    requires controller.Valid() && C.Worker(w) in controller.actors
    modifies store, controller
    ensures store.Valid() && controller.Valid() && C.Worker(w) in controller.actors
    ensures done.None? ==> store.Db() == old(store.Db()) && AllDone(Queue(store.Db(), sid))
    ensures done.Some? ==> Progress(tree, plan, start, store.Db(), sid, keys + [done.value])
    ensures done.Some? ==> CountUnfinished(Queue(store.Db(), sid)) < CountUnfinished(old(Queue(store.Db(), sid)))
  {
    ghost var db := store.Db();
    var claimed := store.ClaimNextDirectory(sid, w);
    if claimed.None? {
      controller.MarkIdle(C.Worker(w));
      return None, 0;
    }
    ghost var i := NextPending(Queue(db, sid)).value;
    OneMoreTurn(tree, plan, start, db, sid, keys, w, i);
    assert RowOk(plan[claimed.value.key], Queue(db, sid)[i]);
    controller.MarkRunning(C.Worker(w), claimed.value.key);
    count := ApplyClaimed(store, sid, claimed.value, tree, plan);
    assert store.Db() == AfterTurn(tree, plan, db, sid, w, i);
    controller.MarkIdle(C.Worker(w));
    done := Some(claimed.value.key);
  }

  /** One look at the control provider; the worker that is told to end says so to the controller. */
  method ObeyControl(controller: RC.ScanRuntimeController, a: C.ActorId, asked: Control) returns (ends: Option<LoopEnd>)
    requires controller.Valid() && a in controller.actors
    modifies controller
    ensures controller.Valid() && a in controller.actors
    ensures ends == if asked.stop then Some(AskedToStop) else if asked.pause then Some(AskedToPause) else None
    ensures asked.stop ==> a in controller.stopped
  {
    if asked.stop {
      var _ := controller.RequestStop(a);
      controller.MarkIdle(a);
      return Some(AskedToStop);
    }
    if asked.pause {
      var _ := controller.RequestPause(a);
      controller.MarkIdle(a);
      return Some(AskedToPause);
    }
    return None;
  }

  /** The loop of one worker: control provider, own controller entry, then one item at a time. */
  method ScanWorkerLoop(store: CS.CatalogStore, controller: RC.ScanRuntimeController, sid: SessionId, w: WorkerId,
                        tree: Tree, ghost plan: Plan, controls: seq<Control>, maxFiles: Option<nat>, seen: nat)
    returns (keys: seq<Key>, reason: LoopEnd)
    requires store.Valid() && Settled(plan, store.Db(), sid) && SortedPlan(plan)
    requires controller.Valid() && C.Worker(w) in controller.actors && controller.collectorFinished
    modifies store, controller
    ensures store.Valid() && controller.Valid()
    ensures Progress(tree, plan, old(store.Db()), store.Db(), sid, keys)
    ensures reason.Drained? ==> AllDone(Queue(store.Db(), sid))
    ensures reason.OwnStop? ==> C.Worker(w) in controller.stopped
    ensures reason.LimitReached? ==> maxFiles.Some?
    ensures controls == [] && maxFiles.None? ==> reason.Drained? || reason.OwnStop? || reason.WaitsForResume?
  {
    var a, cell, turn := C.Worker(w), seen, 0;
    ghost var start := store.Db();
    NoProgressYet(tree, plan, start, sid);
    keys := [];
    while true
      invariant store.Valid() && controller.Valid() && a in controller.actors
      invariant Progress(tree, plan, start, store.Db(), sid, keys)
      decreases CountUnfinished(Queue(store.Db(), sid))
    {
      var ends := ObeyControl(controller, a, if turn < |controls| then controls[turn] else Control(false, false));
      turn := turn + 1;
      if ends.Some? {
        return keys, ends.value;
      }
      var verdict := controller.LookOnce(a);
      if verdict.Halt? {
        return keys, OwnStop;
      }
      if verdict.Wait? {
        return keys, WaitsForResume;
      }
      var done, count := ScanNextItem(store, controller, sid, w, tree, plan, start, keys);
      if done.None? {
        return keys, Drained;
      }
      keys := keys + [done.value];
      cell := cell + count;
      if maxFiles.Some? && cell >= maxFiles.value {
        return keys, LimitReached;
      }
    }
  }

  /** A loop that drains a fresh queue has applied the whole plan: what it leaves is the sequential scan
      that every clean commit is compared with. */
  lemma DrainedLoopScansPlan(tree: Tree, plan: Plan, start: Database, db: Database, sid: SessionId, keys: seq<Key>)
    requires Progress(tree, plan, start, db, sid, keys) && AllDone(Queue(db, sid))
    requires Covers(plan, Queue(db, sid)) && DoneKeys(Queue(start, sid)) == {}
    ensures Enumerates(keys, plan) && Held(db, sid) == SequentialScan(tree, plan, Held(start, sid), keys)
  {
    var q := Queue(db, sid);
    forall k | k in plan ensures k in keys {
      assert k in Keys(q);
      var i :| 0 <= i < |q| && Keys(q)[i] == k;
      assert q[i].status.Done? && k in DoneKeys(q);
      assert k in Elements(keys);
    }
  }
}
