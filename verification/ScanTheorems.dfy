/** The scan's main results: what a commit means, and that it does not depend on the interleaving. */
module ScanTheorems {
  import opened Basics
  import opened CatalogTables
  import opened ScanProtocol
  import opened ScanInvariant
  import opened ScanSteps
  import opened ScanFiles
  import C = ControllerState
  import FO = FileObservation

  // ----- a new session -----

  /** The schema's foreign key from file records to snapshots. */
  ghost predicate RecordsReferToSnapshots(db: Database) {
    forall k :: k in db.files ==> db.files[k].lastSeen in db.snapshots
  }

  lemma CreatedRowsOk(tree: Tree, plan: Plan, session: Session)
    requires CountersOk(session, EMPTY_TALLY)
    ensures RowsOk(tree, plan, session, [], [])
  {
    assert DoneKeys([]) == {} && Elements<Key>([]) == {};
  }

  lemma CreatedTablesOk(tree: Tree, s: System, l: Label)
    requires Enabled(s, l) && l.Create? && TablesOk(s.db)
    ensures TablesOk(Next(tree, s, l).db)
  {
  }

  lemma CreatedFilesOk(tree: Tree, plan: Plan, s: System, l: Label)
    requires Enabled(s, l) && l.Create? && TablesOk(s.db) && RecordsReferToSnapshots(s.db)
    ensures FilesOk(tree, plan, RootFacts(s.db.files, l.root), l.sid, Next(tree, s, l))
  {
    var base, s' := RootFacts(s.db.files, l.root), Next(tree, s, l);
    assert Overlay(tree, l.root, base, l.snapshot, {}) == base;
    assert s'.db.files == s.db.files && History(s', l.sid) == [];
    assert SeenIsPresent(s.db.files, l.root, l.snapshot);
    CreatedTablesOk(tree, s, l);
  }

  /** A session just created: nothing queued, nothing counted, records as they were. */
  lemma CreatedSessionIsOk(tree: Tree, plan: Plan, s: System, l: Label)
    requires Enabled(s, l) && l.Create? && TablesOk(s.db) && RecordsReferToSnapshots(s.db)
    ensures AllOk(tree, plan, RootFacts(s.db.files, l.root), l.sid, Next(tree, s, l))
    ensures Unseen(RootFacts(s.db.files, l.root), l.snapshot)
  {
    var s' := Next(tree, s, l);
    CreatedRowsOk(tree, plan, s'.db.sessions[l.sid]);
    CreatedFilesOk(tree, plan, s, l);
    forall m | m in s'.db.snapshots && m != l.snapshot ensures OlderOrForeign(s'.db, l.sid, m) {
      assert m in s.db.snapshots;
    }
  }

  /** No record was last seen under this snapshot. */
  ghost predicate Unseen(base: map<Path, Fact>, n: SnapshotId) {
    forall p :: p in base ==> base[p].lastSeen != n
  }

  // ----- isolated runs -----

  /** The labels of a run respect the plan, and no other session of the root is created or reopened. */
  ghost predicate Faithful(tree: Tree, plan: Plan, sid: SessionId, s: System, ls: seq<Label>)
    requires IsRun(tree, s, ls)
    decreases |ls|
  {
    ls == [] || (
      && sid in s.db.sessions && Planned(plan, sid, s, ls[0]) && IsolatedStep(sid, s, ls[0])
      && Faithful(tree, plan, sid, Next(tree, s, ls[0]), ls[1..]))
  }

  ghost predicate AllOk(tree: Tree, plan: Plan, base: map<Path, Fact>, sid: SessionId, s: System) {
    SessionOk(tree, plan, sid, s) && FilesOk(tree, plan, base, sid, s) && Newest(s.db, sid)
  }

  lemma {:induction false} RunKeepsAll(tree: Tree, plan: Plan, base: map<Path, Fact>, sid: SessionId, s: System,
                                       ls: seq<Label>)
    requires AllOk(tree, plan, base, sid, s) && IsRun(tree, s, ls) && Faithful(tree, plan, sid, s, ls)
    ensures AllOk(tree, plan, base, sid, After(tree, s, ls))
    ensures After(tree, s, ls).db.sessions[sid].root == s.db.sessions[sid].root
    ensures After(tree, s, ls).db.sessions[sid].snapshot == s.db.sessions[sid].snapshot
    decreases |ls|
  {
    if ls != [] {
      StepKeepsSession(tree, plan, sid, s, ls[0]);
      StepKeepsFiles(tree, plan, base, sid, s, ls[0]);
      StepKeepsNewest(tree, sid, s, ls[0]);
      StepKeepsIdentity(tree, sid, s, ls[0]);
      RunKeepsAll(tree, plan, base, sid, Next(tree, s, ls[0]), ls[1..]);
    }
  }

  // ----- exactly once, and nothing lost in the counts -----

  lemma {:induction false} TallyCountsItems(tree: Tree, root: RootId, plan: Plan, keys: seq<Key>)
    requires forall k :: k in keys ==> k in plan
    ensures TallyKeys(tree, root, plan, keys).items == |keys|
  {
    if keys != [] { TallyCountsItems(tree, root, plan, keys[..|keys| - 1]); }
  }

  lemma DoneKeysOneMore(q: seq<QueueRow>, row: QueueRow)
    ensures DoneKeys(q + [row]) == DoneKeys(q) + if row.status.Done? then {row.key} else {}
    ensures CountUnfinished(q + [row]) == CountUnfinished(q) + if row.status.Done? then 0 else 1
  {
    var more := q + [row];
    assert more[..|q|] == q && more[|q|] == row;
    forall k ensures k in DoneKeys(more) <==> k in DoneKeys(q) || (row.status.Done? && k == row.key) {
      if i :| 0 <= i < |q| && q[i].status.Done? && q[i].key == k { assert more[i] == q[i]; }
    }
  }

  lemma {:induction false} DoneAndUnfinished(q: seq<QueueRow>)
    requires Distinct(Keys(q))
    ensures |DoneKeys(q)| + CountUnfinished(q) == |q|
  {
    if q == [] {
      assert DoneKeys(q) == {};
    } else {
      var init, row := q[..|q| - 1], q[|q| - 1];
      assert q == init + [row] && Keys(q) == Keys(init) + [row.key];
      DistinctSplit(Keys(init), [row.key]);
      DoneAndUnfinished(init);
      DoneKeysOneMore(init, row);
      assert row.key !in DoneKeys(init) by {
        forall i | 0 <= i < |init| ensures init[i].key != row.key { assert Keys(init)[i] in Keys(init); }
      }
    }
  }

  /** No key applied twice, completed plus unfinished rows make the whole queue, and the counters are
      the sums over the applied batches. */
  ghost predicate Conserved(tree: Tree, plan: Plan, sid: SessionId, s: System)
    requires sid in s.db.sessions
  {
    var session, q, log := s.db.sessions[sid], Queue(s.db, sid), History(s, sid);
    var sums := TallyKeys(tree, session.root, plan, log);
    && Distinct(log) && session.directoriesCompleted == |log| && |log| + CountUnfinished(q) == |q|
    && session.filesSeen == sums.files && session.bytesSeen == sums.bytes && session.errorCount == sums.errors
  }

  lemma SessionConserves(tree: Tree, plan: Plan, sid: SessionId, s: System)
    requires SessionOk(tree, plan, sid, s)
    ensures Conserved(tree, plan, sid, s)
  {
    var q, log := Queue(s.db, sid), History(s, sid);
    forall k | k in log ensures k in plan {
      assert k in DoneKeys(q);
      var i :| 0 <= i < |q| && q[i].status.Done? && q[i].key == k;
    }
    TallyCountsItems(tree, s.db.sessions[sid].root, plan, log);
    DistinctCardinality(log);
    DoneAndUnfinished(q);
  }

  /** A processing row has exactly one holder: the worker it names. */
  lemma ExactlyOneHolder(q: seq<QueueRow>, ws: seq<Pc>, i: nat)
    requires HeldOk(q, ws) && i < |q| && q[i].status.Processing?
    ensures forall w :: 0 <= w < |ws| ==> (Holds(ws[w], i) <==> w == q[i].status.worker)
  {
    forall w | 0 <= w < |ws| && Holds(ws[w], i) ensures w == q[i].status.worker { assert HolderOk(q, w, ws[w]); }
  }

  /** Every reachable state of a session conserves: any run of planned preparations from its creation. */
  lemma RunConserves(tree: Tree, plan: Plan, s: System, l: Label, ls: seq<Label>)
    requires Enabled(s, l) && l.Create? && TablesOk(s.db) && RecordsReferToSnapshots(s.db)
    requires IsRun(tree, Next(tree, s, l), ls) && PlannedRun(tree, plan, l.sid, Next(tree, s, l), ls)
    ensures l.sid in After(tree, Next(tree, s, l), ls).db.sessions
    ensures Conserved(tree, plan, l.sid, After(tree, Next(tree, s, l), ls))
  {
    CreatedSessionIsOk(tree, plan, s, l);
    RunKeepsSession(tree, plan, l.sid, Next(tree, s, l), ls);
    SessionConserves(tree, plan, l.sid, After(tree, Next(tree, s, l), ls));
  }

  // ----- commit means drained -----

  ghost predicate AllDone(q: seq<QueueRow>) {
    forall i :: 0 <= i < |q| ==> q[i].status.Done?
  }

  /** The scan is about to commit: every thread has ended and no stop reason was recorded. */
  ghost predicate AboutToCommit(s: System) {
    InPhase(s, Working) && Joined(s.runner.value) && s.runner.value.stopReason.None?
  }

  predicate DiedHolding(pc: Pc) {
    pc.Dead? && pc.held.Some?
  }

  /** If one thread ended normally and its actor was never stopped, the commit is drained
      exactly when no thread raised while it held a work item. */
  lemma CommitIsDrainedIff(tree: Tree, plan: Plan, sid: SessionId, s: System, w: WorkerId)
    requires SessionOk(tree, plan, sid, s) && Mine(s, sid) && AboutToCommit(s)
    requires w < |s.runner.value.workers| && s.runner.value.workers[w].Exited?
    requires C.Worker(w) !in s.runner.value.controller.stopped
    ensures AllDone(Queue(s.db, sid)) <==>
            forall v :: 0 <= v < |s.runner.value.workers| ==> !DiedHolding(s.runner.value.workers[v])
  {
    var q, ws := Queue(s.db, sid), s.runner.value.workers;
    assert ws[w] == Exited(NothingPending);
    if v :| 0 <= v < |ws| && DiedHolding(ws[v]) {
      assert HolderOk(q, v, ws[v]);
      assert q[ws[v].held.value].status.Processing?;
    }
    if i :| 0 <= i < |q| && q[i].status.Processing? {
      assert DiedHolding(ws[q[i].status.worker]);
    }
  }

  // ----- sums do not depend on the order -----

  lemma PlusAssociates(a: Tally, b: Tally, c: Tally)
    ensures Plus(Plus(a, b), c) == Plus(Plus(a, c), b)
  {
    assert a.paths + b.paths + c.paths == a.paths + c.paths + b.paths;
  }

  lemma TallyLast(tree: Tree, root: RootId, plan: Plan, keys: seq<Key>, k: Key)
    ensures TallyKeys(tree, root, plan, keys + [k]) == Plus(TallyKeys(tree, root, plan, keys), TallyKey(tree, root, plan, k))
  {
    assert (keys + [k])[..|keys|] == keys;
  }

  lemma {:induction false} TallyRemove(tree: Tree, root: RootId, plan: Plan, a: seq<Key>, k: Key, b: seq<Key>)
    ensures TallyKeys(tree, root, plan, a + [k] + b)
         == Plus(TallyKeys(tree, root, plan, a + b), TallyKey(tree, root, plan, k))
  {
    if b == [] {
      assert a + [k] + b == a + [k] && a + b == a;
      TallyLast(tree, root, plan, a, k);
    } else {
      var init, last := b[..|b| - 1], b[|b| - 1];
      var long, short := a + [k] + init, a + init;
      TallyRemove(tree, root, plan, a, k, init);
      SplitLast(a, k, b);
      TallyLast(tree, root, plan, long, last);
      TallyLast(tree, root, plan, short, last);
      PlusAssociates(TallyKeys(tree, root, plan, short), TallyKey(tree, root, plan, k), TallyKey(tree, root, plan, last));
    }
  }

  lemma {:induction false} TallyPermuted(tree: Tree, root: RootId, plan: Plan, a: seq<Key>, b: seq<Key>)
    requires multiset(a) == multiset(b)
    ensures TallyKeys(tree, root, plan, a) == TallyKeys(tree, root, plan, b)
    decreases |a|
  {
    assert |a| == |multiset(a)| == |b|;
    if a != [] {
      var i := RemovedLast(a, b);
      TallyPermuted(tree, root, plan, a[..|a| - 1], b[..i] + b[i + 1..]);
      assert b == b[..i] + [b[i]] + b[i + 1..];
      TallyRemove(tree, root, plan, b[..i], b[i], b[i + 1..]);
    }
  }

  // ----- the reference: one worker, no interruption, items in order -----

  datatype Outcome = Outcome(session: Session, files: map<FileKey, FileRecord>)

  /** Observe and apply the planned items one after the other. */
  function SequentialScan(tree: Tree, plan: Plan, start: Outcome, keys: seq<Key>): (r: Outcome)
    requires forall k :: k in keys ==> k in plan
    ensures r.session.root == start.session.root && r.session.snapshot == start.session.snapshot
  {
    if keys == [] then start
    else
      var o := SequentialScan(tree, plan, start, keys[..|keys| - 1]);
      var item := plan[keys[|keys| - 1]];
      var b := BatchOf(tree, start.session.root, item.paths, item.errors);
      Outcome(Advanced(o.session, b), UpsertAll(o.files, start.session.root, start.session.snapshot, b.files))
  }

  /** The counters and facts of an outcome are those of a tally over the starting records. */
  ghost predicate Tallied(tree: Tree, start: Outcome, o: Outcome, t: Tally) {
    var root, n := start.session.root, start.session.snapshot;
    && o.session.root == root && o.session.snapshot == n && CountersOk(o.session, t)
    && RootFacts(o.files, root) == Overlay(tree, root, RootFacts(start.files, root), n, t.paths)
  }

  lemma FactsOneMore(tree: Tree, files: map<FileKey, FileRecord>, root: RootId, base: map<Path, Fact>, n: SnapshotId,
                     paths: set<Path>, item: PlanItem)
    requires RootFacts(files, root) == Overlay(tree, root, base, n, paths)
    ensures RootFacts(UpsertAll(files, root, n, BatchOf(tree, root, item.paths, item.errors).files), root)
         == Overlay(tree, root, base, n, paths + TallyItem(tree, root, item).paths)
  {
    var os := BatchOf(tree, root, item.paths, item.errors).files;
    ObservedSizes(tree, root, FO.PathsFromPayload(item.paths));
    UpsertOverlays(tree, files, root, n, os);
    OverlayTwice(tree, root, base, n, paths, PathsOf(os));
  }

  lemma TalliedOneMore(tree: Tree, start: Outcome, o: Outcome, t: Tally, item: PlanItem)
    requires Tallied(tree, start, o, t)
    ensures var root, n := start.session.root, start.session.snapshot;
      var b := BatchOf(tree, root, item.paths, item.errors);
      Tallied(tree, start, Outcome(Advanced(o.session, b), UpsertAll(o.files, root, n, b.files)),
              Plus(t, TallyItem(tree, root, item)))
  {
    var root, n := start.session.root, start.session.snapshot;
    FactsOneMore(tree, o.files, root, RootFacts(start.files, root), n, t.paths, item);
  }

  lemma {:induction false} SequentialTally(tree: Tree, plan: Plan, start: Outcome, keys: seq<Key>)
    requires forall k :: k in keys ==> k in plan
    requires CountersOk(start.session, EMPTY_TALLY)
    ensures Tallied(tree, start, SequentialScan(tree, plan, start, keys), TallyKeys(tree, start.session.root, plan, keys))
  {
    var root, n := start.session.root, start.session.snapshot;
    if keys == [] {
      assert Overlay(tree, root, RootFacts(start.files, root), n, {}) == RootFacts(start.files, root);
    } else {
      var init, k := keys[..|keys| - 1], keys[|keys| - 1];
      SequentialTally(tree, plan, start, init);
      TalliedOneMore(tree, start, SequentialScan(tree, plan, start, init), TallyKeys(tree, root, plan, init), plan[k]);
    }
  }

  // ----- the main theorem -----

  /** About to commit, with a thread that ended normally, an actor that was never stopped, and no
      thread that raised while it held an item. */
  ghost predicate CleanCommit(s: System) {
    && AboutToCommit(s)
    && (forall v :: 0 <= v < |s.runner.value.workers| ==> !DiedHolding(s.runner.value.workers[v]))
    && exists w :: 0 <= w < |s.runner.value.workers| && s.runner.value.workers[w].Exited?
         && C.Worker(w) !in s.runner.value.controller.stopped
  }

  /** The planned keys, each once, in some order. */
  ghost predicate Enumerates(keys: seq<Key>, plan: Plan) {
    Distinct(keys) && forall k :: k in keys <==> k in plan
  }

  /** At a drained commit every planned key has been applied exactly once. */
  lemma DrainedMeansPlanApplied(tree: Tree, plan: Plan, sid: SessionId, s: System, keys: seq<Key>)
    requires SessionOk(tree, plan, sid, s) && Mine(s, sid) && InPhase(s, Working) && AllDone(Queue(s.db, sid))
    requires Enumerates(keys, plan)
    ensures multiset(History(s, sid)) == multiset(keys)
  {
    var q, log := Queue(s.db, sid), History(s, sid);
    forall k ensures k in log <==> k in keys {
      assert k in log <==> k in DoneKeys(q);
      if k in plan {
        assert k in Keys(q);
        var i :| 0 <= i < |q| && Keys(q)[i] == k;
        assert q[i].status.Done?;
      }
    }
    DistinctPermutation(log, keys);
  }

  function NewOutcome(db: Database, root: RootId, snapshot: SnapshotId): Outcome {
    Outcome(Session(root, snapshot, Running, 0, 0, 0, 0), db.files)
  }

  /** What a committed scan left behind, compared with a sequential scan of the plan. */
  ghost predicate SameOutcome(db: Database, sid: SessionId, o: Outcome)
    requires sid in db.sessions
  {
    var session := db.sessions[sid];
    && session.filesSeen == o.session.filesSeen && session.bytesSeen == o.session.bytesSeen
    && session.errorCount == o.session.errorCount
    && session.directoriesCompleted == o.session.directoriesCompleted
    && session.root == o.session.root && session.snapshot == o.session.snapshot
    && RootFacts(db.files, session.root) == RootFacts(o.files, session.root)
    && session.snapshot in db.snapshots
    && var snapshot := db.snapshots[session.snapshot];
       && snapshot.status.Committed? && snapshot.itemCount == o.session.filesSeen
       && snapshot.zeroByteCount == |ZeroBytesIn(o.files, session.root, session.snapshot)|
  }

  lemma ZeroBytesFromFacts(a: map<FileKey, FileRecord>, b: map<FileKey, FileRecord>, root: RootId, n: SnapshotId)
    requires RootFacts(a, root) == RootFacts(b, root)
    ensures ZeroBytesIn(a, root, n) == ZeroBytesIn(b, root, n)
  {
    forall k ensures k in ZeroBytesIn(a, root, n) <==> k in ZeroBytesIn(b, root, n) {
      if k.root == root {
        assert k == FileKey(root, k.path);
        assert k in a <==> k.path in RootFacts(a, root);
        assert k in b <==> k.path in RootFacts(b, root);
      }
    }
  }

  /** Any run of any number of workers, however it was paused, stopped, crashed and reopened, that
      comes to a clean commit leaves what one uninterrupted sequential scan of the plan leaves. */
  lemma CommittedScanIsSequential(tree: Tree, plan: Plan, s: System, l: Label, ls: seq<Label>, keys: seq<Key>)
    requires Enabled(s, l) && l.Create? && TablesOk(s.db) && RecordsReferToSnapshots(s.db)
    requires IsRun(tree, Next(tree, s, l), ls) && Faithful(tree, plan, l.sid, Next(tree, s, l), ls)
    requires var t := After(tree, Next(tree, s, l), ls); CleanCommit(t) && Mine(t, l.sid)
    requires Enumerates(keys, plan)
    ensures var t := FinalizeStep(After(tree, Next(tree, s, l), ls));
      && l.sid in t.db.sessions
      && SameOutcome(t.db, l.sid, SequentialScan(tree, plan, NewOutcome(s.db, l.root, l.snapshot), keys))
  {
    var s1, base := Next(tree, s, l), RootFacts(s.db.files, l.root);
    var t := After(tree, s1, ls);
    CreatedSessionIsOk(tree, plan, s, l);
    RunKeepsAll(tree, plan, base, l.sid, s1, ls);
    CleanCommitIsSequential(tree, plan, base, l.sid, t, NewOutcome(s.db, l.root, l.snapshot), keys);
  }

  /** The counters of a session, without its status. */
  predicate SameCounters(a: Session, b: Session) {
    a.(status := Running) == b.(status := Running)
  }

  lemma CommitGivesOutcome(db: Database, sid: SessionId, o: Outcome)
    requires sid in db.sessions && db.sessions[sid].snapshot in db.snapshots && SameCounters(db.sessions[sid], o.session)
    requires RootFacts(db.files, o.session.root) == RootFacts(o.files, o.session.root)
    requires SeenIsPresent(db.files, o.session.root, o.session.snapshot)
    ensures sid in CommitSession(db, sid).sessions && SameOutcome(CommitSession(db, sid), sid, o)
  {
    ZeroBytesFromFacts(db.files, o.files, o.session.root, o.session.snapshot);
    SweepFacts(db.files, o.session.root, o.session.snapshot);
  }

  lemma CleanCommitIsSequential(tree: Tree, plan: Plan, base: map<Path, Fact>, sid: SessionId, t: System,
                                start: Outcome, keys: seq<Key>)
    requires AllOk(tree, plan, base, sid, t) && CleanCommit(t) && Mine(t, sid) && Enumerates(keys, plan)
    requires start.session == Session(t.db.sessions[sid].root, t.db.sessions[sid].snapshot, Running, 0, 0, 0, 0)
    requires RootFacts(start.files, start.session.root) == base
    ensures sid in FinalizeStep(t).db.sessions
    ensures SameOutcome(FinalizeStep(t).db, sid, SequentialScan(tree, plan, start, keys))
  {
    var root, n := start.session.root, start.session.snapshot;
    var w :| 0 <= w < |t.runner.value.workers| && t.runner.value.workers[w].Exited?
      && C.Worker(w) !in t.runner.value.controller.stopped;
    CommitIsDrainedIff(tree, plan, sid, t, w);
    DrainedMeansPlanApplied(tree, plan, sid, t, keys);
    TallyPermuted(tree, root, plan, History(t, sid), keys);
    SequentialTally(tree, plan, start, keys);
    CommitGivesOutcome(t.db, sid, SequentialScan(tree, plan, start, keys));
  }

  lemma CommittedIsCompleted(t: System)
    requires AboutToCommit(t) && t.db.sessions[t.runner.value.sid].snapshot in FinalizeStep(t).db.snapshots
    ensures t.runner.value.sid in FinalizeStep(t).db.sessions
    ensures FinalizeStep(t).db.sessions[t.runner.value.sid].status.Completed?
  {
  }

  lemma SameOutcomeTwice(db: Database, db': Database, sid: SessionId, o: Outcome)
    requires sid in db.sessions && sid in db'.sessions && SameOutcome(db, sid, o) && SameOutcome(db', sid, o)
    requires db.sessions[sid].status.Completed? && db'.sessions[sid].status.Completed?
    ensures db.sessions[sid] == db'.sessions[sid]
    ensures var n := o.session.snapshot;
      && RootFacts(db.files, o.session.root) == RootFacts(db'.files, o.session.root)
      && n in db.snapshots && n in db'.snapshots && db.snapshots[n].itemCount == db'.snapshots[n].itemCount
      && db.snapshots[n].zeroByteCount == db'.snapshots[n].zeroByteCount
  {
  }

  /** Two runs from the same new session, interleaved and interrupted differently, agree. */
  lemma InterleavingDoesNotMatter(tree: Tree, plan: Plan, s: System, l: Label, ls: seq<Label>, ls': seq<Label>)
    requires Enabled(s, l) && l.Create? && TablesOk(s.db) && RecordsReferToSnapshots(s.db)
    requires var s1 := Next(tree, s, l);
      && IsRun(tree, s1, ls) && Faithful(tree, plan, l.sid, s1, ls)
      && CleanCommit(After(tree, s1, ls)) && Mine(After(tree, s1, ls), l.sid)
    requires var s1 := Next(tree, s, l);
      && IsRun(tree, s1, ls') && Faithful(tree, plan, l.sid, s1, ls')
      && CleanCommit(After(tree, s1, ls')) && Mine(After(tree, s1, ls'), l.sid)
    ensures var t, t' := FinalizeStep(After(tree, Next(tree, s, l), ls)), FinalizeStep(After(tree, Next(tree, s, l), ls'));
      && l.sid in t.db.sessions && l.sid in t'.db.sessions
      && t.db.sessions[l.sid] == t'.db.sessions[l.sid]
      && RootFacts(t.db.files, l.root) == RootFacts(t'.db.files, l.root)
      && l.snapshot in t.db.snapshots && l.snapshot in t'.db.snapshots
      && t.db.snapshots[l.snapshot].itemCount == t'.db.snapshots[l.snapshot].itemCount
      && t.db.snapshots[l.snapshot].zeroByteCount == t'.db.snapshots[l.snapshot].zeroByteCount
  {
    var keys := EnumeratePlan(plan);
    var o := SequentialScan(tree, plan, NewOutcome(s.db, l.root, l.snapshot), keys);
    CommittedScanIsSequential(tree, plan, s, l, ls, keys);
    CommittedScanIsSequential(tree, plan, s, l, ls', keys);
    CommittedIsCompleted(After(tree, Next(tree, s, l), ls));
    CommittedIsCompleted(After(tree, Next(tree, s, l), ls'));
    SameOutcomeTwice(FinalizeStep(After(tree, Next(tree, s, l), ls)).db, FinalizeStep(After(tree, Next(tree, s, l), ls')).db,
                     l.sid, o);
  }

  lemma {:induction false} EnumeratePlan(plan: Plan) returns (keys: seq<Key>)
    ensures Enumerates(keys, plan)
    decreases |plan|
  {
    if plan == map[] {
      keys := [];
    } else {
      var k :| k in plan;
      var rest := EnumeratePlan(plan - {k});
      keys := rest + [k];
      DistinctSplit(rest, [k]);
    }
  }
}
