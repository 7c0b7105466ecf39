/** The file records during a session: while no other session of the same root runs, the records of
    the root are the records from before the session overlaid with exactly what its done rows saw. */
module ScanFiles {
  import opened CatalogTables
  import opened ScanProtocol
  import opened ScanInvariant
  import opened ScanSteps
  import FO = FileObservation

  /** A file record without its presence mark. */
  datatype Fact = Fact(size: nat, zeroByte: bool, firstSeen: SnapshotId, lastSeen: SnapshotId)

  function FactOf(rec: FileRecord): Fact {
    Fact(rec.size, rec.zeroByte, rec.firstSeen, rec.lastSeen)
  }

  function PathsIn(files: map<FileKey, FileRecord>, root: RootId): set<Path> {
    set k | k in files && k.root == root :: k.path
  }

  function RootFacts(files: map<FileKey, FileRecord>, root: RootId): (r: map<Path, Fact>)
    ensures forall p :: p in r <==> FileKey(root, p) in files
    ensures forall p :: p in r ==> r[p] == FactOf(files[FileKey(root, p)])
  {
    map p | p in PathsIn(files, root) :: FactOf(files[FileKey(root, p)])
  }

  function SizeAt(tree: Tree, root: RootId, p: Path): nat {
    match FO.Look(tree, root, p) case File(n) => n case _ => 0
  }

  function Seen(tree: Tree, root: RootId, base: map<Path, Fact>, snapshot: SnapshotId, p: Path): Fact {
    var n := SizeAt(tree, root, p);
    Fact(n, n == 0, if p in base then base[p].firstSeen else snapshot, snapshot)
  }

  /** The facts of `base` after the given paths were seen under one snapshot. */
  function Overlay(tree: Tree, root: RootId, base: map<Path, Fact>, snapshot: SnapshotId, paths: set<Path>)
    : map<Path, Fact>
  {
    map p | p in base.Keys + paths :: if p in paths then Seen(tree, root, base, snapshot, p) else base[p]
  }

  lemma OverlayTwice(tree: Tree, root: RootId, base: map<Path, Fact>, n: SnapshotId, a: set<Path>, b: set<Path>)
    ensures Overlay(tree, root, Overlay(tree, root, base, n, a), n, b) == Overlay(tree, root, base, n, a + b)
  {
  }

  ghost predicate TrueSizes(tree: Tree, root: RootId, os: seq<Observation>) {
    forall o :: o in os ==> FO.Look(tree, root, o.path) == File(o.size)
  }

  lemma {:induction false} ObservedSizes(tree: Tree, root: RootId, paths: seq<Path>)
    ensures TrueSizes(tree, root, FO.Observe(tree, root, paths).files)
  {
    if paths != [] { ObservedSizes(tree, root, paths[..|paths| - 1]); }
  }

  lemma UpsertOverlaysOne(tree: Tree, files: map<FileKey, FileRecord>, root: RootId, n: SnapshotId, o: Observation)
    requires FO.Look(tree, root, o.path) == File(o.size)
    ensures RootFacts(Upsert(files, root, n, o), root) == Overlay(tree, root, RootFacts(files, root), n, {o.path})
  {
    var base, after := RootFacts(files, root), Upsert(files, root, n, o);
    var l, r := RootFacts(after, root), Overlay(tree, root, base, n, {o.path});
    forall p ensures p in l <==> p in r {
      assert p in l <==> FileKey(root, p) in after;
    }
    forall p | p in l ensures l[p] == r[p] {
      if p == o.path {
        assert r[p] == Seen(tree, root, base, n, p);
      } else {
        assert after[FileKey(root, p)] == files[FileKey(root, p)];
      }
    }
  }

  lemma PathsOfAppend(os: seq<Observation>, o: Observation)
    ensures PathsOf(os + [o]) == PathsOf(os) + {o.path}
  {
    forall p | p in PathsOf(os) + {o.path} ensures p in PathsOf(os + [o]) {
      if p == o.path {
        assert (os + [o])[|os|] == o;
      } else {
        var x :| x in os && x.path == p;
        assert x in os + [o];
      }
    }
  }

  /** Upserting a batch of true observations overlays exactly their paths. */
  lemma {:induction false} UpsertOverlays(tree: Tree, files: map<FileKey, FileRecord>, root: RootId, n: SnapshotId,
                                          os: seq<Observation>)
    requires TrueSizes(tree, root, os)
    ensures RootFacts(UpsertAll(files, root, n, os), root)
         == Overlay(tree, root, RootFacts(files, root), n, PathsOf(os))
  {
    if os == [] {
      assert PathsOf(os) == {};
    } else {
      var init, o := os[..|os| - 1], os[|os| - 1];
      assert os == init + [o];
      UpsertOverlays(tree, files, root, n, init);
      UpsertOverlaysOne(tree, UpsertAll(files, root, n, init), root, n, o);
      OverlayTwice(tree, root, RootFacts(files, root), n, PathsOf(init), {o.path});
      PathsOfAppend(init, o);
    }
  }

  lemma {:induction false} UpsertMarksPresent(files: map<FileKey, FileRecord>, root: RootId, n: SnapshotId,
                                              os: seq<Observation>)
    requires SeenIsPresent(files, root, n)
    ensures SeenIsPresent(UpsertAll(files, root, n, os), root, n)
  {
    if os != [] { UpsertMarksPresent(files, root, n, os[..|os| - 1]); }
  }

  lemma {:induction false} UpsertOtherRoot(files: map<FileKey, FileRecord>, root: RootId, other: RootId, n: SnapshotId,
                                           os: seq<Observation>)
    requires root != other
    ensures forall p :: FileKey(root, p) in UpsertAll(files, other, n, os) <==> FileKey(root, p) in files
    ensures forall p :: FileKey(root, p) in files ==>
              UpsertAll(files, other, n, os)[FileKey(root, p)] == files[FileKey(root, p)]
  {
    if os != [] { UpsertOtherRoot(files, root, other, n, os[..|os| - 1]); }
  }

  /** Whatever was last seen under this snapshot is marked present. */
  ghost predicate SeenIsPresent(files: map<FileKey, FileRecord>, root: RootId, n: SnapshotId) {
    forall k :: k in files && k.root == root && files[k].lastSeen == n ==> files[k].presence.Present?
  }

  /** Two file tables agree on one root. */
  ghost predicate SameRoot(a: map<FileKey, FileRecord>, b: map<FileKey, FileRecord>, root: RootId) {
    && (forall p :: FileKey(root, p) in a <==> FileKey(root, p) in b)
    && (forall p :: FileKey(root, p) in a ==> a[FileKey(root, p)] == b[FileKey(root, p)])
  }

  lemma SameRootFacts(a: map<FileKey, FileRecord>, b: map<FileKey, FileRecord>, root: RootId, n: SnapshotId)
    requires SameRoot(a, b, root)
    ensures RootFacts(a, root) == RootFacts(b, root)
    ensures SeenIsPresent(a, root, n) ==> SeenIsPresent(b, root, n)
  {
    if SeenIsPresent(a, root, n) {
      forall k | k in b && k.root == root && b[k].lastSeen == n ensures b[k].presence.Present? {
        assert k == FileKey(root, k.path);
      }
    }
  }

  lemma SweepFacts(files: map<FileKey, FileRecord>, root: RootId, n: SnapshotId)
    requires SeenIsPresent(files, root, n)
    ensures RootFacts(SweepPresence(files, root, n), root) == RootFacts(files, root)
    ensures SeenIsPresent(SweepPresence(files, root, n), root, n)
  {
  }

  // ----- the invariant -----

  /** Every session has its snapshot, of its own registered root; no root changed in the future. */
  ghost predicate TablesOk(db: Database) {
    && (forall x :: x in db.sessions ==>
          && db.sessions[x].root in db.rootUpdatedAt && db.sessions[x].snapshot in db.snapshots
          && db.snapshots[db.sessions[x].snapshot].root == db.sessions[x].root)
    && (forall r :: r in db.rootUpdatedAt ==> db.rootUpdatedAt[r] <= db.clock)
  }

  /** Nobody but this session scans its root: neither now nor, in IsolatedStep, next. */
  ghost predicate Alone(sid: SessionId, s: System)
    requires sid in s.db.sessions
  {
    s.runner.Some? && s.runner.value.sid != sid && s.runner.value.sid in s.db.sessions ==>
      s.db.sessions[s.runner.value.sid].root != s.db.sessions[sid].root
  }

  ghost predicate IsolatedStep(sid: SessionId, s: System, l: Label)
    requires sid in s.db.sessions
  {
    match l
    case Create(_, root, _, _, _, _) => root != s.db.sessions[sid].root
    case Reopen(x, _, _) => x == sid || (x in s.db.sessions ==> s.db.sessions[x].root != s.db.sessions[sid].root)
    case _ => true
  }

  function SeenPaths(tree: Tree, plan: Plan, sid: SessionId, s: System): set<Path>
    requires sid in s.db.sessions
  {
    TallyKeys(tree, s.db.sessions[sid].root, plan, History(s, sid)).paths
  }

  ghost predicate RecordsOk(tree: Tree, files: map<FileKey, FileRecord>, root: RootId, base: map<Path, Fact>,
                            n: SnapshotId, paths: set<Path>)
  {
    RootFacts(files, root) == Overlay(tree, root, base, n, paths) && SeenIsPresent(files, root, n)
  }

  ghost predicate FilesOk(tree: Tree, plan: Plan, base: map<Path, Fact>, sid: SessionId, s: System) {
    && sid in s.db.sessions && TablesOk(s.db) && Alone(sid, s)
    && RecordsOk(tree, s.db.files, s.db.sessions[sid].root, base, s.db.sessions[sid].snapshot,
                 SeenPaths(tree, plan, sid, s))
  }

  predicate OlderOrForeign(db: Database, sid: SessionId, m: SnapshotId)
    requires sid in db.sessions && db.sessions[sid].snapshot in db.snapshots && m in db.snapshots
  {
    || db.snapshots[m].root != db.sessions[sid].root
    || db.snapshots[m].generation < db.snapshots[db.sessions[sid].snapshot].generation
  }

  /** The session's snapshot is of the newest generation of its root. */
  ghost predicate Newest(db: Database, sid: SessionId)
    requires sid in db.sessions
  {
    && db.sessions[sid].snapshot in db.snapshots
    && forall m | m in db.snapshots && m != db.sessions[sid].snapshot :: OlderOrForeign(db, sid, m)
  }

  /** The session keeps its root and snapshot, and nothing of the root's records changed. */
  ghost predicate FilesUntouched(s: System, s': System, sid: SessionId) {
    && sid in s.db.sessions && sid in s'.db.sessions
    && s'.db.sessions[sid].root == s.db.sessions[sid].root
    && s'.db.sessions[sid].snapshot == s.db.sessions[sid].snapshot
    && History(s', sid) == History(s, sid)
    && SameRoot(s.db.files, s'.db.files, s.db.sessions[sid].root)
  }

  lemma UntouchedKeeps(tree: Tree, plan: Plan, base: map<Path, Fact>, sid: SessionId, s: System, s': System)
    requires FilesOk(tree, plan, base, sid, s) && FilesUntouched(s, s', sid) && TablesOk(s'.db) && Alone(sid, s')
    ensures FilesOk(tree, plan, base, sid, s')
  {
    SameRootFacts(s.db.files, s'.db.files, s.db.sessions[sid].root, s.db.sessions[sid].snapshot);
  }

  lemma ApplyOverlaysRecords(tree: Tree, plan: Plan, files: map<FileKey, FileRecord>, root: RootId,
                             base: map<Path, Fact>, n: SnapshotId, log: seq<Key>, key: Key)
    requires key in plan && RecordsOk(tree, files, root, base, n, TallyKeys(tree, root, plan, log).paths)
    ensures RecordsOk(tree, UpsertAll(files, root, n, BatchOf(tree, root, plan[key].paths, plan[key].errors).files),
                      root, base, n, TallyKeys(tree, root, plan, log + [key]).paths)
  {
    var os := BatchOf(tree, root, plan[key].paths, plan[key].errors).files;
    ObservedSizes(tree, root, FO.PathsFromPayload(plan[key].paths));
    UpsertOverlays(tree, files, root, n, os);
    UpsertMarksPresent(files, root, n, os);
    OverlayTwice(tree, root, base, n, TallyKeys(tree, root, plan, log).paths, PathsOf(os));
    assert (log + [key])[..|log|] == log;
  }

  lemma ApplyKeepsTables(tree: Tree, sid: SessionId, s: System, w: WorkerId)
    requires Enabled(s, Apply(w)) && sid in s.db.sessions && TablesOk(s.db) && Alone(sid, s)
    ensures TablesOk(ApplyStep(tree, s, w).db) && Alone(sid, ApplyStep(tree, s, w))
  {
    var s' := ApplyStep(tree, s, w);
    assert s'.db.snapshots == s.db.snapshots && s'.runner.Some? && s'.runner.value.sid == s.runner.value.sid;
  }

  lemma ApplyOverlays(tree: Tree, plan: Plan, base: map<Path, Fact>, sid: SessionId, s: System, w: WorkerId)
    requires Enabled(s, Apply(w)) && SessionOk(tree, plan, sid, s) && FilesOk(tree, plan, base, sid, s) && Mine(s, sid)
    ensures FilesOk(tree, plan, base, sid, ApplyStep(tree, s, w))
  {
    var r, session := s.runner.value, s.db.sessions[sid];
    var claimed := r.workers[w].claimed;
    assert HolderOk(Queue(s.db, sid), w, r.workers[w]);
    assert RowOk(plan[claimed.key], Queue(s.db, sid)[r.workers[w].row]);
    ApplyOverlaysRecords(tree, plan, s.db.files, session.root, base, session.snapshot, History(s, sid), claimed.key);
    ApplyKeepsTables(tree, sid, s, w);
  }

  lemma ForeignApply(tree: Tree, plan: Plan, base: map<Path, Fact>, sid: SessionId, s: System, w: WorkerId)
    requires Enabled(s, Apply(w)) && FilesOk(tree, plan, base, sid, s) && !Mine(s, sid)
    ensures FilesOk(tree, plan, base, sid, ApplyStep(tree, s, w))
  {
    var r := s.runner.value;
    var session, row := s.db.sessions[r.sid], r.workers[w].claimed;
    var b := BatchOf(tree, session.root, row.payload.value, row.errors);
    UpsertOtherRoot(s.db.files, s.db.sessions[sid].root, session.root, session.snapshot, b.files);
    ApplyKeepsTables(tree, sid, s, w);
    UntouchedKeeps(tree, plan, base, sid, s, ApplyStep(tree, s, w));
  }

  lemma CommitKeepsTables(db: Database, sid: SessionId)
    requires TablesOk(db) && sid in db.sessions
    ensures TablesOk(CommitSession(db, sid))
  {
  }

  lemma CommitElsewhere(db: Database, x: SessionId, root: RootId)
    requires x in db.sessions ==> db.sessions[x].root != root
    ensures SameRoot(db.files, CommitSession(db, x).files, root)
  {
  }

  lemma OwnCommitKeepsFiles(tree: Tree, plan: Plan, base: map<Path, Fact>, sid: SessionId, s: System)
    requires Enabled(s, Finalize) && FilesOk(tree, plan, base, sid, s) && Mine(s, sid)
    requires s.runner.value.stopReason.None?
    ensures FilesOk(tree, plan, base, sid, FinalizeStep(s))
  {
    var session := s.db.sessions[sid];
    SweepFacts(s.db.files, session.root, session.snapshot);
    CommitKeepsTables(s.db, sid);
  }

  lemma ForeignCommitKeepsFiles(tree: Tree, plan: Plan, base: map<Path, Fact>, sid: SessionId, s: System)
    requires Enabled(s, Finalize) && FilesOk(tree, plan, base, sid, s) && !Mine(s, sid)
    requires s.runner.value.stopReason.None?
    ensures FilesOk(tree, plan, base, sid, FinalizeStep(s))
  {
    CommitKeepsTables(s.db, s.runner.value.sid);
    CommitElsewhere(s.db, s.runner.value.sid, s.db.sessions[sid].root);
    UntouchedKeeps(tree, plan, base, sid, s, FinalizeStep(s));
  }

  lemma InterruptedKeepsFiles(tree: Tree, plan: Plan, base: map<Path, Fact>, sid: SessionId, s: System)
    requires Enabled(s, Finalize) && FilesOk(tree, plan, base, sid, s) && s.runner.value.stopReason.Some?
    ensures FilesOk(tree, plan, base, sid, FinalizeStep(s))
  {
    var s' := FinalizeStep(s);
    InterruptKeepsShape(s.db, s.runner.value.sid, s.runner.value.stopReason.value);
    assert SameShape(s.db, s'.db) && s'.db.files == s.db.files && s'.applied == s.applied && s'.runner.None?;
    UntouchedKeeps(tree, plan, base, sid, s, s');
  }

  lemma FinalizeKeepsFiles(tree: Tree, plan: Plan, base: map<Path, Fact>, sid: SessionId, s: System)
    requires Enabled(s, Finalize) && FilesOk(tree, plan, base, sid, s)
    ensures FilesOk(tree, plan, base, sid, FinalizeStep(s))
  {
    if s.runner.value.stopReason.Some? {
      InterruptedKeepsFiles(tree, plan, base, sid, s);
    } else if Mine(s, sid) {
      OwnCommitKeepsFiles(tree, plan, base, sid, s);
    } else {
      ForeignCommitKeepsFiles(tree, plan, base, sid, s);
    }
  }

  /** Every step but an apply and a commit leaves all file records alone. */
  predicate LeavesFiles(l: Label) {
    !l.Apply? && !l.Finalize?
  }

  lemma ShapeKeepsTables(db: Database, db': Database)
    requires TablesOk(db) && SameShape(db, db')
    ensures TablesOk(db')
  {
  }

  lemma QuietWorkerFiles(tree: Tree, sid: SessionId, s: System, l: Label)
    requires Enabled(s, l) && sid in s.db.sessions && LeavesFiles(l) && TablesOk(s.db) && Alone(sid, s) && WorkerStep(l)
    ensures FilesUntouched(s, Next(tree, s, l), sid)
    ensures TablesOk(Next(tree, s, l).db) && Alone(sid, Next(tree, s, l))
  {
    var s' := WorkerNext(tree, s, l);
    WorkerKeepsShape(tree, s, l);
    ShapeKeepsTables(s.db, s'.db);
    QuietWorkerEffects(tree, s, l);
  }

  lemma SignalFiles(tree: Tree, sid: SessionId, s: System, l: Label)
    requires Enabled(s, l) && sid in s.db.sessions && TablesOk(s.db) && Alone(sid, s)
    requires !WorkerStep(l) && !StartsOrEnds(l)
    ensures FilesUntouched(s, Next(tree, s, l), sid)
    ensures TablesOk(Next(tree, s, l).db) && Alone(sid, Next(tree, s, l))
  {
    var s' := Next(tree, s, l);
    assert s'.db.sessions == s.db.sessions && s'.db.snapshots == s.db.snapshots && s'.db.files == s.db.files;
    assert s'.runner.Some? ==> s.runner.Some? && s'.runner.value.sid == s.runner.value.sid;
  }

  lemma CreateFiles(sid: SessionId, s: System, l: Label)
    requires l.Create? && EdgeEnabled(s, l) && sid in s.db.sessions && TablesOk(s.db) && IsolatedStep(sid, s, l)
    ensures FilesUntouched(s, EdgeNext(s, l), sid) && TablesOk(EdgeNext(s, l).db) && Alone(sid, EdgeNext(s, l))
  {
  }

  lemma StartOrEndFiles(tree: Tree, sid: SessionId, s: System, l: Label)
    requires Enabled(s, l) && sid in s.db.sessions && LeavesFiles(l) && TablesOk(s.db) && Alone(sid, s)
    requires IsolatedStep(sid, s, l) && StartsOrEnds(l)
    ensures FilesUntouched(s, Next(tree, s, l), sid)
    ensures TablesOk(Next(tree, s, l).db) && Alone(sid, Next(tree, s, l))
  {
    if l.Create? {
      CreateFiles(sid, s, l);
    } else {
      var s' := EdgeNext(s, l);
      EdgeKeepsShape(s, l);
      ShapeKeepsTables(s.db, s'.db);
      EdgeEffects(s, l);
    }
  }

  lemma QuietControlFiles(tree: Tree, sid: SessionId, s: System, l: Label)
    requires Enabled(s, l) && sid in s.db.sessions && LeavesFiles(l) && TablesOk(s.db) && Alone(sid, s)
    requires IsolatedStep(sid, s, l) && !WorkerStep(l)
    ensures FilesUntouched(s, Next(tree, s, l), sid)
    ensures TablesOk(Next(tree, s, l).db) && Alone(sid, Next(tree, s, l))
  {
    if StartsOrEnds(l) { StartOrEndFiles(tree, sid, s, l); } else { SignalFiles(tree, sid, s, l); }
  }

  lemma StepKeepsFiles(tree: Tree, plan: Plan, base: map<Path, Fact>, sid: SessionId, s: System, l: Label)
    requires Enabled(s, l) && SessionOk(tree, plan, sid, s) && FilesOk(tree, plan, base, sid, s)
    requires IsolatedStep(sid, s, l)
    ensures FilesOk(tree, plan, base, sid, Next(tree, s, l))
  {
    if l.Finalize? {
      FinalizeKeepsFiles(tree, plan, base, sid, s);
    } else if !l.Apply? {
      if WorkerStep(l) { QuietWorkerFiles(tree, sid, s, l); } else { QuietControlFiles(tree, sid, s, l); }
      UntouchedKeeps(tree, plan, base, sid, s, Next(tree, s, l));
    } else if Mine(s, sid) {
      ApplyOverlays(tree, plan, base, sid, s, l.w);
    } else {
      ForeignApply(tree, plan, base, sid, s, l.w);
    }
  }

  lemma ShapeKeepsNewest(db: Database, db': Database, sid: SessionId)
    requires sid in db.sessions && Newest(db, sid) && SameShape(db, db')
    ensures Newest(db', sid)
  {
    forall m | m in db'.snapshots && m != db'.sessions[sid].snapshot ensures OlderOrForeign(db', sid, m) {
      assert OlderOrForeign(db, sid, m);
    }
  }

  lemma SignalsKeepNewest(tree: Tree, sid: SessionId, s: System, l: Label)
    requires Enabled(s, l) && sid in s.db.sessions && Newest(s.db, sid) && !WorkerStep(l) && !StartsOrEnds(l)
    ensures sid in Next(tree, s, l).db.sessions && Newest(Next(tree, s, l).db, sid)
  {
    var s' := Next(tree, s, l);
    assert s'.db.sessions == s.db.sessions && s'.db.snapshots == s.db.snapshots;
    forall m | m in s'.db.snapshots && m != s'.db.sessions[sid].snapshot ensures OlderOrForeign(s'.db, sid, m) {
      assert OlderOrForeign(s.db, sid, m);
    }
  }

  lemma CreateKeepsNewest(sid: SessionId, s: System, l: Label)
    requires l.Create? && EdgeEnabled(s, l) && sid in s.db.sessions && Newest(s.db, sid) && IsolatedStep(sid, s, l)
    ensures sid in EdgeNext(s, l).db.sessions && Newest(EdgeNext(s, l).db, sid)
  {
    var db' := EdgeNext(s, l).db;
    forall m | m in db'.snapshots && m != db'.sessions[sid].snapshot ensures OlderOrForeign(db', sid, m) {
      if m in s.db.snapshots { assert OlderOrForeign(s.db, sid, m); }
    }
  }

  /** A newer generation of the root only appears when a session of the root is created. */
  lemma StepKeepsNewest(tree: Tree, sid: SessionId, s: System, l: Label)
    requires Enabled(s, l) && sid in s.db.sessions && Newest(s.db, sid) && IsolatedStep(sid, s, l)
    ensures sid in Next(tree, s, l).db.sessions && Newest(Next(tree, s, l).db, sid)
  {
    if WorkerStep(l) {
      WorkerKeepsShape(tree, s, l);
      ShapeKeepsNewest(s.db, WorkerNext(tree, s, l).db, sid);
    } else if l.Create? {
      CreateKeepsNewest(sid, s, l);
    } else if StartsOrEnds(l) {
      EdgeKeepsShape(s, l);
      ShapeKeepsNewest(s.db, EdgeNext(s, l).db, sid);
    } else {
      SignalsKeepNewest(tree, sid, s, l);
    }
  }
}
