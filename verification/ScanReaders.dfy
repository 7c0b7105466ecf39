/** A committed snapshot and the queries that read the catalog back. */
module ScanReaders {
  import opened Basics
  import opened CatalogTables
  import opened ScanProtocol
  import opened ScanInvariant
  import opened ScanFiles
  import opened ScanTheorems
  import FO = FileObservation

  // ----- counting files: one record per observation -----

  /** No path is listed twice, neither inside an item nor in two items. */
  ghost predicate DisjointPlan(plan: Plan) {
    && (forall k :: k in plan ==> Distinct(plan[k].paths))
    && (forall k, k', p :: k in plan && k' in plan && k != k' && p in plan[k].paths ==> p !in plan[k'].paths)
  }

  lemma {:induction false} PayloadDistinct(payload: seq<Path>)
    requires Distinct(payload)
    ensures Distinct(FO.PathsFromPayload(payload))
  {
    if payload != [] {
      var init, p := payload[..|payload| - 1], payload[|payload| - 1];
      assert payload == init + [p];
      DistinctSplit(init, [p]);
      PayloadDistinct(init);
      DistinctSplit(FO.PathsFromPayload(init), [p]);
    }
  }

  lemma {:induction false} ObservedOnce(tree: Tree, root: RootId, paths: seq<Path>)
    requires Distinct(paths)
    ensures var os := FO.Observe(tree, root, paths).files;
      |PathsOf(os)| == |os| && forall p :: p in PathsOf(os) ==> p in paths
  {
    if paths == [] {
      assert PathsOf([]) == {};
    } else {
      var init, p := paths[..|paths| - 1], paths[|paths| - 1];
      assert paths == init + [p];
      DistinctSplit(init, [p]);
      ObservedOnce(tree, root, init);
      var os := FO.Observe(tree, root, init).files;
      assert p !in PathsOf(os);
      if FO.Look(tree, root, p).File? { PathsOfAppend(os, Observation(p, FO.Look(tree, root, p).size)); }
    }
  }

  /** The paths of a tally come from the items of its keys. */
  ghost predicate FromKeys(plan: Plan, keys: seq<Key>, paths: set<Path>) {
    forall p :: p in paths ==> exists k :: k in keys && k in plan && p in plan[k].paths
  }

  lemma ItemPaths(tree: Tree, root: RootId, item: PlanItem)
    requires Distinct(item.paths)
    ensures TallyItem(tree, root, item).files == |TallyItem(tree, root, item).paths|
    ensures forall p :: p in TallyItem(tree, root, item).paths ==> p in item.paths
  {
    PayloadDistinct(item.paths);
    ObservedOnce(tree, root, FO.PathsFromPayload(item.paths));
  }

  /** The file count of distinct keys of a disjoint plan is the number of distinct paths. */
  lemma {:induction false} FilesArePaths(tree: Tree, root: RootId, plan: Plan, keys: seq<Key>)
    requires DisjointPlan(plan) && Distinct(keys)
    ensures var t := TallyKeys(tree, root, plan, keys); t.files == |t.paths| && FromKeys(plan, keys, t.paths)
  {
    if keys != [] {
      var init, k := keys[..|keys| - 1], keys[|keys| - 1];
      assert keys == init + [k];
      DistinctSplit(init, [k]);
      FilesArePaths(tree, root, plan, init);
      var t, u := TallyKeys(tree, root, plan, init), TallyKey(tree, root, plan, k);
      if k in plan { ItemPaths(tree, root, plan[k]); }
      forall p | p in u.paths ensures p !in t.paths { }
      assert |t.paths + u.paths| == |t.paths| + |u.paths|;
    }
  }

  // ----- the readers after a commit -----

  function Keyed(root: RootId, paths: set<Path>): set<FileKey> {
    set p | p in paths :: FileKey(root, p)
  }

  lemma {:induction false} KeyedSize(root: RootId, paths: set<Path>)
    ensures |Keyed(root, paths)| == |paths|
    decreases |paths|
  {
    if paths != {} {
      var p :| p in paths;
      KeyedSize(root, paths - {p});
      assert Keyed(root, paths) == Keyed(root, paths - {p}) + {FileKey(root, p)};
    }
  }

  /** The records last seen under the session's snapshot are exactly the paths it applied. */
  lemma SeenAreApplied(tree: Tree, files: map<FileKey, FileRecord>, root: RootId, base: map<Path, Fact>, n: SnapshotId,
                       paths: set<Path>)
    requires RecordsOk(tree, files, root, base, n, paths) && Unseen(base, n)
    ensures SeenIn(files, root, n) == Keyed(root, paths)
  {
    var facts := RootFacts(files, root);
    forall k ensures k in SeenIn(files, root, n) <==> k in Keyed(root, paths) {
      if k.root == root {
        assert k == FileKey(root, k.path);
        assert k in files <==> k.path in facts;
      }
    }
  }

  ghost function MarkedPresent(files: map<FileKey, FileRecord>, root: RootId): set<FileKey> {
    set k | k in files && k.root == root && files[k].presence.Present?
  }

  lemma CommittedIsLatest(db: Database, sid: SessionId)
    requires TablesOk(db) && sid in db.sessions && Newest(db, sid)
    ensures IsLatestCurrent(CommitSession(db, sid), db.sessions[sid].root, db.sessions[sid].snapshot)
  {
    var db', root := CommitSession(db, sid), db.sessions[sid].root;
    forall m | IsCurrent(db', root, m)
      ensures db'.snapshots[m].generation <= db'.snapshots[db.sessions[sid].snapshot].generation
    {
      if m != db.sessions[sid].snapshot { assert OlderOrForeign(db, sid, m); }
    }
  }

  /** Only one snapshot can be the latest when generations of a root differ. */
  lemma LatestFilesAre(db: Database, sid: SessionId)
    requires TablesOk(db) && sid in db.sessions && Newest(db, sid)
    ensures var db' := CommitSession(db, sid);
      var session := db.sessions[sid];
      && LatestFiles(db', session.root) == SeenIn(db'.files, session.root, session.snapshot)
      && LatestZeroByteFiles(db', session.root) == ZeroBytesIn(db'.files, session.root, session.snapshot)
  {
    var db', session := CommitSession(db, sid), db.sessions[sid];
    CommittedIsLatest(db, sid);
    forall m | m != session.snapshot ensures !IsLatestCurrent(db', session.root, m) {
      if m in db.snapshots { assert OlderOrForeign(db, sid, m); }
    }
  }

  /** Commit agrees with its readers: while no other session of the root interferes, the committed
      item count, the records of the snapshot, the records marked present and the rows of the
      latest-files query are the same files, and the zero-byte count is the zero-byte query's. */
  lemma CommitAgreesWithReaders(tree: Tree, plan: Plan, base: map<Path, Fact>, sid: SessionId, s: System)
    requires AllOk(tree, plan, base, sid, s) && Mine(s, sid) && AboutToCommit(s)
    requires DisjointPlan(plan) && Unseen(base, s.db.sessions[sid].snapshot)
    ensures var db := FinalizeStep(s).db;
      var root, n := s.db.sessions[sid].root, s.db.sessions[sid].snapshot;
      && n in db.snapshots && db.snapshots[n].status.Committed?
      && LatestFiles(db, root) == SeenIn(db.files, root, n) == MarkedPresent(db.files, root)
      && db.snapshots[n].itemCount == |LatestFiles(db, root)|
      && db.snapshots[n].zeroByteCount == |LatestZeroByteFiles(db, root)|
  {
    var db, session, log := FinalizeStep(s).db, s.db.sessions[sid], History(s, sid);
    var root, n := session.root, session.snapshot;
    var paths := SeenPaths(tree, plan, sid, s);
    SeenAreApplied(tree, s.db.files, root, base, n, paths);
    SweepFacts(s.db.files, root, n);
    SeenAreApplied(tree, db.files, root, base, n, paths);
    FilesArePaths(tree, root, plan, log);
    KeyedSize(root, paths);
    LatestFilesAre(s.db, sid);
    ZeroBytesFromFacts(s.db.files, db.files, root, n);
    PresentAreSeen(s.db.files, root, n);
  }

  lemma PresentAreSeen(files: map<FileKey, FileRecord>, root: RootId, n: SnapshotId)
    requires SeenIsPresent(files, root, n)
    ensures MarkedPresent(SweepPresence(files, root, n), root) == SeenIn(SweepPresence(files, root, n), root, n)
  {
  }

  // ----- overlapping sessions -----

  /** A root's snapshots are of different generations. */
  ghost predicate DistinctGenerations(db: Database) {
    forall m, n :: m in db.snapshots && n in db.snapshots && m != n && db.snapshots[m].root == db.snapshots[n].root ==>
      db.snapshots[m].generation != db.snapshots[n].generation
  }

  /** A creation keeps the generations of a root apart exactly when the generation it was given is
      still unused; nothing in the schema refuses it otherwise. */
  lemma CreationKeepsGenerationsIff(db: Database, sid: SessionId, root: RootId, snapshot: SnapshotId, generation: nat)
    requires DistinctGenerations(db) && snapshot !in db.snapshots
    ensures DistinctGenerations(CreateSession(db, sid, root, snapshot, generation)) <==>
            forall n :: n in db.snapshots && db.snapshots[n].root == root ==> db.snapshots[n].generation != generation
  {
    var db' := CreateSession(db, sid, root, snapshot, generation);
    assert forall n :: n in db.snapshots ==> n in db'.snapshots && db'.snapshots[n] == db.snapshots[n];
    if n :| n in db.snapshots && db.snapshots[n].root == root && db.snapshots[n].generation == generation {
      assert db'.snapshots[n].generation == db'.snapshots[snapshot].generation;
    }
  }

  /** Two creations that both read the next generation before either writes share it; one after the
      other they do not. */
  lemma InterleavedCreationsShareGeneration(db: Database, a: SessionId, b: SessionId, root: RootId, m: SnapshotId,
                                            n: SnapshotId, first: nat, second: nat)
    requires DistinctGenerations(db) && m !in db.snapshots && n !in db.snapshots && m != n && a != b
    requires IsNextGeneration(db, root, first)
    ensures var one := CreateSession(db, a, root, m, first);
      && !DistinctGenerations(CreateSession(one, b, root, n, first))
      && (IsNextGeneration(one, root, second) ==> DistinctGenerations(CreateSession(one, b, root, n, second)))
  {
    var one := CreateSession(db, a, root, m, first);
    CreationKeepsGenerationsIff(db, a, root, m, first);
    CreationKeepsGenerationsIff(one, b, root, n, first);
    CreationKeepsGenerationsIff(one, b, root, n, second);
    assert one.snapshots[m].generation == first;
  }

  /** A current committed snapshot of the root that is of a newer generation than snapshot n. */
  predicate Newer(db: Database, root: RootId, n: SnapshotId, m: SnapshotId)
    requires n in db.snapshots
  {
    m != n && IsCurrent(db, root, m) && db.snapshots[m].generation > db.snapshots[n].generation
  }

  /** When sessions of a root do overlap, the readers see the files of this commit if and only if no
      current committed snapshot of the root is of a newer generation; otherwise they see none of them. */
  lemma ReadersSeeCommitIff(db: Database, sid: SessionId)
    requires TablesOk(db) && DistinctGenerations(db) && sid in db.sessions
    requires SeenIn(db.files, db.sessions[sid].root, db.sessions[sid].snapshot) != {}
    ensures var db', root, n := CommitSession(db, sid), db.sessions[sid].root, db.sessions[sid].snapshot;
      && (LatestFiles(db', root) == SeenIn(db'.files, root, n) <==> forall m :: !Newer(db, root, n, m))
      && ((exists m :: Newer(db, root, n, m)) ==> LatestFiles(db', root) !! SeenIn(db'.files, root, n))
  {
    var db', root, n := CommitSession(db, sid), db.sessions[sid].root, db.sessions[sid].snapshot;
    assert forall k :: k in db.files <==> k in db'.files;
    assert SeenIn(db'.files, root, n) == SeenIn(db.files, root, n);
    assert IsCurrent(db', root, n);
    if m :| Newer(db, root, n, m) {
      assert IsCurrent(db', root, m);
      assert !IsLatestCurrent(db', root, n);
      var k :| k in SeenIn(db'.files, root, n);
      assert k !in LatestFiles(db', root);
    } else {
      forall m | IsCurrent(db', root, m) && m != n ensures !IsLatestCurrent(db', root, m)
        && db'.snapshots[m].generation < db'.snapshots[n].generation
      {
        assert IsCurrent(db, root, m) && !Newer(db, root, n, m);
      }
      assert IsLatestCurrent(db', root, n);
    }
  }

  /** The snapshot list_latest_snapshots shows: of the greatest generation among all committed ones. */
  ghost predicate IsLatestCommitted(db: Database, root: RootId, n: SnapshotId) {
    && n in db.snapshots && db.snapshots[n].root == root && db.snapshots[n].status.Committed?
    && forall m :: m in db.snapshots && db.snapshots[m].root == root && db.snapshots[m].status.Committed? ==>
         db.snapshots[m].generation <= db.snapshots[n].generation
  }

  /** The snapshot list and the file queries name the same snapshot exactly when the listed one is
      flagged current; otherwise the files shown are of an older generation, or none. */
  lemma SnapshotListAgreesIff(db: Database, root: RootId, n: SnapshotId)
    requires IsLatestCommitted(db, root, n)
    ensures IsLatestCurrent(db, root, n) <==> IsCurrent(db, root, n)
    ensures DistinctGenerations(db) && !IsCurrent(db, root, n) ==>
              forall k :: k in LatestFiles(db, root) ==>
                db.snapshots[db.files[k].lastSeen].generation < db.snapshots[n].generation
  {
    forall m | IsCurrent(db, root, m) ensures db.snapshots[m].generation <= db.snapshots[n].generation { }
  }

  /** The same for a whole run from the creation of the session to its commit. */
  lemma CommittedRunAgreesWithReaders(tree: Tree, plan: Plan, s: System, l: Label, ls: seq<Label>)
    requires Enabled(s, l) && l.Create? && TablesOk(s.db) && RecordsReferToSnapshots(s.db) && DisjointPlan(plan)
    requires IsRun(tree, Next(tree, s, l), ls) && Faithful(tree, plan, l.sid, Next(tree, s, l), ls)
    requires var t := After(tree, Next(tree, s, l), ls); AboutToCommit(t) && Mine(t, l.sid)
    ensures var db := FinalizeStep(After(tree, Next(tree, s, l), ls)).db;
      && l.snapshot in db.snapshots
      && LatestFiles(db, l.root) == SeenIn(db.files, l.root, l.snapshot) == MarkedPresent(db.files, l.root)
      && db.snapshots[l.snapshot].itemCount == |LatestFiles(db, l.root)|
      && db.snapshots[l.snapshot].zeroByteCount == |LatestZeroByteFiles(db, l.root)|
  {
    CreatedSessionIsOk(tree, plan, s, l);
    var base := RootFacts(s.db.files, l.root);
    RunKeepsAll(tree, plan, base, l.sid, Next(tree, s, l), ls);
    CommitAgreesWithReaders(tree, plan, base, l.sid, After(tree, Next(tree, s, l), ls));
  }
}
