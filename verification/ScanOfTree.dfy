/** From the file tree to the committed snapshot: the records of a clean commit are the tree's files. */
module ScanOfTree {
  import opened Basics
  import opened CatalogTables
  import opened Ordering
  import opened WorkItems
  import opened Balancing
  import opened DirectoryWalk
  import opened ScanProtocol
  import opened ScanInvariant
  import opened ScanFiles
  import opened ScanTheorems
  import opened ScanReaders
  import opened ScanBounds
  import opened ScanPlan
  import C = ControllerState
  import FO = FileObservation

  // ----- the plan of a tree -----

  lemma {:induction false} FilesAre(items: seq<WorkItem>, p: Path)
    ensures p in Files(items) <==> exists i :: 0 <= i < |items| && p in items[i].paths
  {
    if items != [] {
      var n := |items| - 1;
      FilesAre(items[..n], p);
      if i :| 0 <= i < |items| && p in items[i].paths { assert i < n ==> items[..n][i] == items[i]; }
    }
  }

  lemma {:induction false} DistinctFiles(items: seq<WorkItem>, i: nat, j: nat, p: Path)
    requires Distinct(Files(items)) && i <= j < |items|
    ensures Distinct(items[i].paths)
    ensures i < j && p in items[i].paths ==> p !in items[j].paths
  {
    var n := |items| - 1;
    DistinctSplit(Files(items[..n]), items[n].paths);
    if j < n {
      DistinctFiles(items[..n], i, j, p);
    } else if i < n {
      DistinctFiles(items[..n], i, i, p);
      assert items[..n][i] == items[i];
      FilesAre(items[..n], p);
    }
  }

  lemma PlanItemOf(items: seq<WorkItem>, k: Key) returns (i: nat)
    requires Distinct(ItemKeys(items)) && k in PlanFrom(items)
    ensures i < |items| && items[i].key == k && PlanFrom(items)[k] == PlanItem(items[i].paths, items[i].errors)
  {
    PlanHolds(items);
    i :| 0 <= i < |items| && ItemKeys(items)[i] == k;
  }

  lemma DistinctItemsDisjointPlan(items: seq<WorkItem>)
    requires Distinct(ItemKeys(items)) && Distinct(Files(items))
    ensures DisjointPlan(PlanFrom(items))
  {
    var plan := PlanFrom(items);
    forall k | k in plan ensures Distinct(plan[k].paths) {
      var i := PlanItemOf(items, k);
      DistinctFiles(items, i, i, "");
    }
    forall k, k', p | k in plan && k' in plan && k != k' && p in plan[k].paths ensures p !in plan[k'].paths {
      var i := PlanItemOf(items, k);
      var j := PlanItemOf(items, k');
      if i < j { DistinctFiles(items, i, j, p); } else { DistinctFiles(items, j, i, p); }
    }
  }

  /** What the other results ask of a plan holds of every plan that a tree defines. */
  lemma TreePlanIsGood(fs: FileTree, n: nat)
    requires Defines(fs, n)
    ensures DisjointPlan(PlanFrom(WalkItems(fs, n))) && SmallBatches(PlanFrom(WalkItems(fs, n)))
  {
    var items := WalkItems(fs, n);
    WalkPartitionsTree(fs, n);
    PlanKeysDistinct(fs, n);
    DistinctItemsDisjointPlan(items);
    forall k | k in PlanFrom(items) ensures |PlanFrom(items)[k].paths| <= CHUNK_SIZE {
      var i := PlanItemOf(items, k);
    }
  }

  // ----- planned batches are sorted -----

  lemma ChunkIsSorted(v: Visit, i: nat)
    requires Sorted(StringLe, v.files) && i < |VisitItems(v)|
    ensures Sorted(StringLe, VisitItems(v)[i].paths)
  {
    var c := Chunk(v.files, i);
    if v.files != [] {
      forall x, y | 0 <= x < y < |c| ensures StringLe(c[x], c[y]) {
        assert c[x] == v.files[i * CHUNK_SIZE + x] && c[y] == v.files[i * CHUNK_SIZE + y];
      }
    }
  }

  /** The batches a tree gives come sorted, so observing them sorts nothing: the recorded order is the
      planned order. */
  lemma PlannedBatchesAreSorted(fs: FileTree, n: nat, item: WorkItem)
    requires item in WalkItems(fs, n)
    ensures Sorted(StringLe, FO.PathsFromPayload(item.paths))
  {
    ItemOfVisit(fs, Walk(fs, n).visited, item);
    var d :| d in Walk(fs, n).visited && item in VisitItems(VisitOf(fs, d));
    var v := VisitOf(fs, d);
    if ListingOf(fs, d).Listed? { SortedStrings(FilesAmong(d, Entries(ListingOf(fs, d)))); }
    var i :| 0 <= i < |VisitItems(v)| && VisitItems(v)[i] == item;
    ChunkIsSorted(v, i);
    FO.PayloadKeepsOrder(item.paths);
  }

  // ----- what is seen -----

  lemma {:induction false} ObservedPaths(tree: Tree, root: RootId, paths: seq<Path>, p: Path)
    ensures p in PathsOf(FO.Observe(tree, root, paths).files) <==> p in paths && FO.Look(tree, root, p).File?
  {
    if paths == [] {
      assert PathsOf([]) == {};
    } else {
      var init, last := paths[..|paths| - 1], paths[|paths| - 1];
      assert paths == init + [last];
      ObservedPaths(tree, root, init, p);
      if FO.Look(tree, root, last).File? {
        PathsOfAppend(FO.Observe(tree, root, init).files, Observation(last, FO.Look(tree, root, last).size));
      }
    }
  }

  ghost predicate ListedBy(plan: Plan, keys: seq<Key>, p: Path) {
    exists k :: k in keys && k in plan && p in plan[k].paths
  }

  lemma ListedByOneMore(plan: Plan, keys: seq<Key>, k: Key, p: Path)
    ensures ListedBy(plan, keys + [k], p) <==> ListedBy(plan, keys, p) || (k in plan && p in plan[k].paths)
  {
    if k in plan && p in plan[k].paths { assert k in keys + [k]; }
    if x :| x in keys && x in plan && p in plan[x].paths { assert x in keys + [k]; }
  }

  lemma {:induction false} TalliedPaths(tree: Tree, root: RootId, plan: Plan, keys: seq<Key>, p: Path)
    ensures p in TallyKeys(tree, root, plan, keys).paths <==>
            ListedBy(plan, keys, p) && !FO.IsBlank(p) && FO.Look(tree, root, p).File?
  {
    if keys != [] {
      var init, k := keys[..|keys| - 1], keys[|keys| - 1];
      assert keys == init + [k];
      TalliedPaths(tree, root, plan, init, p);
      ListedByOneMore(plan, init, k, p);
      if k in plan { ObservedPaths(tree, root, FO.PathsFromPayload(plan[k].paths), p); }
    }
  }

  /** The files a scan records: reachable, with a name that is not all blanks, and readable by stat. */
  ghost predicate Recordable(fs: FileTree, tree: Tree, root: RootId, p: Path) {
    IsTreeFile(fs, p) && !FO.IsBlank(p) && FO.Look(tree, root, p).File?
  }

  lemma PlanListsTree(fs: FileTree, n: nat, keys: seq<Key>, p: Path)
    requires Defines(fs, n) && Enumerates(keys, PlanFrom(WalkItems(fs, n)))
    ensures ListedBy(PlanFrom(WalkItems(fs, n)), keys, p) <==> IsTreeFile(fs, p)
  {
    var items := WalkItems(fs, n);
    var plan := PlanFrom(items);
    WalkPartitionsTree(fs, n);
    PlanKeysDistinct(fs, n);
    FilesAre(items, p);
    PlanHolds(items);
    if k :| k in keys && k in plan && p in plan[k].paths {
      var i := PlanItemOf(items, k);
    }
    if i :| 0 <= i < |items| && p in items[i].paths {
      assert items[i].key in plan;
    }
  }

  // ----- runs over a tree -----

  /** Every preparation in the run hands over what discovery of the tree gives, with the directories
      listed in whatever order; only an interrupted one may be incomplete. */
  ghost predicate Discovered(fs: FileTree, items: seq<Prepared>, complete: bool) {
    exists fs', m :: GoodNames(fs') && SameTree(fs, fs') && (complete ==> Walk(fs', m).stack == [])
      && items == Balanced(WalkItems(fs', m))
  }

  ghost predicate OfTree(fs: FileTree, l: Label) {
    match l
    case Prepare(items, _) => Discovered(fs, items, true)
    case PrepareInterrupted(items, _) => Discovered(fs, items, false)
    case _ => true
  }

  lemma DiscoveredFits(fs: FileTree, n: nat, items: seq<Prepared>, complete: bool)
    requires Defines(fs, n) && Discovered(fs, items, complete)
    ensures var plan := PlanFrom(WalkItems(fs, n)); Fits(plan, items) && (complete ==> FitsAll(plan, items))
  {
    var fs', m :| GoodNames(fs') && SameTree(fs, fs') && (complete ==> Walk(fs', m).stack == [])
      && items == Balanced(WalkItems(fs', m));
    PreparationFits(fs, n, fs', m);
  }

  lemma OfTreeIsPlanned(fs: FileTree, n: nat, sid: SessionId, s: System, l: Label)
    requires Defines(fs, n) && OfTree(fs, l)
    ensures Planned(PlanFrom(WalkItems(fs, n)), sid, s, l)
  {
    if l.Prepare? { DiscoveredFits(fs, n, l.items, true); }
    if l.PrepareInterrupted? { DiscoveredFits(fs, n, l.items, false); }
  }

  /** A run in which the root's tree stays as it is and no other session of the root is used. */
  ghost predicate TreeRun(fs: FileTree, tree: Tree, sid: SessionId, s: System, ls: seq<Label>)
    requires IsRun(tree, s, ls)
    decreases |ls|
  {
    ls == [] || (
      && sid in s.db.sessions && OfTree(fs, ls[0]) && IsolatedStep(sid, s, ls[0])
      && TreeRun(fs, tree, sid, Next(tree, s, ls[0]), ls[1..]))
  }

  lemma {:induction false} TreeRunIsFaithful(fs: FileTree, n: nat, tree: Tree, sid: SessionId, s: System, ls: seq<Label>)
    requires Defines(fs, n) && IsRun(tree, s, ls) && TreeRun(fs, tree, sid, s, ls)
    ensures Faithful(tree, PlanFrom(WalkItems(fs, n)), sid, s, ls)
    decreases |ls|
  {
    if ls != [] {
      OfTreeIsPlanned(fs, n, sid, s, ls[0]);
      TreeRunIsFaithful(fs, n, tree, sid, Next(tree, s, ls[0]), ls[1..]);
    }
  }

  /** The paths seen by a session that is about to commit cleanly. */
  lemma CleanCommitSawTree(fs: FileTree, n: nat, tree: Tree, sid: SessionId, t: System, p: Path)
    requires Defines(fs, n) && SessionOk(tree, PlanFrom(WalkItems(fs, n)), sid, t) && Mine(t, sid) && CleanCommit(t)
    ensures p in SeenPaths(tree, PlanFrom(WalkItems(fs, n)), sid, t) <==>
            Recordable(fs, tree, t.db.sessions[sid].root, p)
  {
    var plan, root := PlanFrom(WalkItems(fs, n)), t.db.sessions[sid].root;
    var w :| 0 <= w < |t.runner.value.workers| && t.runner.value.workers[w].Exited?
      && C.Worker(w) !in t.runner.value.controller.stopped;
    CommitIsDrainedIff(tree, plan, sid, t, w);
    var keys := EnumeratePlan(plan);
    DrainedMeansPlanApplied(tree, plan, sid, t, keys);
    TallyPermuted(tree, root, plan, History(t, sid), keys);
    TalliedPaths(tree, root, plan, keys, p);
    PlanListsTree(fs, n, keys, p);
  }

  /** The latest-files query lists exactly these files, with their true sizes. */
  ghost predicate ListsTree(fs: FileTree, tree: Tree, root: RootId, db: Database) {
    && (forall p :: FileKey(root, p) in LatestFiles(db, root) <==> Recordable(fs, tree, root, p))
    && (forall k :: k in LatestFiles(db, root) ==> k.root == root && FO.Look(tree, root, k.path) == File(db.files[k].size)
                                                   && db.files[k].zeroByte == (db.files[k].size == 0))
  }

  lemma RecordsAreTrue(fs: FileTree, tree: Tree, files: map<FileKey, FileRecord>, root: RootId, base: map<Path, Fact>,
                       n: SnapshotId, paths: set<Path>, k: FileKey)
    requires RecordsOk(tree, files, root, base, n, paths) && Unseen(base, n) && k in SeenIn(files, root, n)
    requires forall p :: p in paths ==> Recordable(fs, tree, root, p)
    ensures FO.Look(tree, root, k.path) == File(files[k].size) && files[k].zeroByte == (files[k].size == 0)
  {
    SeenAreApplied(tree, files, root, base, n, paths);
    assert k == FileKey(root, k.path) && RootFacts(files, root)[k.path] == FactOf(files[k]);
  }

  lemma CleanCommitListsTree(fs: FileTree, n: nat, tree: Tree, base: map<Path, Fact>, sid: SessionId, t: System)
    requires Defines(fs, n) && AllOk(tree, PlanFrom(WalkItems(fs, n)), base, sid, t) && Mine(t, sid) && CleanCommit(t)
    requires Unseen(base, t.db.sessions[sid].snapshot)
    ensures ListsTree(fs, tree, t.db.sessions[sid].root, FinalizeStep(t).db)
  {
    var plan, root, n' := PlanFrom(WalkItems(fs, n)), t.db.sessions[sid].root, t.db.sessions[sid].snapshot;
    var db, paths := FinalizeStep(t).db, SeenPaths(tree, plan, sid, t);
    TreePlanIsGood(fs, n);
    CommitAgreesWithReaders(tree, plan, base, sid, t);
    SweepFacts(t.db.files, root, n');
    SeenAreApplied(tree, db.files, root, base, n', paths);
    forall p ensures p in paths <==> Recordable(fs, tree, root, p) { CleanCommitSawTree(fs, n, tree, sid, t, p); }
    forall k | k in LatestFiles(db, root)
      ensures FO.Look(tree, root, k.path) == File(db.files[k].size) && db.files[k].zeroByte == (db.files[k].size == 0)
    {
      RecordsAreTrue(fs, tree, db.files, root, base, n', paths, k);
    }
  }

  /** From the tree to the readers: however a scan of the tree was interleaved, interrupted and
      resumed, after a clean commit the latest-files query lists exactly the tree's recordable files
      with their sizes, and the snapshot's item count is their number. */
  lemma CommittedScanListsTree(fs: FileTree, n: nat, tree: Tree, s: System, l: Label, ls: seq<Label>)
    requires Defines(fs, n) && Enabled(s, l) && l.Create? && TablesOk(s.db) && RecordsReferToSnapshots(s.db)
    requires IsRun(tree, Next(tree, s, l), ls) && TreeRun(fs, tree, l.sid, Next(tree, s, l), ls)
    requires var t := After(tree, Next(tree, s, l), ls); CleanCommit(t) && Mine(t, l.sid)
    ensures var db := FinalizeStep(After(tree, Next(tree, s, l), ls)).db;
      && ListsTree(fs, tree, l.root, db)
      && l.snapshot in db.snapshots && db.snapshots[l.snapshot].itemCount == |LatestFiles(db, l.root)|
      && db.snapshots[l.snapshot].zeroByteCount == |LatestZeroByteFiles(db, l.root)|
  {
    var plan, base, s1 := PlanFrom(WalkItems(fs, n)), RootFacts(s.db.files, l.root), Next(tree, s, l);
    TreeRunIsFaithful(fs, n, tree, l.sid, s1, ls);
    CreatedSessionIsOk(tree, plan, s, l);
    RunKeepsAll(tree, plan, base, l.sid, s1, ls);
    CleanCommitListsTree(fs, n, tree, base, l.sid, After(tree, s1, ls));
    TreePlanIsGood(fs, n);
    CommittedRunAgreesWithReaders(tree, plan, s, l, ls);
  }

  /** A readable file whose name is all blanks is queued, and yet never recorded. */
  lemma BlankNameIsLost(tree: Tree, root: RootId, size: nat)
    requires FO.Look(tree, root, " ") == File(size)
    ensures var fs: FileTree := map["" := Listed([Regular(" ")])];
      && IsTreeFile(fs, " ") && !Recordable(fs, tree, root, " ")
      && WalkItems(fs, 1) == [WorkItem("", "", [" "], 0)]
      && BatchOf(tree, root, [" "], 0).files == []
  {
    var fs: FileTree := map["" := Listed([Regular(" ")])];
    var es := [Regular(" ")];
    assert es[..0] == [];
    assert FilesAmong("", es) == [" "];
    assert IsWay(fs, [""]) && [""][0] == "";
    assert VisitOf(fs, "").files == [" "];
    assert " " in DirFiles(fs, "");
    var visited := Walk(fs, 1).visited;
    assert Walk(fs, 0) == START;
    assert visited == [""];
    var vs := VisitsOf(fs, visited);
    assert vs == [Visit("", [" "], 0)];
    assert vs[..0] == [];
    assert AllItems(vs) == [] + VisitItems(vs[0]);
    assert VisitItems(vs[0]) == [WorkItem("", "", [" "], 0)];
    assert |" "| == 1 && " "[0] == ' ' && FO.IsSpace(' ');
    assert FO.IsBlank(" ");
    var payload := [" "];
    assert payload[..0] == [];
    assert FO.PathsFromPayload(payload) == [];
  }
}
