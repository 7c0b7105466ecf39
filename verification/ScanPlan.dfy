/** From the tree to the plan: the discovered work items partition the tree's files, do not depend on
    the order of directory listings, and every preparation of every resume fits the same plan. */
module ScanPlan {
  import opened Basics
  import opened CatalogTables
  import opened Ordering
  import opened WorkItems
  import opened Balancing
  import opened DirectoryWalk
  import opened ScanInvariant

  // ----- the files of the tree -----

  /** No directory lists two regular files of one name. */
  ghost predicate UniqueNames(fs: FileTree) {
    forall d :: d in fs ==> Distinct(FilesAmong(d, Entries(fs[d])))
  }

  function DirFiles(fs: FileTree, dir: Path): set<Path> {
    set p | p in VisitOf(fs, dir).files
  }

  /** The regular files that a complete walk can reach. */
  ghost predicate IsTreeFile(fs: FileTree, p: Path) {
    exists d :: Reachable(fs, d) && p in DirFiles(fs, d)
  }

  lemma {:induction false} FilesAmongAre(dir: Path, es: seq<Entry>, p: Path)
    ensures p in FilesAmong(dir, es) <==> exists e :: e in es && e.Regular? && Join(dir, e.name) == p
  {
    if es != [] {
      var n := |es| - 1;
      FilesAmongAre(dir, es[..n], p);
      assert forall e :: e in es <==> e in es[..n] || e == es[n];
    }
  }

  lemma FilesOfDifferentDirs(fs: FileTree, d: Path, d': Path, p: Path)
    requires GoodNames(fs) && p in DirFiles(fs, d) && p in DirFiles(fs, d')
    ensures d == d'
  {
    var es, es' := Entries(ListingOf(fs, d)), Entries(ListingOf(fs, d'));
    SortedStrings(FilesAmong(d, es));
    SortedStrings(FilesAmong(d', es'));
    FilesAmongAre(d, es, p);
    FilesAmongAre(d', es', p);
    var e :| e in es && e.Regular? && Join(d, e.name) == p;
    var e' :| e' in es' && e'.Regular? && Join(d', e'.name) == p;
    JoinIsInjective(d, e.name, d', e'.name);
  }

  lemma VisitFilesDistinct(fs: FileTree, dir: Path)
    requires UniqueNames(fs)
    ensures Distinct(VisitOf(fs, dir).files)
  {
    if ListingOf(fs, dir).Listed? && dir in fs { DistinctSort(FilesAmong(dir, Entries(fs[dir]))); }
  }

  ghost predicate InDirs(fs: FileTree, dirs: seq<Path>, p: Path) {
    exists d :: d in dirs && p in DirFiles(fs, d)
  }

  lemma InOneMoreDir(fs: FileTree, dirs: seq<Path>, d: Path, p: Path)
    ensures InDirs(fs, dirs + [d], p) <==> InDirs(fs, dirs, p) || p in VisitOf(fs, d).files
  {
    if p in DirFiles(fs, d) { assert d in dirs + [d]; }
    if InDirs(fs, dirs, p) {
      var d' :| d' in dirs && p in DirFiles(fs, d');
      assert d' in dirs + [d];
    }
  }

  lemma NotInOtherDirs(fs: FileTree, dirs: seq<Path>, d: Path, p: Path)
    requires GoodNames(fs) && d !in dirs && p in VisitOf(fs, d).files
    ensures !InDirs(fs, dirs, p)
  {
    assert p in DirFiles(fs, d);
    if d' :| d' in dirs && p in DirFiles(fs, d') { FilesOfDifferentDirs(fs, d, d', p); }
  }

  ghost predicate Partitions(fs: FileTree, dirs: seq<Path>, items: seq<WorkItem>) {
    && Distinct(Files(items))
    && (forall p :: p in Files(items) <==> InDirs(fs, dirs, p))
    && (forall i :: 0 <= i < |items| ==> |items[i].paths| <= CHUNK_SIZE)
  }

  lemma OneMorePartitioned(fs: FileTree, dirs: seq<Path>, d: Path, items: seq<WorkItem>)
    requires GoodNames(fs) && UniqueNames(fs) && d !in dirs && Partitions(fs, dirs, items)
    ensures Partitions(fs, dirs + [d], items + VisitItems(VisitOf(fs, d)))
  {
    var v := VisitOf(fs, d);
    var more := VisitItems(v);
    FilesConcat(items, more);
    DirectoryItemsPartition(v.dir, v.files, v.errors);
    VisitFilesDistinct(fs, d);
    forall p | p in v.files ensures p !in Files(items) { NotInOtherDirs(fs, dirs, d, p); }
    DistinctSplit(Files(items), v.files);
    forall p ensures p in Files(items + more) <==> InDirs(fs, dirs + [d], p) { InOneMoreDir(fs, dirs, d, p); }
  }

  /** The items of the visited directories hold exactly their files, each once. */
  lemma {:induction false} ItemsPartition(fs: FileTree, dirs: seq<Path>)
    requires GoodNames(fs) && UniqueNames(fs) && Distinct(dirs)
    ensures Partitions(fs, dirs, AllItems(VisitsOf(fs, dirs)))
  {
    if dirs == [] {
      assert AllItems(VisitsOf(fs, dirs)) == [];
    } else {
      var init, d := dirs[..|dirs| - 1], dirs[|dirs| - 1];
      assert dirs == init + [d];
      DistinctSplit(init, [d]);
      ItemsPartition(fs, init);
      ItemsOfOneMore(fs, init, d);
      OneMorePartitioned(fs, init, d, AllItems(VisitsOf(fs, init)));
    }
  }

  /** A complete walk partitions the reachable files into batches of at most 256. */
  lemma WalkPartitionsTree(fs: FileTree, n: nat)
    requires GoodNames(fs) && UniqueNames(fs) && Walk(fs, n).stack == []
    ensures var items := AllItems(VisitsOf(fs, Walk(fs, n).visited));
      && Distinct(Files(items)) && (forall p :: p in Files(items) <==> IsTreeFile(fs, p))
      && (forall i :: 0 <= i < |items| ==> |items[i].paths| <= CHUNK_SIZE)
  {
    var dirs := Walk(fs, n).visited;
    WalkVisitsReachable(fs, n, "");
    ItemsPartition(fs, dirs);
    forall d ensures d in dirs <==> Reachable(fs, d) { WalkVisitsReachable(fs, n, d); }
    forall p ensures InDirs(fs, dirs, p) <==> IsTreeFile(fs, p) { }
  }

  // ----- the order of listings does not matter -----

  ghost predicate SameListing(l: Listing, l': Listing) {
    match (l, l')
    case (Listed(a), Listed(b)) => multiset(a) == multiset(b)
    case (Raised(_), Raised(_)) => true
    case _ => false
  }

  /** The same tree, its directories listed in other orders. */
  ghost predicate SameTree(fs: FileTree, fs': FileTree) {
    forall d :: SameListing(ListingOf(fs, d), ListingOf(fs', d))
  }

  function FileOf(dir: Path, e: Entry): seq<Path> {
    if e.Regular? then [Join(dir, e.name)] else []
  }

  lemma FilesAmongLast(dir: Path, es: seq<Entry>, e: Entry)
    ensures FilesAmong(dir, es + [e]) == FilesAmong(dir, es) + FileOf(dir, e)
  {
    assert (es + [e])[..|es|] == es;
  }

  lemma {:induction false} FilesAmongRemove(dir: Path, a: seq<Entry>, e: Entry, b: seq<Entry>)
    ensures multiset(FilesAmong(dir, a + [e] + b)) == multiset(FilesAmong(dir, a + b)) + multiset(FileOf(dir, e))
  {
    if b == [] {
      assert a + [e] + b == a + [e] && a + b == a;
      FilesAmongLast(dir, a, e);
    } else {
      var init, last := b[..|b| - 1], b[|b| - 1];
      var long, short := a + [e] + init, a + init;
      FilesAmongRemove(dir, a, e, init);
      SplitLast(a, e, b);
      FilesAmongLast(dir, long, last);
      FilesAmongLast(dir, short, last);
    }
  }

  lemma {:induction false} FilesAmongPermuted(dir: Path, a: seq<Entry>, b: seq<Entry>)
    requires multiset(a) == multiset(b)
    ensures multiset(FilesAmong(dir, a)) == multiset(FilesAmong(dir, b))
    decreases |a|
  {
    assert |a| == |multiset(a)| == |b|;
    if a != [] {
      var init, e := a[..|a| - 1], a[|a| - 1];
      var i := RemovedLast(a, b);
      FilesAmongPermuted(dir, init, b[..i] + b[i + 1..]);
      assert a == init + [e] && b == b[..i] + [e] + b[i + 1..];
      FilesAmongLast(dir, init, e);
      FilesAmongRemove(dir, b[..i], e, b[i + 1..]);
    }
  }

  /** Visiting a directory gives the same items, and leads to the same directories. */
  lemma VisitIgnoresListingOrder(fs: FileTree, fs': FileTree, dir: Path)
    requires SameTree(fs, fs')
    ensures VisitOf(fs, dir) == VisitOf(fs', dir) && Children(fs, dir) == Children(fs', dir)
  {
    var l, l' := ListingOf(fs, dir), ListingOf(fs', dir);
    assert SameListing(l, l');
    if l.Listed? {
      FilesAmongPermuted(dir, l.entries, l'.entries);
      SortIgnoresArrival(FilesAmong(dir, l.entries), FilesAmong(dir, l'.entries));
      forall e ensures e in l.entries <==> e in l'.entries {
        assert e in l.entries <==> e in multiset(l.entries);
        assert e in l'.entries <==> e in multiset(l'.entries);
      }
    }
  }

  lemma ReachableIgnoresListingOrder(fs: FileTree, fs': FileTree, dir: Path)
    requires SameTree(fs, fs')
    ensures Reachable(fs', dir) ==> Reachable(fs, dir)
  {
    if Reachable(fs', dir) {
      var way :| IsWay(fs', way) && way[|way| - 1] == dir;
      forall i | 0 <= i < |way| - 1 ensures way[i + 1] in Children(fs, way[i]) {
        VisitIgnoresListingOrder(fs, fs', way[i]);
      }
      assert IsWay(fs, way);
    }
  }

  // ----- the plan -----

  function PlanFrom(items: seq<WorkItem>): Plan {
    if items == [] then map[]
    else
      var last := items[|items| - 1];
      PlanFrom(items[..|items| - 1])[last.key := PlanItem(last.paths, last.errors)]
  }

  lemma {:induction false} PlanHolds(items: seq<WorkItem>)
    requires Distinct(ItemKeys(items))
    ensures forall i :: 0 <= i < |items| ==>
              items[i].key in PlanFrom(items) && PlanFrom(items)[items[i].key] == PlanItem(items[i].paths, items[i].errors)
    ensures forall k :: k in PlanFrom(items) <==> k in ItemKeys(items)
  {
    if items != [] {
      var init, last := items[..|items| - 1], items[|items| - 1];
      assert ItemKeys(items) == ItemKeys(init) + [last.key];
      DistinctSplit(ItemKeys(init), [last.key]);
      PlanHolds(init);
      forall i | 0 <= i < |init|
        ensures items[i].key in PlanFrom(items)
          && PlanFrom(items)[items[i].key] == PlanItem(items[i].paths, items[i].errors)
      {
        assert init[i] == items[i] && ItemKeys(init)[i] == items[i].key;
      }
    }
  }

  lemma {:induction false} ItemOfVisit(fs: FileTree, dirs: seq<Path>, item: WorkItem)
    ensures item in AllItems(VisitsOf(fs, dirs)) <==> exists d :: d in dirs && item in VisitItems(VisitOf(fs, d))
  {
    if dirs == [] {
      assert AllItems(VisitsOf(fs, dirs)) == [];
    } else {
      var init, d := dirs[..|dirs| - 1], dirs[|dirs| - 1];
      assert dirs == init + [d];
      ItemOfVisit(fs, init, item);
      ItemsOfOneMore(fs, init, d);
    }
  }

  /** The walk that defines the plan: complete, over directories that do not clash. */
  ghost predicate Defines(fs: FileTree, n: nat) {
    GoodNames(fs) && UniqueNames(fs) && Walk(fs, n).stack == [] && NoClash(VisitsOf(fs, Walk(fs, n).visited))
  }

  function WalkItems(fs: FileTree, n: nat): seq<WorkItem> {
    AllItems(VisitsOf(fs, Walk(fs, n).visited))
  }

  lemma PlanKeysDistinct(fs: FileTree, n: nat)
    requires Defines(fs, n)
    ensures Distinct(ItemKeys(WalkItems(fs, n)))
  {
    var dirs := Walk(fs, n).visited;
    WalkVisitsReachable(fs, n, "");
    assert Dirs(VisitsOf(fs, dirs)) == dirs by {
      forall i | 0 <= i < |dirs| ensures VisitOf(fs, dirs[i]).dir == dirs[i] { }
    }
    KeysDistinctIff(VisitsOf(fs, dirs));
  }

  /** Every item of any walk over the tree, complete or not, in whatever order the directories are
      listed this time, is an item of the defining walk; a complete walk has all of them. */
  lemma WalkItemsAgree(fs: FileTree, n: nat, fs': FileTree, m: nat, item: WorkItem)
    requires Defines(fs, n) && GoodNames(fs') && SameTree(fs, fs')
    ensures item in WalkItems(fs', m) ==> item in WalkItems(fs, n)
    ensures Walk(fs', m).stack == [] && item in WalkItems(fs, n) ==> item in WalkItems(fs', m)
  {
    ItemOfVisit(fs, Walk(fs, n).visited, item);
    ItemOfVisit(fs', Walk(fs', m).visited, item);
    forall d ensures VisitOf(fs, d) == VisitOf(fs', d)
      && (d in Walk(fs', m).visited ==> d in Walk(fs, n).visited)
      && (Walk(fs', m).stack == [] && d in Walk(fs, n).visited ==> d in Walk(fs', m).visited)
    {
      VisitIgnoresListingOrder(fs, fs', d);
      WalkVisitsReachable(fs, n, d);
      WalkVisitsReachable(fs', m, d);
      ReachableIgnoresListingOrder(fs, fs', d);
      SameTreeIsSymmetric(fs, fs');
      ReachableIgnoresListingOrder(fs', fs, d);
    }
  }

  lemma SameTreeIsSymmetric(fs: FileTree, fs': FileTree)
    requires SameTree(fs, fs')
    ensures SameTree(fs', fs)
  {
    forall d ensures SameListing(ListingOf(fs', d), ListingOf(fs, d)) {
      assert SameListing(ListingOf(fs, d), ListingOf(fs', d));
    }
  }

  /** What any walk over the tree finds is what the plan holds under its key. */
  lemma FoundItemIsPlanned(fs: FileTree, n: nat, fs': FileTree, m: nat, item: WorkItem)
    requires Defines(fs, n) && GoodNames(fs') && SameTree(fs, fs') && item in WalkItems(fs', m)
    ensures var plan := PlanFrom(WalkItems(fs, n)); item.key in plan && plan[item.key] == PlanItem(item.paths, item.errors)
  {
    var all := WalkItems(fs, n);
    PlanKeysDistinct(fs, n);
    PlanHolds(all);
    WalkItemsAgree(fs, n, fs', m, item);
    var j :| 0 <= j < |all| && all[j] == item;
  }

  /** A complete walk finds every planned key. */
  lemma PlannedKeyIsFound(fs: FileTree, n: nat, fs': FileTree, m: nat, k: Key) returns (item: WorkItem)
    requires Defines(fs, n) && GoodNames(fs') && SameTree(fs, fs') && Walk(fs', m).stack == []
    requires k in PlanFrom(WalkItems(fs, n))
    ensures item in WalkItems(fs', m) && item.key == k
  {
    var all := WalkItems(fs, n);
    PlanKeysDistinct(fs, n);
    PlanHolds(all);
    var j :| 0 <= j < |all| && ItemKeys(all)[j] == k;
    item := all[j];
    WalkItemsAgree(fs, n, fs', m, item);
  }

  /** Balancing keeps the items: they are the prepared ones, one for one. */
  lemma PreparedItems(items: seq<WorkItem>) returns (ordered: seq<WorkItem>)
    ensures Balanced(items) == Balancing.Prepare(ordered) && forall x :: x in ordered <==> x in items
  {
    BalancedIsPermutation(items);
    ordered :| multiset(ordered) == multiset(items) && Balanced(items) == Balancing.Prepare(ordered);
    forall x ensures x in ordered <==> x in items {
      assert x in ordered <==> x in multiset(ordered);
      assert x in items <==> x in multiset(items);
    }
  }

  /** Every preparation, interrupted or not, first or on a resume, seeds planned items only, and a
      complete one seeds all of them: the labels of the protocol are what discovery produces. */
  lemma PreparationFits(fs: FileTree, n: nat, fs': FileTree, m: nat)
    requires Defines(fs, n) && GoodNames(fs') && SameTree(fs, fs')
    ensures var plan, items := PlanFrom(WalkItems(fs, n)), Balanced(WalkItems(fs', m));
      Fits(plan, items) && (Walk(fs', m).stack == [] ==> FitsAll(plan, items))
  {
    var plan, items := PlanFrom(WalkItems(fs, n)), Balanced(WalkItems(fs', m));
    var ordered := PreparedItems(WalkItems(fs', m));
    forall i | 0 <= i < |items|
      ensures items[i].key in plan && plan[items[i].key] == PlanItem(items[i].paths, items[i].errors)
    {
      FoundItemIsPlanned(fs, n, fs', m, ordered[i]);
    }
    if Walk(fs', m).stack == [] {
      forall k | k in plan ensures exists i :: 0 <= i < |items| && items[i].key == k {
        var item := PlannedKeyIsFound(fs, n, fs', m, k);
        var i :| 0 <= i < |ordered| && ordered[i] == item;
        assert items[i].key == k;
      }
    }
  }
}
