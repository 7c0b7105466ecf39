/** The stack walk that discovers a root's directories and prepares their work items. */
module DirectoryWalk {
  import opened Basics
  import opened CatalogTables
  import opened Ordering
  import opened WorkItems

  /** One entry that os.scandir yields; entries whose type cannot be read are Skipped. */
  datatype Entry = Directory(name: string) | Regular(name: string) | Skipped

  /** A listing that ends, or one that raises after some entries. */
  datatype Listing = Listed(entries: seq<Entry>) | Raised(before: seq<Entry>)

  /** The tree of one root; a directory that is not there raises at once. */
  type FileTree = map<Path, Listing>

  function ListingOf(fs: FileTree, dir: Path): Listing {
    if dir in fs then fs[dir] else Raised([])
  }

  function Join(dir: Path, name: string): Path {
    if dir == "" then name else dir + "/" + name
  }

  function FilesAmong(dir: Path, es: seq<Entry>): seq<Path> {
    if es == [] then []
    else
      var rest, e := FilesAmong(dir, es[..|es| - 1]), es[|es| - 1];
      if e.Regular? then rest + [Join(dir, e.name)] else rest
  }

  /** Subdirectories that were not seen before, each once, in the order they are listed. */
  function NewDirs(dir: Path, es: seq<Entry>, seen: set<Path>): (r: seq<Path>)
    ensures Distinct(r) && forall p :: p in r ==> p !in seen
  {
    if es == [] then []
    else
      var rest, e := NewDirs(dir, es[..|es| - 1], seen), es[|es| - 1];
      if e.Directory? && Join(dir, e.name) !in seen && Join(dir, e.name) !in rest then rest + [Join(dir, e.name)]
      else rest
  }

  function DirsAmong(dir: Path, es: seq<Entry>): set<Path> {
    set e | e in es && e.Directory? :: Join(dir, e.name)
  }

  /** What visiting a directory contributes to the work items. */
  function VisitOf(fs: FileTree, dir: Path): Visit {
    match ListingOf(fs, dir)
    case Listed(es) => Visit(dir, SortStrings(FilesAmong(dir, es)), 0)
    case Raised(_) => Visit(dir, [], 1)
  }

  function VisitsOf(fs: FileTree, dirs: seq<Path>): (r: seq<Visit>)
    ensures |r| == |dirs| && forall i :: 0 <= i < |dirs| ==> r[i] == VisitOf(fs, dirs[i])
  {
    seq(|dirs|, i requires 0 <= i < |dirs| => VisitOf(fs, dirs[i]))
  }

  /** The subdirectories a walk follows from dir. */
  function Children(fs: FileTree, dir: Path): set<Path> {
    match ListingOf(fs, dir)
    case Listed(es) => DirsAmong(dir, es)
    case Raised(_) => {}
  }

  function Entries(l: Listing): seq<Entry> {
    match l case Listed(es) => es case Raised(es) => es
  }

  // ----- reachability, the reference -----

  /** A way down from the root: every directory lists the next. */
  ghost predicate IsWay(fs: FileTree, way: seq<Path>) {
    && way != [] && way[0] == ""
    && forall i :: 0 <= i < |way| - 1 ==> way[i + 1] in Children(fs, way[i])
  }

  ghost predicate Reachable(fs: FileTree, dir: Path) {
    exists way :: IsWay(fs, way) && way[|way| - 1] == dir
  }

  lemma ReachableStep(fs: FileTree, dir: Path, child: Path)
    requires Reachable(fs, dir) && child in Children(fs, dir)
    ensures Reachable(fs, child)
  {
    var way :| IsWay(fs, way) && way[|way| - 1] == dir;
    assert IsWay(fs, way + [child]);
    assert (way + [child])[|way|] == child;
  }

  lemma {:induction false} WayStaysInside(fs: FileTree, closed: set<Path>, way: seq<Path>)
    requires "" in closed && IsWay(fs, way)
    requires forall d, c :: d in closed && c in Children(fs, d) ==> c in closed
    ensures way[|way| - 1] in closed
  {
    if |way| > 1 {
      var n := |way| - 1;
      assert IsWay(fs, way[..n]);
      WayStaysInside(fs, closed, way[..n]);
      assert way[n] in Children(fs, way[n - 1]);
    }
  }

  // ----- the walk -----

  /** Every directory that is named anywhere in the tree. */
  function Universe(fs: FileTree): set<Path> {
    {""} + (set d, e | d in fs && e in Entries(fs[d]) && e.Directory? :: Join(d, e.name))
  }

  lemma {:induction false} NewDirsAre(dir: Path, es: seq<Entry>, seen: set<Path>)
    ensures forall p :: p in NewDirs(dir, es, seen) <==> p in DirsAmong(dir, es) && p !in seen
  {
    if es != [] {
      var n := |es| - 1;
      NewDirsAre(dir, es[..n], seen);
      assert es == es[..n] + [es[n]];
      assert forall e :: e in es <==> e in es[..n] || e == es[n];
    }
  }

  lemma NewDirsInUniverse(fs: FileTree, dir: Path, seen: set<Path>)
    ensures forall p :: p in NewDirs(dir, Entries(ListingOf(fs, dir)), seen) ==> p in Universe(fs)
  {
    var es := Entries(ListingOf(fs, dir));
    NewDirsAre(dir, es, seen);
    forall p | p in DirsAmong(dir, es) ensures p in Universe(fs) {
      var e :| e in es && e.Directory? && Join(dir, e.name) == p;
      assert dir in fs;
    }
  }

  function Reversed(s: seq<Path>): (r: seq<Path>)
    ensures |r| == |s| && forall i :: 0 <= i < |s| ==> r[i] == s[|s| - 1 - i]
  {
    seq(|s|, i requires 0 <= i < |s| => s[|s| - 1 - i])
  }

  /** The children in the order they go on the stack: greatest path first, least on top. */
  function Pushed(s: seq<Path>): seq<Path> {
    Reversed(SortStrings(s))
  }

  lemma PushedElements(s: seq<Path>)
    requires Distinct(s)
    ensures Distinct(Pushed(s)) && forall p :: p in Pushed(s) <==> p in s
  {
    SortedStrings(s);
    var t, r := SortStrings(s), Pushed(s);
    DistinctSort(s);
    forall i, j | 0 <= i < j < |r| ensures r[i] != r[j] { assert t[|t| - 1 - i] != t[|t| - 1 - j]; }
    forall p ensures p in r <==> p in t {
      if i :| 0 <= i < |t| && t[i] == p { assert r[|t| - 1 - i] == p; }
    }
  }

  datatype WalkState = WalkState(stack: seq<Path>, seen: set<Path>, visited: seq<Path>)

  const START := WalkState([""], {""}, [])

  /** Visit the directory on top of the stack. */
  function Visited(fs: FileTree, st: WalkState): WalkState
    requires st.stack != []
  {
    var top := st.stack[|st.stack| - 1];
    var l := ListingOf(fs, top);
    var found := NewDirs(top, Entries(l), st.seen);
    WalkState(st.stack[..|st.stack| - 1] + (if l.Listed? then Pushed(found) else []),
              st.seen + (set p | p in found), st.visited + [top])
  }

  /** The walk after n directories, or when the stack ran empty before. */
  function Walk(fs: FileTree, n: nat): WalkState {
    if n == 0 then START
    else
      var st := Walk(fs, n - 1);
      if st.stack == [] then st else Visited(fs, st)
  }

  /** File names, as the file system gives them: not empty and without a separator. */
  predicate GoodName(name: string) {
    name != "" && '/' !in name
  }

  ghost predicate GoodNames(fs: FileTree) {
    forall d, e :: d in fs && e in Entries(fs[d]) && !e.Skipped? ==> GoodName(e.name)
  }

  lemma JoinIsInjective(d: Path, n: string, d': Path, n': string)
    requires GoodName(n) && GoodName(n') && Join(d, n) == Join(d', n')
    ensures d == d' && n == n'
  {
    var s := Join(d, n);
    assert forall i :: |s| - |n| <= i < |s| ==> s[i] == n[i - (|s| - |n|)] && s[i] in n;
    assert forall i :: |s| - |n'| <= i < |s| ==> s[i] == n'[i - (|s| - |n'|)] && s[i] in n';
    if d != "" { assert s[|s| - |n| - 1] == '/'; }
    if d' != "" { assert s[|s| - |n'| - 1] == '/'; }
    assert |n| == |n'|;
    assert n == s[|s| - |n|..] && n' == s[|s| - |n'|..];
    assert d == "" || d == s[..|d|];
    assert d' == "" || d' == s[..|d'|];
  }

  /** A directory that was seen but will not be visited: its parent's listing broke off. */
  ghost predicate Lost(fs: FileTree, visited: seq<Path>, p: Path) {
    exists d :: d in visited && ListingOf(fs, d).Raised? && p in DirsAmong(d, Entries(ListingOf(fs, d)))
  }

  ghost predicate WalkOk(fs: FileTree, st: WalkState) {
    && Distinct(st.visited + st.stack)
    && (forall p :: p in st.visited + st.stack ==> p in st.seen && Reachable(fs, p))
    && (forall p :: p in st.seen ==> p in Universe(fs) && (p in st.visited + st.stack || Lost(fs, st.visited, p)))
    && (forall d, c :: d in st.visited && c in Children(fs, d) ==> c in st.visited + st.stack)
    && "" in st.visited + st.stack
  }

  lemma StartIsOk(fs: FileTree)
    ensures WalkOk(fs, START)
  {
    assert IsWay(fs, [""]) && [""][0] == "";
    assert START.visited + START.stack == [""];
  }

  lemma NotLost(fs: FileTree, visited: seq<Path>, top: Path, c: Path)
    requires GoodNames(fs) && c in Children(fs, top)
    ensures !Lost(fs, visited, c)
  {
    var es := Entries(ListingOf(fs, top));
    var e :| e in es && e.Directory? && Join(top, e.name) == c;
    forall d | ListingOf(fs, d).Raised? ensures c !in DirsAmong(d, Entries(ListingOf(fs, d))) {
      forall e' | e' in Entries(ListingOf(fs, d)) && e'.Directory? ensures Join(d, e'.name) != c {
        if Join(d, e'.name) == c { JoinIsInjective(top, e.name, d, e'.name); }
      }
    }
  }

  /** The elements before and after one visit: the top moves over, the new children come in. */
  lemma VisitMoves(fs: FileTree, st: WalkState)
    requires st.stack != [] && Distinct(st.visited + st.stack)
    requires forall p :: p in st.visited + st.stack ==> p in st.seen
    ensures var st' := Visited(fs, st);
      var top := st.stack[|st.stack| - 1];
      var l := ListingOf(fs, top);
      var pushed := if l.Listed? then NewDirs(top, Entries(l), st.seen) else [];
      && Distinct(st'.visited + st'.stack)
      && (forall p :: p in st'.visited + st'.stack <==> p in st.visited + st.stack || p in pushed)
  {
    var n := |st.stack| - 1;
    var top := st.stack[n];
    var l := ListingOf(fs, top);
    var found := NewDirs(top, Entries(l), st.seen);
    var pushed := if l.Listed? then Pushed(found) else [];
    PushedElements(found);
    var st' := Visited(fs, st);
    assert st.stack == st.stack[..n] + [top];
    assert st.visited + st.stack == st.visited + (st.stack[..n] + [top]);
    DistinctSplit(st.visited, st.stack);
    DistinctSplit(st.stack[..n], [top]);
    DistinctSplit(st.visited, [top]);
    DistinctSplit(st.stack[..n], pushed);
    DistinctSplit(st'.visited, st'.stack);
  }

  lemma VisitKeepsReachable(fs: FileTree, st: WalkState)
    requires WalkOk(fs, st) && st.stack != []
    ensures var st' := Visited(fs, st);
      forall p :: p in st'.visited + st'.stack ==> p in st'.seen && Reachable(fs, p)
  {
    var top := st.stack[|st.stack| - 1];
    var l := ListingOf(fs, top);
    VisitMoves(fs, st);
    NewDirsAre(top, Entries(l), st.seen);
    assert top in st.visited + st.stack;
    if l.Listed? {
      forall c | c in NewDirs(top, Entries(l), st.seen) ensures Reachable(fs, c) { ReachableStep(fs, top, c); }
    }
  }

  lemma VisitKeepsSeen(fs: FileTree, st: WalkState)
    requires WalkOk(fs, st) && st.stack != []
    ensures var st' := Visited(fs, st);
      forall p :: p in st'.seen ==> p in Universe(fs) && (p in st'.visited + st'.stack || Lost(fs, st'.visited, p))
  {
    var st' := Visited(fs, st);
    var top := st.stack[|st.stack| - 1];
    var es := Entries(ListingOf(fs, top));
    VisitMoves(fs, st);
    NewDirsAre(top, es, st.seen);
    NewDirsInUniverse(fs, top, st.seen);
    assert st'.visited[|st.visited|] == top;
    forall p | p in st'.seen && p !in st'.visited + st'.stack ensures Lost(fs, st'.visited, p) {
      if p in st.seen {
        var d :| d in st.visited && ListingOf(fs, d).Raised? && p in DirsAmong(d, Entries(ListingOf(fs, d)));
        assert d in st'.visited;
      } else {
        assert p in DirsAmong(top, es);
      }
    }
  }

  lemma VisitKeepsClosed(fs: FileTree, st: WalkState)
    requires GoodNames(fs) && WalkOk(fs, st) && st.stack != []
    ensures var st' := Visited(fs, st);
      forall d, c :: d in st'.visited && c in Children(fs, d) ==> c in st'.visited + st'.stack
  {
    var st' := Visited(fs, st);
    var top := st.stack[|st.stack| - 1];
    VisitMoves(fs, st);
    NewDirsAre(top, Entries(ListingOf(fs, top)), st.seen);
    forall d, c | d in st'.visited && c in Children(fs, d) ensures c in st'.visited + st'.stack {
      if d == top && c in st.seen { NotLost(fs, st.visited, top, c); }
    }
  }

  lemma {:induction false} WalkIsOk(fs: FileTree, n: nat)
    requires GoodNames(fs)
    ensures WalkOk(fs, Walk(fs, n))
  {
    if n == 0 {
      StartIsOk(fs);
    } else {
      WalkIsOk(fs, n - 1);
      var st := Walk(fs, n - 1);
      if st.stack != [] {
        VisitMoves(fs, st);
        VisitKeepsReachable(fs, st);
        VisitKeepsSeen(fs, st);
        VisitKeepsClosed(fs, st);
      }
    }
  }

  /** Nothing is visited twice and everything visited is reachable; when the stack has run empty,
      exactly the reachable directories have been visited. */
  lemma WalkVisitsReachable(fs: FileTree, n: nat, dir: Path)
    requires GoodNames(fs)
    ensures var st := Walk(fs, n);
      && Distinct(st.visited)
      && (dir in st.visited ==> Reachable(fs, dir))
      && (st.stack == [] ==> (dir in st.visited <==> Reachable(fs, dir)))
  {
    WalkIsOk(fs, n);
    var st := Walk(fs, n);
    DistinctSplit(st.visited, st.stack);
    assert dir in st.visited ==> dir in st.visited + st.stack;
    if st.stack == [] && Reachable(fs, dir) {
      assert st.visited + st.stack == st.visited;
      var way :| IsWay(fs, way) && way[|way| - 1] == dir;
      WayStaysInside(fs, Elements(st.visited), way);
    }
  }

  // ----- the loop -----

  /** What the control provider says at one turn of the loop. */
  datatype Poll = Poll(pause: bool, stop: bool)

  function PollAt(polls: seq<Poll>, i: nat): Poll {
    if i < |polls| then polls[i] else Poll(false, false)
  }

  datatype Preparation = Ready | PausedEarly | StoppedEarly

  lemma VisitedInUniverse(fs: FileTree, n: nat)
    requires GoodNames(fs)
    ensures Elements(Walk(fs, n).visited) <= Universe(fs) && |Walk(fs, n).visited| <= |Universe(fs)|
  {
    WalkIsOk(fs, n);
    var st := Walk(fs, n);
    DistinctSplit(st.visited, st.stack);
    assert forall p :: p in st.visited ==> p in st.visited + st.stack;
    DistinctCardinality(st.visited);
    SubsetSize(Elements(st.visited), Universe(fs));
  }

  lemma SubsetSize<T>(a: set<T>, b: set<T>)
    requires a <= b
    ensures |a| <= |b|
  {
    assert b == a + (b - a);
  }

  lemma ItemsOfOneMore(fs: FileTree, visited: seq<Path>, top: Path)
    ensures AllItems(VisitsOf(fs, visited + [top])) == AllItems(VisitsOf(fs, visited)) + VisitItems(VisitOf(fs, top))
  {
    var vs := VisitsOf(fs, visited + [top]);
    assert vs[..|visited|] == VisitsOf(fs, visited);
    assert vs[|visited|] == VisitOf(fs, top);
  }

  lemma WalkAdvances(fs: FileTree, n: nat, bound: nat)
    requires GoodNames(fs) && bound == |Universe(fs)| && Walk(fs, n).stack != []
    ensures Walk(fs, n + 1) == Visited(fs, Walk(fs, n))
    ensures |Walk(fs, n + 1).visited| == |Walk(fs, n).visited| + 1 <= bound
  {
    VisitedInUniverse(fs, n + 1);
  }

  /** The discovery loop: pops, lists, cuts into items and pushes, until the stack is empty or a
      pause or stop is requested. The items are those of the visited directories, in order. */
  method DiscoverWork(fs: FileTree, polls: seq<Poll>)
    returns (visited: seq<Path>, items: seq<WorkItem>, outcome: Preparation)
    requires GoodNames(fs)
    ensures visited == Walk(fs, |visited|).visited
    ensures items == AllItems(VisitsOf(fs, visited))
    ensures outcome.Ready? ==> Walk(fs, |visited|).stack == []
    ensures outcome.StoppedEarly? ==> PollAt(polls, |visited|).stop
    ensures outcome.PausedEarly? ==> PollAt(polls, |visited|).pause && !PollAt(polls, |visited|).stop
    ensures polls == [] ==> outcome.Ready?
  {
    var st := START;
    items := [];
    var poll := Poll(false, false);
    ghost var bound := |Universe(fs)|;
    while st.stack != []
      invariant bound == |Universe(fs)| && Walk(fs, |st.visited|) == st
      invariant items == AllItems(VisitsOf(fs, st.visited))
      invariant poll == Poll(false, false)
      decreases bound - |st.visited|
    {
      poll := PollAt(polls, |st.visited|);
      if poll.pause || poll.stop {
        break;
      }
      WalkAdvances(fs, |st.visited|, bound);
      var next, more := VisitOne(fs, st);
      items := items + more;
      st := next;
    }
    visited := st.visited;
    outcome := if poll.stop then StoppedEarly else if poll.pause then PausedEarly else Ready;
  }

  /** One turn of the loop. */
  method VisitOne(fs: FileTree, st: WalkState) returns (next: WalkState, more: seq<WorkItem>)
    requires st.stack != []
    ensures next == Visited(fs, st)
    ensures AllItems(VisitsOf(fs, next.visited)) == AllItems(VisitsOf(fs, st.visited)) + more
  {
    var top, stack := st.stack[|st.stack| - 1], st.stack[..|st.stack| - 1];
    var visit, listing := VisitOf(fs, top), ListingOf(fs, top);
    more := BuildDirectoryItems(top, visit.files, visit.errors);
    var found := NewDirs(top, Entries(listing), st.seen);
    if listing.Listed? {
      stack := stack + Pushed(found);
    }
    next := WalkState(stack, st.seen + (set p | p in found), st.visited + [top]);
    ItemsOfOneMore(fs, st.visited, top);
  }
}
