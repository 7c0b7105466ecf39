/** Quarantined findings: moving files into quarantine and out again, with a log line per transition. */
module Quarantine {
  import opened Basics
  import opened FileMoves
  import opened QuarantineLog

  type Content = seq<bv8>

  datatype Ignored = Ignored(id: string, finding: string, active: bool)

  datatype World = World(files: map<Path, Content>, logs: Logs, ignored: seq<Ignored>)

  /** What the index shows: every item once, with its last state. */
  function Entries(w: World): seq<Item> {
    Collapsed(w.logs.index)
  }

  const RUN: RunId := "catalog-remediation"

  // ----- destinations -----

  function Replaced(s: string, c: char): string {
    if s == "" then "" else [if s[0] == c then '-' else s[0]] + Replaced(s[1..], c)
  }

  function Name(source: Path): string {
    if source == [] then "" else source[|source| - 1]
  }

  /** A blank finding gets a folder of its own. */
  function FindingFolder(finding: string, token: string): string {
    var safe := Replaced(Replaced(finding, '/'), ':');
    if safe == "" then token else safe
  }

  const FOLDER := "catalog-remediation"

  /** Where joining a name to a directory leads: an empty name and a single dot stay, two dots go up. */
  function Enter(p: Path, name: string): Path {
    if name == "" || name == "." then p
    else if name != ".." then p + [name]
    else if p == [] then [] else p[..|p| - 1]
  }

  function Destination(root: Path, category: string, finding: string, token: string, source: Path): Path {
    var folder := Enter(Enter(root + [FOLDER], Replaced(category, '/')), FindingFolder(finding, token));
    Enter(folder, Name(source))
  }

  /** Somewhere beneath the quarantine's own directory. */
  predicate InQuarantine(root: Path, p: Path) {
    root < p
  }

  predicate IsName(s: string) {
    s != "" && s != "." && s != ".."
  }

  /** The folder of a request, seen from the quarantine's directory. */
  function Folders(category: string, finding: string, token: string): Path {
    Enter(Enter([FOLDER], Replaced(category, '/')), FindingFolder(finding, token))
  }

  /** Both folders lead up: one out of the common folder, one out of the quarantine. */
  predicate LeadsOut(category: string, finding: string, token: string) {
    Replaced(category, '/') == ".." && FindingFolder(finding, token) == ".."
  }

  lemma EnterBeneath(root: Path, p: Path, name: string)
    ensures p != [] || name != ".." ==> Enter(root + p, name) == root + Enter(p, name)
  {
  }

  /** Unless it leads out, a request lands in its folder beneath the quarantine; otherwise beside it. */
  lemma DestinationIs(root: Path, c: string, f: string, t: string, s: Path)
    requires IsName(Name(s))
    ensures Destination(root, c, f, t, s) ==
              if LeadsOut(c, f, t) then root[..if root == [] then 0 else |root| - 1] + [Name(s)]
              else root + Folders(c, f, t) + [Name(s)]
  {
    EnterBeneath(root, [FOLDER], Replaced(c, '/'));
    EnterBeneath(root, Enter([FOLDER], Replaced(c, '/')), FindingFolder(f, t));
    if LeadsOut(c, f, t) { assert Enter(root + [FOLDER], "..") == root; }
  }

  /** A target stays in the quarantine exactly when the cleaned category and the finding's folder are
      not both two dots. */
  lemma StaysInQuarantineIff(root: Path, c: string, f: string, t: string, s: Path)
    requires IsName(Name(s)) && root != []
    ensures InQuarantine(root, Destination(root, c, f, t, s)) <==> !LeadsOut(c, f, t)
  {
    DestinationIs(root, c, f, t, s);
  }

  lemma SameTrail(base: Path, a: Path, x: string, b: Path, y: string)
    ensures base + a + [x] == base + b + [y] <==> a == b && x == y
  {
    if base + a + [x] == base + b + [y] {
      var n := |base + a|;
      assert (base + a + [x])[n] == x && (base + b + [y])[|base + b|] == y;
      assert (base + a + [x])[|base|..n] == a && (base + b + [y])[|base|..n] == b;
    }
  }

  /** Two requests share a destination exactly when they lead to one folder and the file names agree.
      Different findings can, if they differ only in '/', ':' and '-'; so can a category and a finding
      that change places with a dot, and all categories under two dots. */
  lemma DestinationsCollideIff(root: Path, c: string, f: string, t: string, s: Path, c': string, f': string, t': string, s': Path)
    requires IsName(Name(s)) && IsName(Name(s')) && root != []
    ensures Destination(root, c, f, t, s) == Destination(root, c', f', t', s') <==>
            && (LeadsOut(c, f, t) <==> LeadsOut(c', f', t')) && Folders(c, f, t) == Folders(c', f', t')
            && Name(s) == Name(s')
  {
    DestinationIs(root, c, f, t, s);
    DestinationIs(root, c', f', t', s');
    if LeadsOut(c, f, t) && LeadsOut(c', f', t') {
      var up := root[..|root| - 1];
      SameTrail(up, [], Name(s), [], Name(s'));
      assert up + [] == up && Folders(c, f, t) == [] == Folders(c', f', t');
    } else if !LeadsOut(c, f, t) && !LeadsOut(c', f', t') {
      SameTrail(root, Folders(c, f, t), Name(s), Folders(c', f', t'), Name(s'));
    } else {
      StaysInQuarantineIff(root, c, f, t, s);
      StaysInQuarantineIff(root, c', f', t', s');
    }
  }

  /** Folders that are names are shared only by equal ones. */
  lemma NamedFoldersDiffer(c: string, f: string, t: string, c': string, f': string, t': string)
    requires IsName(Replaced(c, '/')) && IsName(FindingFolder(f, t))
    requires IsName(Replaced(c', '/')) && IsName(FindingFolder(f', t'))
    ensures Folders(c, f, t) == Folders(c', f', t') <==>
            Replaced(c, '/') == Replaced(c', '/') && FindingFolder(f, t) == FindingFolder(f', t')
  {
    assert Folders(c, f, t) == [FOLDER, Replaced(c, '/'), FindingFolder(f, t)];
    assert Folders(c', f', t') == [FOLDER, Replaced(c', '/'), FindingFolder(f', t')];
  }

  lemma DotsAreClean(s: string)
    requires s == "." || s == ".." || s == "a" || s == "b"
    ensures Replaced(s, '/') == s && Replaced(Replaced(s, '/'), ':') == s
  {
    if s == ".." {
      assert s[1..] == "." && Replaced(".", '/') == "." && Replaced(".", ':') == ".";
    }
  }

  lemma DotChangesPlaces(root: Path, t: string, s: Path)
    ensures Destination(root, ".", "a", t, s) == Destination(root, "a", ".", t, s)
  {
    DotsAreClean(".");
    DotsAreClean("a");
  }

  /** Under two dots every category leads back to the common folder. */
  lemma TwoDotsForgetCategory(root: Path, t: string, s: Path)
    ensures Destination(root, "a", "..", t, s) == Destination(root, "b", "..", t, s) == Enter(root + [FOLDER], Name(s))
  {
    DotsAreClean("a");
    DotsAreClean("b");
    DotsAreClean("..");
    assert Enter(Enter(root + [FOLDER], "a"), "..") == root + [FOLDER];
    assert Enter(Enter(root + [FOLDER], "b"), "..") == root + [FOLDER];
  }

  // ----- single steps -----

  /** What the source checks of a request before it moves anything. */
  datatype Request = Request(finding: string, category: string, source: Option<Path>, insideRoot: bool, writable: bool,
                             id: ItemId, token: string)

  /** A log line goes to the run's log and then to the index. */
  datatype AppendFault = Written | NotWritten(runWritten: bool)

  /** How the steps of one request end; each only matters when it is reached. */
  datatype IoFault = IoFault(move: MoveFault<Content>, unlinkFails: bool, append: AppendFault)

  const NO_FAULT := IoFault(Moved, false, Written)

  predicate Accepts(w: World, r: Request) {
    r.source.Some? && r.source.value in w.files && r.insideRoot && r.writable
  }

  function Target(root: Path, r: Request): Path
    requires r.source.Some?
  {
    Destination(root, r.category, r.finding, r.token, r.source.value)
  }

  function NewItem(root: Path, r: Request): Item
    requires r.source.Some?
  {
    Item(r.id, RUN, r.source.value, Target(root, r), r.category, r.finding, Active)
  }

  function Logged(logs: Logs, item: Item, append: AppendFault): Logs {
    match append
    case Written => Appended(logs, item)
    case NotWritten(runWritten) => if runWritten then Logs(logs.index, Appended(logs, item).runs) else logs
  }

  /** The line is only written after a move that went well. */
  function AfterQuarantine(root: Path, w: World, r: Request, fault: IoFault): World {
    if !Accepts(w, r) then w
    else w.(files := AfterMove(w.files, r.source.value, Target(root, r), fault.move),
            logs := if fault.move.Moved? then Logged(w.logs, NewItem(root, r), fault.append) else w.logs)
  }

  datatype Fate = ToSource | ToNothing

  function Ended(x: Item, fate: Fate): Item {
    x.(state := if fate.ToSource? then BackAtSource else Deleted)
  }

  /** A restore needs the quarantined file and a free source path. */
  predicate CanEnd(w: World, x: Item, fate: Fate) {
    fate.ToSource? ==> x.quarantine in w.files && x.source !in w.files
  }

  predicate Attempts(w: World, x: Item, fate: Fate) {
    x.state.Active? && x.category != "" && CanEnd(w, x, fate)
  }

  /** The file went where it should; there is nothing to unlink when it is gone already. */
  predicate FileEnds(w: World, x: Item, fate: Fate, fault: IoFault) {
    if fate.ToSource? then fault.move.Moved? else !(fault.unlinkFails && x.quarantine in w.files)
  }

  function AfterTransition(w: World, x: Item, fate: Fate, fault: IoFault): World {
    if !Attempts(w, x, fate) then w
    else w.(files := if fate.ToSource? then AfterMove(w.files, x.quarantine, x.source, fault.move)
                     else if FileEnds(w, x, fate, fault) then w.files - {x.quarantine} else w.files,
            logs := if FileEnds(w, x, fate, fault) then Logged(w.logs, Ended(x, fate), fault.append) else w.logs)
  }

  // ----- the invariant -----

  ghost predicate Known(root: Path, x: Item) {
    x.run == RUN && x.category != "" && InQuarantine(root, x.quarantine) && !InQuarantine(root, x.source)
  }

  predicate Holds(w: World, x: Item) {
    x in Entries(w) && x.state.Active?
  }

  /** The files in quarantine are exactly the files of the active items, one each. */
  ghost predicate Tracked(root: Path, w: World) {
    && (forall x :: x in Entries(w) ==> Known(root, x))
    && (forall x :: Holds(w, x) ==> x.quarantine in w.files)
    && (forall x, y :: Holds(w, x) && Holds(w, y) && x.quarantine == y.quarantine ==> x == y)
    && (forall p :: p in w.files && InQuarantine(root, p) ==> exists x :: Holds(w, x) && x.quarantine == p)
  }

  /** The run's log and the index stay in step if and only if the log does not fail between the two. */
  lemma LogsInStepIff(logs: Logs, item: Item, append: AppendFault)
    requires InStep(logs)
    ensures InStep(Logged(logs, item, append)) <==> append != NotWritten(true)
  {
    AppendKeepsStep(logs, item);
    if append == NotWritten(true) {
      var logged := Logged(logs, item, append);
      assert RunLog(logged, item.run) == OfRun(logs.index, item.run) + [item];
      assert |RunLog(logged, item.run)| != |OfRun(logged.index, item.run)|;
    }
  }

  /** Appending a line shows the new item in place of the old one with its id. */
  lemma EntriesAfterAppend(w: World, item: Item, x: Item)
    ensures x in Entries(w.(logs := Appended(w.logs, item))) <==> x == item || (x in Entries(w) && x.id != item.id)
  {
    var index := w.logs.index;
    assert (index + [item])[..|index|] == index;
    CollapsedIds(index);
    PutElements(Collapsed(index), item, x);
  }

  ghost predicate IsNew(w: World, id: ItemId) {
    forall x :: x in Entries(w) ==> x.id != id
  }

  /** Nothing is there: no file, and no directory with a file in it, which a move would enter. */
  predicate IsFree(w: World, p: Path) {
    forall q :: q in w.files ==> !(p <= q)
  }

  /** A request of the workspace: a new id, a source outside the quarantine, a free destination in it. */
  ghost predicate Sound(root: Path, w: World, r: Request) {
    && IsNew(w, r.id) && r.category != ""
    && (r.source.Some? ==> && !InQuarantine(root, r.source.value)
                           && InQuarantine(root, Target(root, r)) && IsFree(w, Target(root, r)))
  }

  predicate Completes(fault: IoFault) {
    fault.move.Moved? && fault.append.Written?
  }

  lemma QuarantinedEntries(root: Path, w: World, r: Request, fault: IoFault, x: Item)
    requires Accepts(w, r) && Sound(root, w, r) && Completes(fault)
    ensures x in Entries(AfterQuarantine(root, w, r, fault)) <==> x == NewItem(root, r) || x in Entries(w)
  {
    EntriesAfterAppend(w, NewItem(root, r), x);
  }

  lemma TrackedOneMore(root: Path, w: World, w': World, item: Item)
    requires Tracked(root, w) && Known(root, item) && item.state.Active? && item.quarantine !in w.files
    requires forall x :: x in Entries(w') <==> x == item || x in Entries(w)
    requires forall p :: InQuarantine(root, p) ==> (p in w'.files <==> p in w.files || p == item.quarantine)
    ensures Tracked(root, w')
  {
    assert Holds(w', item);
    assert forall x :: Holds(w', x) <==> x == item || Holds(w, x);
    forall p | p in w'.files && InQuarantine(root, p) ensures exists x :: Holds(w', x) && x.quarantine == p {
      if p != item.quarantine {
        var x :| Holds(w, x) && x.quarantine == p;
        assert Holds(w', x);
      }
    }
  }

  lemma QuarantineKeepsTracked(root: Path, w: World, r: Request, fault: IoFault)
    requires Tracked(root, w) && Sound(root, w, r) && Accepts(w, r) && Completes(fault)
    ensures Tracked(root, AfterQuarantine(root, w, r, fault))
  {
    var w', item := AfterQuarantine(root, w, r, fault), NewItem(root, r);
    forall x ensures x in Entries(w') <==> x == item || x in Entries(w) { QuarantinedEntries(root, w, r, fault, x); }
    TrackedOneMore(root, w, w', item);
  }

  /** The quarantine call left nothing behind, or a whole file with its log line. */
  predicate LeavesNothingUnlogged(fault: IoFault) {
    fault.move.NotMoved? || Completes(fault)
  }

  lemma UnloggedFileIsUntracked(root: Path, w: World, r: Request, fault: IoFault)
    requires Tracked(root, w) && Sound(root, w, r) && Accepts(w, r) && !LeavesNothingUnlogged(fault)
    ensures !Tracked(root, AfterQuarantine(root, w, r, fault))
  {
    var w', p := AfterQuarantine(root, w, r, fault), Target(root, r);
    assert Entries(w') == Entries(w);
    assert InQuarantine(root, p) && p in w'.files;
    assert forall x :: Holds(w', x) ==> Holds(w, x) && x.quarantine != p;
  }

  /** Quarantining keeps every quarantined file tracked if and only if nothing is left at the
      destination without its log line: not when the move broke off after it began to copy, and not
      when the file was moved and the line was not written. */
  lemma QuarantineTracksIff(root: Path, w: World, r: Request, fault: IoFault)
    requires Tracked(root, w) && Sound(root, w, r)
    ensures Tracked(root, AfterQuarantine(root, w, r, fault)) <==> (Accepts(w, r) ==> LeavesNothingUnlogged(fault))
  {
    if Accepts(w, r) {
      if Completes(fault) {
        QuarantineKeepsTracked(root, w, r, fault);
      } else if !LeavesNothingUnlogged(fault) {
        UnloggedFileIsUntracked(root, w, r, fault);
      }
    }
  }

  lemma BothActive(w: World, w': World, item: Item, y: Item)
    requires w'.logs == Appended(w.logs, item) && item.state.Active? && Holds(w, y) && y.id != item.id
    ensures Holds(w', item) && Holds(w', y) && item != y
  {
    EntriesAfterAppend(w, item, item);
    EntriesAfterAppend(w, item, y);
  }

  lemma TargetGetsBytes(root: Path, w: World, r: Request)
    requires Accepts(w, r)
    ensures var w' := AfterQuarantine(root, w, r, NO_FAULT);
      Target(root, r) in w'.files && w'.files[Target(root, r)] == w.files[r.source.value]
  {
  }

  lemma OutsideIsUntracked(root: Path, w: World, r: Request, fault: IoFault)
    requires Accepts(w, r) && Completes(fault) && !InQuarantine(root, Target(root, r))
    ensures !Tracked(root, AfterQuarantine(root, w, r, fault))
  {
    var item := NewItem(root, r);
    EntriesAfterAppend(w, item, item);
    assert !Known(root, item);
  }

  lemma ClaimedTwiceIsUntracked(root: Path, w: World, r: Request)
    requires Tracked(root, w) && IsNew(w, r.id) && Accepts(w, r)
    requires InQuarantine(root, Target(root, r)) && Target(root, r) in w.files
    ensures !Tracked(root, AfterQuarantine(root, w, r, NO_FAULT))
  {
    var w', item := AfterQuarantine(root, w, r, NO_FAULT), NewItem(root, r);
    var y :| Holds(w, y) && y.quarantine == item.quarantine;
    BothActive(w, w', item, y);
  }

  /** A taken destination is overwritten: the bytes that lay there are gone, and in the quarantine two
      active items claim one file. */
  lemma CollisionLosesBytes(root: Path, w: World, r: Request)
    requires Tracked(root, w) && IsNew(w, r.id) && Accepts(w, r) && Target(root, r) in w.files
    ensures var w' := AfterQuarantine(root, w, r, NO_FAULT);
      && w'.files[Target(root, r)] == w.files[r.source.value]
      && !Tracked(root, w')
  {
    TargetGetsBytes(root, w, r);
    if InQuarantine(root, Target(root, r)) {
      ClaimedTwiceIsUntracked(root, w, r);
    } else {
      OutsideIsUntracked(root, w, r, NO_FAULT);
    }
  }

  /** A request that leads out of the quarantine cannot be tracked there. */
  lemma LedOutIsUntracked(root: Path, w: World, r: Request, fault: IoFault)
    requires root != [] && Accepts(w, r) && IsName(Name(r.source.value)) && LeadsOut(r.category, r.finding, r.token)
    requires Completes(fault)
    ensures !Tracked(root, AfterQuarantine(root, w, r, fault))
  {
    StaysInQuarantineIff(root, r.category, r.finding, r.token, r.source.value);
    OutsideIsUntracked(root, w, r, fault);
  }

  predicate Ends(w: World, x: Item, fate: Fate, fault: IoFault) {
    Attempts(w, x, fate) && FileEnds(w, x, fate, fault)
  }

  lemma EndedEntries(w: World, x: Item, fate: Fate, y: Item)
    requires x in Entries(w)
    ensures y in Entries(w.(logs := Appended(w.logs, Ended(x, fate)))) <==> y == Ended(x, fate) || (y in Entries(w) && y != x)
  {
    EntriesAfterAppend(w, Ended(x, fate), y);
    if y in Entries(w) && y.id == x.id { SameIdSameEntry(w.logs.index, x, y); }
  }

  lemma TrackedOneLess(root: Path, w: World, w': World, x: Item, fate: Fate)
    requires Tracked(root, w) && Holds(w, x)
    requires forall y :: y in Entries(w') <==> y == Ended(x, fate) || (y in Entries(w) && y != x)
    requires forall p :: InQuarantine(root, p) ==> (p in w'.files <==> p in w.files && p != x.quarantine)
    ensures Tracked(root, w')
  {
    assert forall y :: Holds(w', y) <==> Holds(w, y) && y != x;
    forall p | p in w'.files && InQuarantine(root, p) ensures exists y :: Holds(w', y) && y.quarantine == p {
      var y :| Holds(w, y) && y.quarantine == p;
      assert Holds(w', y);
    }
  }

  lemma TransitionKeepsTracked(root: Path, w: World, x: Item, fate: Fate, fault: IoFault)
    requires Tracked(root, w) && x in Entries(w) && Ends(w, x, fate, fault) && fault.append.Written?
    ensures Tracked(root, AfterTransition(w, x, fate, fault))
  {
    var w' := AfterTransition(w, x, fate, fault);
    assert Holds(w, x) && x.quarantine in w.files && x.quarantine != x.source;
    forall y ensures y in Entries(w') <==> y == Ended(x, fate) || (y in Entries(w) && y != x) { EndedEntries(w, x, fate, y); }
    TrackedOneLess(root, w, w', x, fate);
  }

  /** A transition that breaks off before it took effect can leave something at the source path only. */
  lemma BrokenTransitionKeepsTracked(root: Path, w: World, x: Item, fate: Fate, fault: IoFault)
    requires Tracked(root, w) && x in Entries(w) && !Ends(w, x, fate, fault)
    ensures Tracked(root, AfterTransition(w, x, fate, fault))
  {
    var w' := AfterTransition(w, x, fate, fault);
    assert Entries(w') == Entries(w);
    assert forall y :: Holds(w', y) <==> Holds(w, y);
    assert Known(root, x);
    forall p | p in w'.files && InQuarantine(root, p) ensures exists y :: Holds(w', y) && y.quarantine == p {
      var y :| Holds(w, y) && y.quarantine == p;
      assert Holds(w', y);
    }
  }

  /** Ending an item keeps quarantine and log in step, if and only if the log line of a transition that
      took effect is written: otherwise the item stays active without a file. */
  lemma TransitionTracksIff(root: Path, w: World, x: Item, fate: Fate, fault: IoFault)
    requires Tracked(root, w) && x in Entries(w)
    ensures Tracked(root, AfterTransition(w, x, fate, fault)) <==> (Ends(w, x, fate, fault) ==> fault.append.Written?)
  {
    if !Ends(w, x, fate, fault) {
      BrokenTransitionKeepsTracked(root, w, x, fate, fault);
    } else if fault.append.Written? {
      TransitionKeepsTracked(root, w, x, fate, fault);
    } else {
      var w' := AfterTransition(w, x, fate, fault);
      assert Entries(w') == Entries(w);
      assert Holds(w, x) && x.quarantine in w.files && x.quarantine != x.source;
      assert Holds(w', x) && x.quarantine !in w'.files;
    }
  }

  /** A restore that broke off can be tried again exactly when it broke off before it copied anything:
      what it left at the source path blocks every later restore. */
  lemma BrokenRestoreRetriesIff(root: Path, w: World, x: Item, fault: IoFault)
    requires Tracked(root, w) && Holds(w, x) && Attempts(w, x, ToSource) && !fault.move.Moved?
    ensures var w' := AfterTransition(w, x, ToSource, fault);
      && Holds(w', x) && x.quarantine in w'.files && w'.files[x.quarantine] == w.files[x.quarantine]
      && (CanEnd(w', x, ToSource) <==> fault.move.NotMoved?)
  {
    assert Known(root, x);
  }

  // ----- round trip -----

  lemma MovedThereAndBack(files: map<Path, Content>, a: Path, b: Path)
    requires a in files && b !in files
    ensures var there := AfterMove(files, a, b, Moved);
      && b in there && a !in there && there[b] == files[a]
      && AfterMove(there, b, a, Moved) == files
  {
  }

  /** Quarantine followed by restore is the identity on all files. */
  lemma QuarantineThenRestore(root: Path, w: World, r: Request)
    requires Sound(root, w, r) && Accepts(w, r)
    ensures var w1 := AfterQuarantine(root, w, r, NO_FAULT);
      var w2 := AfterTransition(w1, NewItem(root, r), ToSource, NO_FAULT);
      && NewItem(root, r) in Entries(w1)
      && Target(root, r) in w1.files && w1.files[Target(root, r)] == w.files[r.source.value] && r.source.value !in w1.files
      && w2.files == w.files
      && Ended(NewItem(root, r), ToSource) in Entries(w2)
  {
    var w1, item := AfterQuarantine(root, w, r, NO_FAULT), NewItem(root, r);
    MovedThereAndBack(w.files, r.source.value, Target(root, r));
    QuarantinedEntries(root, w, r, NO_FAULT, item);
    EndedEntries(w1, item, ToSource, Ended(item, ToSource));
    assert w1.files == AfterMove(w.files, item.source, item.quarantine, Moved);
    var w2 := AfterTransition(w1, item, ToSource, NO_FAULT);
    assert w2.files == AfterMove(w1.files, item.quarantine, item.source, Moved);
  }

  // ----- runs -----

  datatype Op =
    | QuarantineOp(request: Request, fault: IoFault)
    | TransitionOp(id: ItemId, fate: Fate, fault: IoFault)
    | IgnoreOp(ignored: seq<Ignored>)

  function EntryOf(w: World, id: ItemId): Option<Item> {
    var at := Find(Entries(w), id);
    if at.Some? then Some(Entries(w)[at.value]) else None
  }

  function Step(root: Path, w: World, op: Op): World {
    match op
    case QuarantineOp(r, fault) => AfterQuarantine(root, w, r, fault)
    case TransitionOp(id, fate, fault) =>
      var x := EntryOf(w, id);
      if x.Some? then AfterTransition(w, x.value, fate, fault) else w
    case IgnoreOp(ignored) => w.(ignored := ignored)
  }

  function Run(root: Path, w: World, ops: seq<Op>): World
    decreases |ops|
  {
    if ops == [] then w else Run(root, Step(root, w, ops[0]), ops[1..])
  }

  ghost predicate SoundOp(root: Path, w: World, op: Op) {
    op.QuarantineOp? ==> Sound(root, w, op.request)
  }

  /** Whatever the step did to a file, its log line is written. */
  predicate LogWritten(op: Op) {
    match op
    case QuarantineOp(_, fault) => LeavesNothingUnlogged(fault)
    case TransitionOp(_, _, fault) => fault.append.Written?
    case IgnoreOp(_) => true
  }

  ghost predicate SoundRun(root: Path, w: World, ops: seq<Op>)
    decreases |ops|
  {
    ops == [] || (SoundOp(root, w, ops[0]) && SoundRun(root, Step(root, w, ops[0]), ops[1..]))
  }

  ghost predicate LoggedRun(ops: seq<Op>) {
    forall i :: 0 <= i < |ops| ==> LogWritten(ops[i])
  }

  lemma StepKeepsTracked(root: Path, w: World, op: Op)
    requires Tracked(root, w) && SoundOp(root, w, op) && LogWritten(op)
    ensures Tracked(root, Step(root, w, op))
  {
    if op.QuarantineOp? {
      QuarantineTracksIff(root, w, op.request, op.fault);
    } else if op.TransitionOp? {
      var x := EntryOf(w, op.id);
      if x.Some? { TransitionTracksIff(root, w, x.value, op.fate, op.fault); }
    } else {
      var w' := Step(root, w, op);
      assert forall x :: Holds(w', x) <==> Holds(w, x);
    }
  }

  /** The entry is as it was, or it was active and has ended. */
  ghost predicate StaysOrEnds(w': World, x: Item) {
    x in Entries(w') || (x.state.Active? && exists fate :: Ended(x, fate) in Entries(w'))
  }

  lemma QuarantineOnEntry(root: Path, w: World, r: Request, fault: IoFault, x: Item)
    requires x in Entries(w) && Sound(root, w, r)
    ensures x in Entries(AfterQuarantine(root, w, r, fault))
  {
    if Accepts(w, r) && Completes(fault) { QuarantinedEntries(root, w, r, fault, x); }
  }

  lemma TransitionOnEntry(w: World, y: Item, fate: Fate, fault: IoFault, x: Item)
    requires x in Entries(w) && y in Entries(w)
    ensures StaysOrEnds(AfterTransition(w, y, fate, fault), x)
  {
    if Ends(w, y, fate, fault) {
      EndedEntries(w, y, fate, x);
      EndedEntries(w, y, fate, Ended(y, fate));
    }
  }

  /** One step leaves an entry alone or, if it was active, ends it. */
  lemma StepOnEntry(root: Path, w: World, op: Op, x: Item)
    requires x in Entries(w) && SoundOp(root, w, op)
    ensures StaysOrEnds(Step(root, w, op), x)
  {
    match op
    case QuarantineOp(r, fault) => QuarantineOnEntry(root, w, r, fault, x);
    case TransitionOp(id, fate, fault) =>
      var y := EntryOf(w, id);
      if y.Some? { TransitionOnEntry(w, y.value, fate, fault, x); }
    case IgnoreOp(_) =>
  }

  /** Restored and deleted are terminal: over any run such an item never changes again. */
  lemma {:induction false} EndedIsTerminal(root: Path, w: World, ops: seq<Op>, x: Item)
    requires SoundRun(root, w, ops) && x in Entries(w) && !x.state.Active?
    ensures x in Entries(Run(root, w, ops))
    decreases |ops|
  {
    if ops != [] {
      StepOnEntry(root, w, ops[0], x);
      EndedIsTerminal(root, Step(root, w, ops[0]), ops[1..], x);
    }
  }

  predicate BytesStay(w: World, w': World, p: Path) {
    p in w.files && p in w'.files && w'.files[p] == w.files[p]
  }

  lemma QuarantineKeepsBytes(root: Path, w: World, r: Request, fault: IoFault, p: Path)
    requires Sound(root, w, r) && p in w.files && InQuarantine(root, p)
    ensures BytesStay(w, AfterQuarantine(root, w, r, fault), p)
  {
    if Accepts(w, r) { assert p != Target(root, r) && p != r.source.value; }
  }

  lemma TransitionKeepsOtherBytes(root: Path, w: World, y: Item, fate: Fate, fault: IoFault, p: Path)
    requires Known(root, y) && p in w.files && InQuarantine(root, p)
    requires p != y.quarantine || !Ends(w, y, fate, fault)
    ensures BytesStay(w, AfterTransition(w, y, fate, fault), p)
  {
  }

  lemma StepKeepsActiveBytes(root: Path, w: World, op: Op, x: Item)
    requires Tracked(root, w) && Holds(w, x) && SoundOp(root, w, op) && LogWritten(op)
    requires x in Entries(Step(root, w, op))
    ensures BytesStay(w, Step(root, w, op), x.quarantine)
  {
    if op.QuarantineOp? {
      QuarantineKeepsBytes(root, w, op.request, op.fault, x.quarantine);
    } else if op.TransitionOp? {
      var y := EntryOf(w, op.id);
      if y.Some? {
        if Ends(w, y.value, op.fate, op.fault) { EndedEntries(w, y.value, op.fate, x); }
        TransitionKeepsOtherBytes(root, w, y.value, op.fate, op.fault, x.quarantine);
      }
    }
  }

  /** While an item stays active its bytes stay at its quarantine path, whatever else happens. */
  lemma {:induction false} ActiveBytesStay(root: Path, w: World, ops: seq<Op>, x: Item)
    requires Tracked(root, w) && SoundRun(root, w, ops) && LoggedRun(ops)
    requires Holds(w, x) && x in Entries(Run(root, w, ops))
    ensures BytesStay(w, Run(root, w, ops), x.quarantine)
    ensures Tracked(root, Run(root, w, ops))
    decreases |ops|
  {
    if ops != [] {
      var w1 := Step(root, w, ops[0]);
      StepKeepsTracked(root, w, ops[0]);
      StepOnEntry(root, w, ops[0], x);
      if x !in Entries(w1) {
        var fate :| Ended(x, fate) in Entries(w1);
        EndedIsTerminal(root, w1, ops[1..], Ended(x, fate));
        SameIdSameEntry(Run(root, w, ops).logs.index, x, Ended(x, fate));
      }
      StepKeepsActiveBytes(root, w, ops[0], x);
      ActiveBytesStay(root, w1, ops[1..], x);
    }
  }

  /** A step that ends an item by restoring it puts the quarantined bytes back at the source path. */
  lemma RestoredBytesAreBack(root: Path, w: World, op: Op, x: Item)
    requires Tracked(root, w) && Holds(w, x) && op.TransitionOp? && LogWritten(op)
    requires Ended(x, ToSource) in Entries(Step(root, w, op))
    ensures var w' := Step(root, w, op);
      && x.source in w'.files && w'.files[x.source] == w.files[x.quarantine] && x.quarantine !in w'.files
  {
    var y := EntryOf(w, op.id);
    if y.Some? && Ends(w, y.value, op.fate, op.fault) {
      EndedEntries(w, y.value, op.fate, Ended(x, ToSource));
      if Ended(x, ToSource) in Entries(w) { SameIdSameEntry(w.logs.index, x, Ended(x, ToSource)); }
    } else if Ended(x, ToSource) in Entries(w) {
      SameIdSameEntry(w.logs.index, x, Ended(x, ToSource));
    }
  }

  // ----- hidden findings -----

  predicate IsHidden(w: World, finding: string) {
    finding != "" && (
      || (exists i :: i in w.ignored && i.active && i.finding == finding)
      || (exists x :: x in Entries(w) && x.state.Active? && x.category != "" && x.finding == finding))
  }

  predicate Shows(x: Item, f: string) {
    x.state.Active? && x.category != "" && x.finding != "" && x.finding == f
  }

  method IgnoredFindings(ignored: seq<Ignored>) returns (found: set<string>)
    ensures forall f :: f in found <==> exists i :: i in ignored && i.active && i.finding == f
  {
    found := {};
    for k := 0 to |ignored|
      invariant forall f :: f in found <==> exists i :: i in ignored[..k] && i.active && i.finding == f
    {
      TakeOneMore(ignored, k);
      assert forall i :: i in ignored[..k + 1] <==> i in ignored[..k] || i == ignored[k];
      if ignored[k].active {
        found := found + {ignored[k].finding};
      }
    }
    assert ignored[..|ignored|] == ignored;
  }

  method ActiveFindings(entries: seq<Item>) returns (found: set<string>)
    ensures forall f :: f in found <==> exists x :: x in entries && Shows(x, f)
  {
    found := {};
    for k := 0 to |entries|
      invariant forall f :: f in found <==> exists x :: x in entries[..k] && Shows(x, f)
    {
      TakeOneMore(entries, k);
      assert forall x :: x in entries[..k + 1] <==> x in entries[..k] || x == entries[k];
      if entries[k].state.Active? && entries[k].category != "" && entries[k].finding != "" {
        assert Shows(entries[k], entries[k].finding);
        found := found + {entries[k].finding};
      }
    }
    assert entries[..|entries|] == entries;
  }

  /** The source builds one set from the ignored findings and one from the index. */
  method HiddenFindingIds(w: World) returns (hidden: set<string>)
    ensures forall f :: f in hidden <==> IsHidden(w, f)
  {
    var ignored := IgnoredFindings(w.ignored);
    var entries := CollapseItems(w.logs.index);
    var active := ActiveFindings(entries);
    hidden := ignored + active - {""};
  }

  lemma OneMoreHidden(w: World, w': World, item: Item, f: string)
    requires w'.ignored == w.ignored && item.state.Active? && item.category != "" && item.finding != ""
    requires forall x :: x in Entries(w') <==> x == item || x in Entries(w)
    ensures IsHidden(w', f) <==> IsHidden(w, f) || f == item.finding
  {
    assert item in Entries(w');
  }

  lemma OneLessHidden(w: World, w': World, ended: Item, f: string)
    requires w'.ignored == w.ignored && !ended.state.Active?
    requires forall x :: x in Entries(w') <==> x == ended || x in Entries(w)
    ensures IsHidden(w', f) <==> IsHidden(w, f)
  {
  }

  /** A quarantined finding is hidden, and ending its item shows it again unless another record hides it. */
  lemma HiddenWhileActive(root: Path, w: World, r: Request, fate: Fate)
    requires Tracked(root, w) && Sound(root, w, r) && Accepts(w, r) && r.finding != ""
    ensures var w1 := AfterQuarantine(root, w, r, NO_FAULT);
      && IsHidden(w1, r.finding)
      && (IsHidden(AfterTransition(w1, NewItem(root, r), fate, NO_FAULT), r.finding) <==> IsHidden(w, r.finding))
    ensures forall f :: f != r.finding ==> (IsHidden(AfterQuarantine(root, w, r, NO_FAULT), f) <==> IsHidden(w, f))
  {
    var w1, item := AfterQuarantine(root, w, r, NO_FAULT), NewItem(root, r);
    forall x ensures x in Entries(w1) <==> x == item || x in Entries(w) { QuarantinedEntries(root, w, r, NO_FAULT, x); }
    forall f ensures IsHidden(w1, f) <==> IsHidden(w, f) || f == r.finding { OneMoreHidden(w, w1, item, f); }
    var w2 := AfterTransition(w1, item, fate, NO_FAULT);
    assert Ends(w1, item, fate, NO_FAULT) && item !in Entries(w);
    forall x ensures x in Entries(w2) <==> x == Ended(item, fate) || x in Entries(w) { EndedEntries(w1, item, fate, x); }
    OneLessHidden(w, w2, Ended(item, fate), r.finding);
  }

  // ----- the workspace, in place -----

  predicate Selected(x: Item, picked: set<ItemId>, all: bool) {
    x.state.Active? && x.category != "" && (all || x.id in picked)
  }

  type Faults = map<ItemId, IoFault>

  function FaultOf(faults: Faults, id: ItemId): IoFault {
    if id in faults then faults[id] else NO_FAULT
  }

  /** The transitions of the selected items, in the order of the index as it was read at the start. */
  function AfterTransitions(w: World, items: seq<Item>, picked: set<ItemId>, all: bool, fate: Fate, faults: Faults): World {
    if items == [] then w
    else
      var before, x := AfterTransitions(w, items[..|items| - 1], picked, all, fate, faults), items[|items| - 1];
      if Selected(x, picked, all) then AfterTransition(before, x, fate, FaultOf(faults, x.id)) else before
  }

  function AfterRequests(root: Path, w: World, requests: seq<Request>, faults: Faults): World {
    if requests == [] then w
    else
      var r := requests[|requests| - 1];
      AfterQuarantine(root, AfterRequests(root, w, requests[..|requests| - 1], faults), r, FaultOf(faults, r.id))
  }

  lemma NextTransition(w: World, items: seq<Item>, picked: set<ItemId>, all: bool, fate: Fate, faults: Faults, i: nat)
    requires i < |items|
    ensures var before := AfterTransitions(w, items[..i], picked, all, fate, faults);
      AfterTransitions(w, items[..i + 1], picked, all, fate, faults) ==
        if Selected(items[i], picked, all) then AfterTransition(before, items[i], fate, FaultOf(faults, items[i].id)) else before
  {
    TakeOneMore(items, i);
  }

  lemma OtherEntriesStay(w: World, x: Item, fate: Fate, fault: IoFault)
    requires x in Entries(w) && fault.append.Written?
    ensures forall y :: y in Entries(w) && y.id != x.id ==> y in Entries(AfterTransition(w, x, fate, fault))
  {
    forall y | y in Entries(w) && y.id != x.id ensures y in Entries(AfterTransition(w, x, fate, fault)) {
      if Ends(w, x, fate, fault) { EndedEntries(w, x, fate, y); }
    }
  }

  lemma {:induction false} TransitionsKeepTracked(root: Path, w: World, items: seq<Item>, picked: set<ItemId>, all: bool,
                                                  fate: Fate, faults: Faults)
    requires Tracked(root, w) && Distinct(Ids(items)) && forall i :: 0 <= i < |items| ==> items[i] in Entries(w)
    requires forall id :: FaultOf(faults, id).append.Written?
    ensures var w' := AfterTransitions(w, items, picked, all, fate, faults);
      Tracked(root, w') && forall x :: x in Entries(w) && x.id !in Ids(items) ==> x in Entries(w')
  {
    if items != [] {
      var init, x := items[..|items| - 1], items[|items| - 1];
      assert Ids(items) == Ids(init) + [x.id];
      DistinctSplit(Ids(init), [x.id]);
      TransitionsKeepTracked(root, w, init, picked, all, fate, faults);
      var before := AfterTransitions(w, init, picked, all, fate, faults);
      assert x in Entries(before);
      if Selected(x, picked, all) {
        TransitionTracksIff(root, before, x, fate, FaultOf(faults, x.id));
        OtherEntriesStay(before, x, fate, FaultOf(faults, x.id));
      }
    }
  }

  /** The same for all entries of the index. */
  lemma AllTransitionsKeepTracked(root: Path, w: World, picked: set<ItemId>, all: bool, fate: Fate, faults: Faults)
    ensures Tracked(root, w) && (forall id :: FaultOf(faults, id).append.Written?) ==>
              Tracked(root, AfterTransitions(w, Entries(w), picked, all, fate, faults))
  {
    CollapsedIds(w.logs.index);
    if Tracked(root, w) && forall id :: FaultOf(faults, id).append.Written? {
      TransitionsKeepTracked(root, w, Entries(w), picked, all, fate, faults);
    }
  }

  class RemediationWorkspace {
    const root: Path
    var files: map<Path, Content>
    var logs: Logs
    var ignored: seq<Ignored>

    constructor (root: Path, files: map<Path, Content>)
      ensures this.root == root && State() == World(files, Logs([], map[]), [])
    {
      this.root, this.files, logs, ignored := root, files, Logs([], map[]), [];
    }

    function State(): World
      reads this
    {
      World(files, logs, ignored)
    }

    method MoveFile(from: Path, to: Path, fault: MoveFault<Content>) returns (ok: bool)
      requires from in files
      modifies `files
      ensures files == AfterMove(old(files), from, to, fault) && ok == fault.Moved?
    {
      files := AfterMove(files, from, to, fault);
      ok := fault.Moved?;
    }

    /** The run's log first, then the index. */
    method Append(item: Item, fault: AppendFault) returns (ok: bool)
      modifies `logs
      ensures logs == Logged(old(logs), item, fault) && ok == fault.Written?
    {
      if fault.NotWritten? && !fault.runWritten {
        return false;
      }
      logs := Logs(logs.index, logs.runs[item.run := RunLog(logs, item.run) + [item]]);
      if fault.NotWritten? {
        return false;
      }
      logs := Logs(logs.index + [item], logs.runs);
      return true;
    }

    method QuarantineFinding(r: Request, fault: IoFault) returns (applied: bool)
      modifies this
      ensures State() == AfterQuarantine(root, old(State()), r, fault)
      ensures applied == (Accepts(old(State()), r) && Completes(fault))
    {
      if r.source.None? || r.source.value !in files || !r.insideRoot || !r.writable {
        return false;
      }
      applied := MoveFile(r.source.value, Target(root, r), fault.move);
      if applied {
        applied := Append(NewItem(root, r), fault.append);
      }
    }

    method QuarantineFindings(requests: seq<Request>, faults: Faults) returns (applied: nat)
      modifies this
      ensures State() == AfterRequests(root, old(State()), requests, faults) && applied <= |requests|
    {
      applied := 0;
      for i := 0 to |requests|
        invariant State() == AfterRequests(root, old(State()), requests[..i], faults) && applied <= i
      {
        assert requests[..i + 1][..i] == requests[..i];
        var ok := QuarantineFinding(requests[i], FaultOf(faults, requests[i].id));
        applied := applied + if ok then 1 else 0;
      }
      assert requests[..|requests|] == requests;
    }

    method EndItem(x: Item, fate: Fate, fault: IoFault) returns (ended: bool)
      requires x.state.Active? && x.category != ""
      modifies this
      ensures State() == AfterTransition(old(State()), x, fate, fault)
      ensures ended == (Ends(old(State()), x, fate, fault) && fault.append.Written?)
    {
      if fate.ToSource? {
        if x.quarantine !in files || x.source in files {
          return false;
        }
        var moved := MoveFile(x.quarantine, x.source, fault.move);
        if !moved {
          return false;
        }
      } else if x.quarantine in files {
        if fault.unlinkFails {
          return false;
        }
        files := files - {x.quarantine};
      }
      ended := Append(Ended(x, fate), fault.append);
    }

    /** Restore or delete the selected active items; the index is read once, at the start. */
    method TransitionItems(picked: set<ItemId>, all: bool, fate: Fate, faults: Faults) returns (results: seq<(ItemId, bool)>)
      modifies this
      ensures State() == AfterTransitions(old(State()), Entries(old(State())), picked, all, fate, faults)
      ensures Tracked(root, old(State())) && (forall id :: FaultOf(faults, id).append.Written?) ==> Tracked(root, State())
    {
      ghost var w := State();
      AllTransitionsKeepTracked(root, w, picked, all, fate, faults);
      var items := CollapseItems(logs.index);
      results := [];
      for i := 0 to |items|
        invariant State() == AfterTransitions(w, items[..i], picked, all, fate, faults)
      {
        NextTransition(w, items, picked, all, fate, faults, i);
        if Selected(items[i], picked, all) {
          var ended := EndItem(items[i], fate, FaultOf(faults, items[i].id));
          results := results + [(items[i].id, ended)];
        }
      }
      assert items[..|items|] == items;
    }
  }
}
