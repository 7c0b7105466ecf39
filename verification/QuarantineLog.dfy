/** The quarantine records: append-only lines in one log per repair run and in one global index.
    A later line of an id replaces the earlier one; reading a log collapses it. */
module QuarantineLog {
  import opened Basics

  type ItemId = string
  type RunId = string
  type Path = seq<string>

  datatype ItemState = Active | BackAtSource | Deleted

  /** A record; empty strings stand for a missing category or finding. */
  datatype Item = Item(id: ItemId, run: RunId, source: Path, quarantine: Path, category: string, finding: string,
                       state: ItemState)

  // ----- collapsing -----

  function Find(d: seq<Item>, id: ItemId): (r: Option<nat>)
    ensures r.None? ==> forall i :: 0 <= i < |d| ==> d[i].id != id
    ensures r.Some? ==> r.value < |d| && d[r.value].id == id
  {
    if d == [] then None
    else if d[|d| - 1].id == id then Some(|d| - 1)
    else Find(d[..|d| - 1], id)
  }

  /** Assigning to an insertion-ordered dictionary: a known id keeps its place, a new one goes last. */
  function Put(d: seq<Item>, item: Item): seq<Item> {
    var at := Find(d, item.id);
    if at.Some? then d[at.value := item] else d + [item]
  }

  function Collapsed(log: seq<Item>): seq<Item> {
    if log == [] then [] else Put(Collapsed(log[..|log| - 1]), log[|log| - 1])
  }

  /** The source's loop over the lines of a log. */
  method CollapseItems(items: seq<Item>) returns (latest: seq<Item>)
    ensures latest == Collapsed(items)
  {
    latest := [];
    for i := 0 to |items|
      invariant latest == Collapsed(items[..i])
    {
      assert items[..i + 1][..i] == items[..i];
      latest := Put(latest, items[i]);
    }
    assert items[..|items|] == items;
  }

  // ----- what a collapsed log says -----

  function Ids(s: seq<Item>): (r: seq<ItemId>)
    ensures |r| == |s| && forall i :: 0 <= i < |s| ==> r[i] == s[i].id
  {
    seq(|s|, i requires 0 <= i < |s| => s[i].id)
  }

  /** The ids in the order in which they first occur. */
  function FirstSeen(log: seq<Item>): seq<ItemId> {
    if log == [] then []
    else
      var before, id := FirstSeen(log[..|log| - 1]), log[|log| - 1].id;
      if id in before then before else before + [id]
  }

  /** Line i is the last one of its id. */
  predicate IsLast(log: seq<Item>, i: nat)
    requires i < |log|
  {
    forall j :: i < j < |log| ==> log[j].id != log[i].id
  }

  lemma PutIds(d: seq<Item>, item: Item)
    ensures Ids(Put(d, item)) == if item.id in Ids(d) then Ids(d) else Ids(d) + [item.id]
  {
    var at := Find(d, item.id);
    if at.Some? { assert Ids(d)[at.value] == item.id; }
  }

  lemma PutElements(d: seq<Item>, item: Item, x: Item)
    requires Distinct(Ids(d))
    ensures x in Put(d, item) <==> x == item || (x in d && x.id != item.id)
  {
    var at, r := Find(d, item.id), Put(d, item);
    if at.Some? {
      var k := at.value;
      assert r[k] == item;
      assert forall i :: 0 <= i < |d| && i != k ==> r[i] == d[i] && Ids(d)[i] != Ids(d)[k];
    }
  }

  /** A collapsed log lists every id once, in the order of first sight. */
  lemma {:induction false} CollapsedIds(log: seq<Item>)
    ensures Ids(Collapsed(log)) == FirstSeen(log) && Distinct(FirstSeen(log))
  {
    if log != [] {
      var init, last := log[..|log| - 1], log[|log| - 1];
      CollapsedIds(init);
      PutIds(Collapsed(init), last);
      DistinctSplit(FirstSeen(init), [last.id]);
    }
  }

  /** ... with its last value. */
  predicate LastAt(log: seq<Item>, x: Item, i: int) {
    0 <= i < |log| && log[i] == x && IsLast(log, i)
  }

  lemma LastOneMore(log: seq<Item>, last: Item, x: Item)
    ensures (exists i :: LastAt(log + [last], x, i)) <==> x == last || (x.id != last.id && exists i :: LastAt(log, x, i))
  {
    var more := log + [last];
    if i :| LastAt(more, x, i) {
      if i < |log| {
        assert more[|log|].id != x.id;
        forall j | i < j < |log| ensures log[j].id != x.id { assert more[j] == log[j]; }
        assert LastAt(log, x, i);
      }
    }
    assert LastAt(more, last, |log|);
    if i :| LastAt(log, x, i) && x.id != last.id {
      assert LastAt(more, x, i);
    }
  }

  /** ... with its last value. */
  lemma {:induction false} CollapsedValues(log: seq<Item>, x: Item)
    ensures x in Collapsed(log) <==> exists i :: LastAt(log, x, i)
  {
    if log != [] {
      var init, last := log[..|log| - 1], log[|log| - 1];
      assert log == init + [last];
      CollapsedIds(init);
      CollapsedValues(init, x);
      PutElements(Collapsed(init), last, x);
      LastOneMore(init, last, x);
    }
  }

  // ----- two logs, one truth -----

  function OfRun(s: seq<Item>, run: RunId): seq<Item> {
    if s == [] then []
    else if s[|s| - 1].run == run then OfRun(s[..|s| - 1], run) + [s[|s| - 1]]
    else OfRun(s[..|s| - 1], run)
  }

  lemma {:induction false} OfRunConcat(a: seq<Item>, b: seq<Item>, run: RunId)
    ensures OfRun(a + b, run) == OfRun(a, run) + OfRun(b, run)
  {
    if b == [] {
      assert a + b == a;
    } else {
      assert (a + b)[..|a + b| - 1] == a + b[..|b| - 1];
      OfRunConcat(a, b[..|b| - 1], run);
    }
  }

  lemma {:induction false} OfRunElements(s: seq<Item>, run: RunId, x: Item)
    ensures x in OfRun(s, run) <==> x in s && x.run == run
  {
    if s != [] {
      assert s == s[..|s| - 1] + [s[|s| - 1]];
      OfRunElements(s[..|s| - 1], run, x);
    }
  }

  /** All lines of one id belong to one repair run. */
  ghost predicate RunsStable(log: seq<Item>) {
    forall i, j :: 0 <= i < |log| && 0 <= j < |log| && log[i].id == log[j].id ==> log[i].run == log[j].run
  }

  ghost predicate EntryAgrees(d: seq<Item>, item: Item) {
    forall x :: x in d && x.id == item.id ==> x.run == item.run
  }

  lemma OfRunOne(item: Item, run: RunId)
    ensures OfRun([item], run) == if item.run == run then [item] else []
  {
    assert [item][..0] == [];
  }

  lemma {:induction false} FindInRun(d: seq<Item>, id: ItemId, run: RunId)
    requires forall i :: 0 <= i < |d| && d[i].id == id ==> d[i].run == run
    ensures Find(d, id).None? ==> Find(OfRun(d, run), id).None?
    ensures Find(d, id).Some? ==>
              var k := Find(d, id).value;
              Find(OfRun(d, run), id) == Some(|OfRun(d[..k], run)|)
  {
    if d != [] {
      var n := |d| - 1;
      FindInRun(d[..n], id, run);
      assert Find(d, id).Some? && Find(d, id).value < n ==> d[..n][..Find(d, id).value] == d[..Find(d, id).value];
      if d[n].run == run { assert OfRun(d, run)[..|OfRun(d, run)| - 1] == OfRun(d[..n], run); }
    }
  }

  lemma UpdateMiddle(a: seq<Item>, x: Item, b: seq<Item>, y: Item)
    ensures (a + [x] + b)[|a| := y] == a + [y] + b
  {
  }

  lemma ReplacedOfRun(d: seq<Item>, item: Item, k: nat, run: RunId)
    requires k < |d| && d[k].run == item.run
    requires item.run == run ==> Find(OfRun(d, run), item.id) == Some(|OfRun(d[..k], run)|)
    ensures OfRun(d[k := item], run) == if item.run == run then Put(OfRun(d, run), item) else OfRun(d, run)
  {
    var a, b := d[..k], d[k + 1..];
    assert d == a + [d[k]] + b && d[k := item] == a + [item] + b;
    OfRunOne(item, run);
    OfRunOne(d[k], run);
    SplitOfRun(a, d[k], b, run);
    SplitOfRun(a, item, b, run);
    if item.run == run { UpdateMiddle(OfRun(a, run), d[k], OfRun(b, run), item); }
  }

  lemma PutOfRun(d: seq<Item>, item: Item, run: RunId)
    requires EntryAgrees(d, item)
    ensures OfRun(Put(d, item), run) == if item.run == run then Put(OfRun(d, run), item) else OfRun(d, run)
  {
    var at := Find(d, item.id);
    forall i | 0 <= i < |d| && d[i].id == item.id ensures d[i].run == item.run { assert d[i] in d; }
    FindInRun(d, item.id, item.run);
    if at.None? {
      OfRunOne(item, run);
      OfRunConcat(d, [item], run);
    } else {
      ReplacedOfRun(d, item, at.value, run);
    }
  }

  lemma SplitOfRun(a: seq<Item>, x: Item, b: seq<Item>, run: RunId)
    ensures OfRun(a + [x] + b, run) == OfRun(a, run) + OfRun([x], run) + OfRun(b, run)
  {
    OfRunConcat(a, [x], run);
    OfRunConcat(a + [x], b, run);
  }

  lemma {:induction false} StableMeansOneTruth(log: seq<Item>, run: RunId)
    requires RunsStable(log)
    ensures OfRun(Collapsed(log), run) == Collapsed(OfRun(log, run))
  {
    if log != [] {
      var n := |log| - 1;
      var init, last := log[..n], log[n];
      assert RunsStable(init);
      StableMeansOneTruth(init, run);
      forall x | x in Collapsed(init) && x.id == last.id ensures x.run == last.run {
        CollapsedValues(init, x);
        var i :| LastAt(init, x, i);
        assert log[i].id == log[n].id;
      }
      PutOfRun(Collapsed(init), last, run);
    }
  }

  /** An id's last line is in the collapsed log, and nothing else of that id is. */
  lemma LastLine(log: seq<Item>, i: nat) returns (k: nat)
    requires i < |log|
    ensures k < |log| && log[k].id == log[i].id && IsLast(log, k) && log[k] in Collapsed(log)
  {
    k := i;
    while !IsLast(log, k)
      invariant k < |log| && log[k].id == log[i].id
      decreases |log| - k
    {
      var j :| k < j < |log| && log[j].id == log[k].id;
      k := j;
    }
    CollapsedValues(log, log[k]);
    assert LastAt(log, log[k], k);
  }

  lemma SameIdSameEntry(log: seq<Item>, x: Item, y: Item)
    requires x in Collapsed(log) && y in Collapsed(log) && x.id == y.id
    ensures x == y
  {
    CollapsedIds(log);
    var d := Collapsed(log);
    var i :| 0 <= i < |d| && d[i] == x;
    var j :| 0 <= j < |d| && d[j] == y;
    assert Ids(d)[i] == Ids(d)[j];
  }

  /** A line whose id ends in another run is missing from the global index's view of its own run. */
  lemma MovedIdIsMissing(log: seq<Item>, i: nat, k: nat)
    requires i < |log| && k < |log| && log[i].id == log[k].id && log[i].run != log[k].run
    requires IsLast(log, k)
    ensures OfRun(Collapsed(log), log[i].run) != Collapsed(OfRun(log, log[i].run))
  {
    var run := log[i].run;
    var mine := OfRun(log, run);
    OfRunElements(log, run, log[i]);
    var m :| 0 <= m < |mine| && mine[m] == log[i];
    var l := LastLine(mine, m);
    var x := mine[l];
    CollapsedValues(log, log[k]);
    assert LastAt(log, log[k], k);
    assert x in mine;
    OfRunElements(log, run, x);
    OfRunElements(Collapsed(log), run, x);
    if x in Collapsed(log) { SameIdSameEntry(log, x, log[k]); }
  }

  /** The collapsed index restricted to a run is the collapsed log of that run, for every run, if and
      only if updates keep an item's run. */
  lemma TwoLogsAgreeIff(log: seq<Item>)
    ensures RunsStable(log) <==> forall run :: OfRun(Collapsed(log), run) == Collapsed(OfRun(log, run))
  {
    if RunsStable(log) {
      forall run ensures OfRun(Collapsed(log), run) == Collapsed(OfRun(log, run)) { StableMeansOneTruth(log, run); }
    } else {
      var i, j :| 0 <= i < |log| && 0 <= j < |log| && log[i].id == log[j].id && log[i].run != log[j].run;
      var k := LastLine(log, i);
      if log[i].run != log[k].run { MovedIdIsMissing(log, i, k); } else { MovedIdIsMissing(log, j, k); }
    }
  }

  // ----- the store -----

  datatype Logs = Logs(index: seq<Item>, runs: map<RunId, seq<Item>>)

  function RunLog(logs: Logs, run: RunId): seq<Item> {
    if run in logs.runs then logs.runs[run] else []
  }

  function Appended(logs: Logs, item: Item): Logs {
    Logs(logs.index + [item], logs.runs[item.run := RunLog(logs, item.run) + [item]])
  }

  /** Every run's log holds exactly the lines of that run in the index, in order. */
  ghost predicate InStep(logs: Logs) {
    forall run :: RunLog(logs, run) == OfRun(logs.index, run)
  }

  lemma AppendKeepsStep(logs: Logs, item: Item)
    requires InStep(logs)
    ensures InStep(Appended(logs, item))
  {
    forall run ensures RunLog(Appended(logs, item), run) == OfRun(logs.index + [item], run) {
      OfRunConcat(logs.index, [item], run);
      assert [item][..0] == [];
      assert OfRun([item], run) == if item.run == run then [item] else [];
    }
  }

  class RepairJournalStore {
    var index: seq<Item>
    var runs: map<RunId, seq<Item>>

    function State(): Logs
      reads this
    {
      Logs(index, runs)
    }

    ghost predicate Valid()
      reads this
    {
      InStep(State())
    }

    constructor ()
      ensures Valid() && State() == Logs([], map[])
    {
      index, runs := [], map[];
    }

    method AppendQuarantineItem(item: Item)
      requires Valid()
      modifies this
      ensures Valid() && State() == Appended(old(State()), item)
    {
      AppendKeepsStep(State(), item);
      runs := runs[item.run := (if item.run in runs then runs[item.run] else []) + [item]];
      index := index + [item];
    }

    method LoadQuarantineIndex() returns (items: seq<Item>)
      ensures items == Collapsed(index)
    {
      items := CollapseItems(index);
    }

    /** The run's own log; while runs are stable it shows what the index shows of the run. */
    method LoadQuarantineItems(run: RunId) returns (items: seq<Item>)
      requires Valid()
      ensures items == Collapsed(RunLog(State(), run))
      ensures RunsStable(index) ==> items == OfRun(Collapsed(index), run)
    {
      items := CollapseItems(if run in runs then runs[run] else []);
      if RunsStable(index) { StableMeansOneTruth(index, run); }
    }
  }
}
