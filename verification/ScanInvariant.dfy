/** What every step of the scan keeps, for one session and a fixed plan of work items:
    the queue holds planned items under distinct keys, no key was applied twice and the applied keys
    are the done rows, the session's counters are the sums over the applied items, and every
    processing row has exactly one holder. */
module ScanInvariant {
  import opened Basics
  import opened CatalogTables
  import opened ScanProtocol
  import C = ControllerState

  datatype PlanItem = PlanItem(paths: seq<Path>, errors: nat)

  /** The work items of a root's tree under their queue keys. */
  type Plan = map<Key, PlanItem>

  // ----- sums over the applied items -----

  datatype Tally = Tally(files: nat, bytes: nat, errors: nat, items: nat, paths: set<Path>)

  const EMPTY_TALLY := Tally(0, 0, 0, 0, {})

  function Plus(a: Tally, b: Tally): Tally {
    Tally(a.files + b.files, a.bytes + b.bytes, a.errors + b.errors, a.items + b.items, a.paths + b.paths)
  }

  function PathsOf(os: seq<Observation>): set<Path> {
    set o | o in os :: o.path
  }

  function TallyItem(tree: Tree, root: RootId, item: PlanItem): Tally {
    var b := BatchOf(tree, root, item.paths, item.errors);
    Tally(|b.files|, b.bytes, b.errors, 1, PathsOf(b.files))
  }

  function TallyKey(tree: Tree, root: RootId, plan: Plan, key: Key): Tally {
    if key in plan then TallyItem(tree, root, plan[key]) else EMPTY_TALLY
  }

  function TallyKeys(tree: Tree, root: RootId, plan: Plan, keys: seq<Key>): Tally {
    if keys == [] then EMPTY_TALLY
    else Plus(TallyKeys(tree, root, plan, keys[..|keys| - 1]), TallyKey(tree, root, plan, keys[|keys| - 1]))
  }

  // ----- what holds of one session -----

  ghost predicate QueueOk(plan: Plan, q: seq<QueueRow>) {
    && Distinct(Keys(q))
    && forall i :: 0 <= i < |q| ==> q[i].key in plan && RowOk(plan[q[i].key], q[i])
  }

  predicate RowOk(item: PlanItem, row: QueueRow) {
    row.status.Done? || (row.payload == Some(item.paths) && row.errors == item.errors)
  }

  ghost predicate CountersOk(session: Session, t: Tally) {
    && session.filesSeen == t.files && session.bytesSeen == t.bytes
    && session.errorCount == t.errors && session.directoriesCompleted == t.items
  }

  function DoneKeys(q: seq<QueueRow>): set<Key> {
    set i | 0 <= i < |q| && q[i].status.Done? :: q[i].key
  }

  ghost predicate HistoryOk(log: seq<Key>, q: seq<QueueRow>) {
    Distinct(log) && Elements(log) == DoneKeys(q)
  }

  ghost predicate Covers(plan: Plan, q: seq<QueueRow>) {
    plan.Keys <= Elements(Keys(q))
  }

  predicate Holds(pc: Pc, i: nat) {
    (pc.Holding? && pc.row == i) || (pc.Dead? && pc.held == Some(i))
  }

  /** A processing row is held by the worker it names, and by no other; a holder's row is processing. */
  ghost predicate HeldOk(q: seq<QueueRow>, ws: seq<Pc>) {
    && (forall i :: 0 <= i < |q| && q[i].status.Processing? ==>
          q[i].status.worker < |ws| && Holds(ws[q[i].status.worker], i))
    && (forall w :: 0 <= w < |ws| ==> HolderOk(q, w, ws[w]))
  }

  ghost predicate HolderOk(q: seq<QueueRow>, w: WorkerId, pc: Pc) {
    && (pc.Holding? ==> pc.row < |q| && q[pc.row] == pc.claimed.(status := Processing(w)))
    && (pc.Dead? && pc.held.Some? ==> pc.held.value < |q| && q[pc.held.value].status == Processing(w))
  }

  ghost predicate NoneProcessing(q: seq<QueueRow>) {
    forall i :: 0 <= i < |q| ==> !q[i].status.Processing?
  }

  function Uncounted(ws: seq<Pc>): nat {
    if ws == [] then 0
    else
      var pc := ws[|ws| - 1];
      Uncounted(ws[..|ws| - 1]) + if pc.Applied? then pc.count else if pc.Dead? then pc.uncounted else 0
  }

  /** Once a worker left because nothing was pending, nothing is pending any more; a worker leaves
      for another reason than that or its own stop only after a stop reason was recorded; and the
      controller remembers whom it stopped. */
  ghost predicate DrainOk(q: seq<QueueRow>, r: Runner) {
    && r.controller.collectorFinished
    && ((exists w :: 0 <= w < |r.workers| && r.workers[w] == Exited(NothingPending)) ==>
          forall i :: 0 <= i < |q| ==> !q[i].status.Pending?)
    && (r.stopReason.None? ==> forall w :: 0 <= w < |r.workers| && r.workers[w].Exited? ==>
          r.workers[w].reason.NothingPending? || r.workers[w].reason.ActorWasStopped?)
    && (forall w :: 0 <= w < |r.workers| && r.workers[w] == Exited(ActorWasStopped) ==>
          C.Worker(w) in r.controller.stopped)
  }

  ghost predicate RunnerOk(plan: Plan, r: Runner, session: Session, q: seq<QueueRow>) {
    match r.phase
    case Selected => NoneProcessing(q)
    case Working =>
      && Covers(plan, q) && HeldOk(q, r.workers) && DrainOk(q, r)
      && session.filesSeen == r.cell + Uncounted(r.workers)
  }

  /** The durable half: it also holds while no scan of the session is running. */
  ghost predicate RowsOk(tree: Tree, plan: Plan, session: Session, q: seq<QueueRow>, log: seq<Key>) {
    && QueueOk(plan, q)
    && CountersOk(session, TallyKeys(tree, session.root, plan, log))
    && HistoryOk(log, q)
  }

  ghost predicate SessionOk(tree: Tree, plan: Plan, sid: SessionId, s: System) {
    && sid in s.db.sessions
    && RowsOk(tree, plan, s.db.sessions[sid], Queue(s.db, sid), History(s, sid))
    && (Mine(s, sid) ==> RunnerOk(plan, s.runner.value, s.db.sessions[sid], Queue(s.db, sid)))
  }

  ghost predicate Mine(s: System, sid: SessionId) {
    s.runner.Some? && s.runner.value.sid == sid
  }

  // ----- labels -----

  /** Prepared items are planned items; a finished preparation hands over all of them. */
  ghost predicate Fits(plan: Plan, items: seq<Prepared>) {
    forall i :: 0 <= i < |items| ==>
      items[i].key in plan && plan[items[i].key] == PlanItem(items[i].paths, items[i].errors)
  }

  ghost predicate FitsAll(plan: Plan, items: seq<Prepared>) {
    Fits(plan, items) && forall k :: k in plan ==> exists i :: 0 <= i < |items| && items[i].key == k
  }

  ghost predicate Planned(plan: Plan, sid: SessionId, s: System, l: Label) {
    match l
    case Prepare(items, _) => s.runner.Some? && s.runner.value.sid == sid ==> FitsAll(plan, items)
    case PrepareInterrupted(items, _) => s.runner.Some? && s.runner.value.sid == sid ==> Fits(plan, items)
    case _ => true
  }

  // ----- queue lemmas -----

  lemma KeysDistinct(q: seq<QueueRow>, i: nat, j: nat)
    requires Distinct(Keys(q)) && i < |q| && j < |q| && q[i].key == q[j].key
    ensures i == j
  {
    assert Keys(q)[i] == Keys(q)[j];
  }

  /** q' is q with pending rows appended. */
  ghost predicate Extends(q: seq<QueueRow>, q': seq<QueueRow>) {
    && |q| <= |q'| && (forall i :: 0 <= i < |q| ==> q'[i] == q[i])
    && (forall i :: |q| <= i < |q'| ==> q'[i].status.Pending?)
  }

  lemma ExtendsDoneKeys(q: seq<QueueRow>, q': seq<QueueRow>)
    requires Extends(q, q')
    ensures DoneKeys(q') == DoneKeys(q)
  {
    forall k | k in DoneKeys(q) ensures k in DoneKeys(q') {
      var i :| 0 <= i < |q| && q[i].status.Done? && q[i].key == k;
      assert q'[i].status.Done?;
    }
  }

  lemma SeedOneExtends(plan: Plan, q: seq<QueueRow>, item: Prepared)
    requires QueueOk(plan, q) && item.key in plan && plan[item.key] == PlanItem(item.paths, item.errors)
    ensures QueueOk(plan, SeedOne(q, item)) && Extends(q, SeedOne(q, item)) && HasKey(SeedOne(q, item), item.key)
  {
    if !HasKey(q, item.key) {
      var q1 := SeedOne(q, item);
      assert Keys(q1) == Keys(q) + [item.key];
      DistinctSplit(Keys(q), [item.key]);
      assert q1[|q|].key == item.key;
    }
  }

  lemma {:induction false} SeedExtends(plan: Plan, q: seq<QueueRow>, items: seq<Prepared>)
    requires QueueOk(plan, q) && Fits(plan, items)
    ensures QueueOk(plan, Seed(q, items)) && Extends(q, Seed(q, items))
    ensures forall i :: 0 <= i < |items| ==> HasKey(Seed(q, items), items[i].key)
    decreases |items|
  {
    if items != [] {
      var q1, q' := SeedOne(q, items[0]), Seed(q, items);
      SeedOneExtends(plan, q, items[0]);
      SeedExtends(plan, q1, items[1..]);
      var i :| 0 <= i < |q1| && q1[i].key == items[0].key;
      assert q'[i].key == items[0].key;
      forall j | 1 <= j < |items| ensures HasKey(q', items[j].key) { assert items[j] == items[1..][j - 1]; }
    }
  }

  lemma SeedCovers(plan: Plan, q: seq<QueueRow>, items: seq<Prepared>)
    requires QueueOk(plan, q) && FitsAll(plan, items)
    ensures Covers(plan, Seed(q, items))
  {
    SeedExtends(plan, q, items);
    var q' := Seed(q, items);
    forall k | k in plan ensures k in Keys(q') {
      var i :| 0 <= i < |items| && items[i].key == k;
      var j :| 0 <= j < |q'| && q'[j].key == k;
      assert Keys(q')[j] == k;
    }
  }

  lemma RequeueKeeps(plan: Plan, q: seq<QueueRow>, worker: Option<WorkerId>)
    requires QueueOk(plan, q)
    ensures var q' := Requeue(q, worker);
      && QueueOk(plan, q') && Keys(q') == Keys(q) && DoneKeys(q') == DoneKeys(q)
      && (worker.None? ==> NoneProcessing(q'))
  {
    assert Keys(Requeue(q, worker)) == Keys(q);
  }

  lemma MarkIsUpdate(plan: Plan, q: seq<QueueRow>, i: nat, status: QueueStatus)
    requires QueueOk(plan, q) && i < |q|
    ensures Mark(q, q[i].key, status) == q[i := MarkRow(q[i], q[i].key, status)]
  {
    forall j | 0 <= j < |q| && j != i ensures q[j].key != q[i].key { assert Keys(q)[j] != Keys(q)[i]; }
  }

  lemma ClaimKeeps(plan: Plan, q: seq<QueueRow>, i: nat, w: WorkerId)
    requires QueueOk(plan, q) && i < |q| && q[i].status.Pending?
    ensures var q' := Mark(q, q[i].key, Processing(w));
      && q' == q[i := q[i].(status := Processing(w))]
      && QueueOk(plan, q') && Keys(q') == Keys(q) && DoneKeys(q') == DoneKeys(q)
  {
    MarkIsUpdate(plan, q, i, Processing(w));
    assert Keys(Mark(q, q[i].key, Processing(w))) == Keys(q);
  }

  lemma FinishKeeps(plan: Plan, q: seq<QueueRow>, i: nat)
    requires QueueOk(plan, q) && i < |q| && !q[i].status.Done?
    ensures var q' := Mark(q, q[i].key, Done);
      && q' == q[i := q[i].(status := Done, payload := None)]
      && QueueOk(plan, q') && Keys(q') == Keys(q) && DoneKeys(q') == DoneKeys(q) + {q[i].key}
      && q[i].key !in DoneKeys(q)
  {
    var q' := Mark(q, q[i].key, Done);
    MarkIsUpdate(plan, q, i, Done);
    assert Keys(q') == Keys(q);
    if q[i].key in DoneKeys(q) {
      var j :| 0 <= j < |q| && q[j].status.Done? && q[j].key == q[i].key;
      KeysDistinct(q, i, j);
    }
    forall k | k in DoneKeys(q) + {q[i].key} ensures k in DoneKeys(q') {
      if k != q[i].key {
        var j :| 0 <= j < |q| && q[j].status.Done? && q[j].key == k;
        assert q'[j].key == k;
      } else { assert q'[i].status.Done?; }
    }
  }

  lemma {:induction false} UncountedMove(ws: seq<Pc>, w: nat, pc: Pc)
    requires w < |ws|
    ensures Uncounted(ws[w := pc]) + Uncounted([ws[w]]) == Uncounted(ws) + Uncounted([pc])
  {
    var n := |ws| - 1;
    if w == n {
      assert ws[w := pc][..n] == ws[..n];
    } else {
      assert ws[w := pc][..n] == ws[..n][w := pc];
      UncountedMove(ws[..n], w, pc);
    }
  }

  lemma {:induction false} UncountedFresh(n: nat)
    ensures Uncounted(seq(n, _ => Top)) == 0
  {
    if n > 0 {
      UncountedFresh(n - 1);
      assert seq(n, _ => Top)[..n - 1] == seq(n - 1, _ => Top);
    }
  }
}
