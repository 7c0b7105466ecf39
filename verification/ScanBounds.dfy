/** How far a scan can run past its limits: the file limit, and an individual stop request. */
module ScanBounds {
  import opened Basics
  import opened CatalogTables
  import opened ScanProtocol
  import opened ScanInvariant
  import opened ScanSteps
  import WorkItems
  import C = ControllerState
  import FO = FileObservation

  // ----- the file limit -----

  /** Every planned item lists at most 256 files. */
  ghost predicate SmallBatches(plan: Plan) {
    forall k :: k in plan ==> |plan[k].paths| <= WorkItems.CHUNK_SIZE
  }

  /** Whether a worker at this point may still apply a batch once a stop reason is recorded. */
  function MayApply(pc: Pc, stopRequested: bool): nat {
    match pc
    case Top => if stopRequested then 0 else 1
    case Polled => 1
    case Runnable => 1
    case Holding(_, _) => 1
    case _ => 0
  }

  function Remaining(ws: seq<Pc>, stopRequested: bool): nat {
    if ws == [] then 0
    else Remaining(ws[..|ws| - 1], stopRequested) + MayApply(ws[|ws| - 1], stopRequested)
  }

  lemma {:induction false} RemainingMove(ws: seq<Pc>, stop: bool, w: WorkerId, pc: Pc)
    requires w < |ws|
    ensures Remaining(ws[w := pc], stop) + MayApply(ws[w], stop) == Remaining(ws, stop) + MayApply(pc, stop)
  {
    var n := |ws| - 1;
    if w == n {
      assert ws[w := pc][..n] == ws[..n];
    } else {
      assert ws[w := pc][..n] == ws[..n][w := pc];
      RemainingMove(ws[..n], stop, w, pc);
    }
  }

  lemma {:induction false} StopLeavesLess(ws: seq<Pc>)
    ensures Remaining(ws, true) <= Remaining(ws, false)
  {
    if ws != [] { StopLeavesLess(ws[..|ws| - 1]); }
  }

  /** A worker either owes the shared cell a batch or may still apply one, never both. */
  lemma {:induction false} OwedOrRemaining(ws: seq<Pc>, stop: bool)
    requires forall w :: 0 <= w < |ws| ==> Owed(ws[w]) <= WorkItems.CHUNK_SIZE
    ensures Uncounted(ws) + WorkItems.CHUNK_SIZE * Remaining(ws, stop) <= WorkItems.CHUNK_SIZE * |ws|
  {
    if ws != [] { OwedOrRemaining(ws[..|ws| - 1], stop); }
  }

  ghost predicate LimitOk(r: Runner, limit: nat, filesSeen: nat) {
    && r.maxFiles == Some(limit) && r.phase.Working?
    && filesSeen == r.cell + Uncounted(r.workers)
    && (forall w :: 0 <= w < |r.workers| ==> Owed(r.workers[w]) <= WorkItems.CHUNK_SIZE)
    && (r.stopReason == Some(ReasonStopped) ==> r.stopRequested)
    && (r.stopReason.None? ==> r.cell < limit)
    && (r.stopReason.Some? ==>
          filesSeen + WorkItems.CHUNK_SIZE * Remaining(r.workers, r.stopRequested) < limit + WorkItems.CHUNK_SIZE * |r.workers|)
  }

  lemma LimitBounds(r: Runner, limit: nat, filesSeen: nat)
    requires LimitOk(r, limit, filesSeen)
    ensures filesSeen < limit + WorkItems.CHUNK_SIZE * |r.workers|
  {
    OwedOrRemaining(r.workers, r.stopRequested);
  }

  predicate SpendsItsBudget(pc: Pc, pc': Pc, stop: bool, seen: nat, seen': nat) {
    seen' + WorkItems.CHUNK_SIZE * MayApply(pc', stop) <= seen + WorkItems.CHUNK_SIZE * MayApply(pc, stop)
  }

  /** One worker moves from pc to pc'; nothing else but the cell and the stop reason changes. */
  lemma LimitMove(r: Runner, r': Runner, limit: nat, seen: nat, seen': nat, w: WorkerId)
    requires LimitOk(r, limit, seen) && w < |r.workers| == |r'.workers| && r'.workers == r.workers[w := r'.workers[w]]
    requires r'.maxFiles == r.maxFiles && r'.phase == r.phase && r'.stopRequested == r.stopRequested
    requires seen' == r'.cell + Uncounted(r'.workers) && Owed(r'.workers[w]) <= WorkItems.CHUNK_SIZE
    requires r'.stopReason == Some(ReasonStopped) ==> r'.stopRequested
    requires r'.stopReason.None? ==> r.stopReason.None? && r'.cell < limit
    requires r.stopReason.None? && r'.stopReason.Some? ==>
               seen' == seen && MayApply(r'.workers[w], r.stopRequested) <= MayApply(r.workers[w], r.stopRequested)
    requires r.stopReason.Some? ==> SpendsItsBudget(r.workers[w], r'.workers[w], r.stopRequested, seen, seen')
    ensures LimitOk(r', limit, seen')
  {
    RemainingMove(r.workers, r.stopRequested, w, r'.workers[w]);
    OwedOrRemaining(r.workers, r.stopRequested);
  }

  lemma {:induction false} ObservedAtMost(tree: Tree, root: RootId, payload: seq<Path>)
    ensures |FO.PathsFromPayload(payload)| <= |payload|
  {
    if payload != [] { ObservedAtMost(tree, root, payload[..|payload| - 1]); }
  }

  /** The steps that count nothing in the database: a worker never regains its budget. */
  lemma QuietKeepsLimit(r: Runner, r': Runner, limit: nat, seen: nat, w: WorkerId, q: seq<QueueRow>)
    requires LimitOk(r, limit, seen) && w < |r.workers|
    requires || (r.workers[w].Top? && r' == PollRunner(r, w))
             || (r.workers[w].Runnable? && r' == ClaimRunner(r, w, q))
             || (r.workers[w].Applied? && r' == CountRunner(r, w))
             || (r.workers[w].Counted? && r' == RecheckRunner(r, w))
             || (!Gone(r.workers[w]) && r' == DieRunner(r, w))
    ensures LimitOk(r', limit, seen) && |r'.workers| == |r.workers|
  {
    UncountedStep(r.workers, w, r'.workers[w]);
    assert r.stopReason.Some? ==> r.stopReason.value.ReasonStopped? || r.stopReason.value.ReasonPaused?;
    LimitMove(r, r', limit, seen, seen, w);
  }

  lemma AwaitKeepsLimit(r: Runner, limit: nat, seen: nat, w: WorkerId)
    requires LimitOk(r, limit, seen) && w < |r.workers| && r.workers[w].Polled?
    requires C.Worker(w) in r.controller.actors
    ensures LimitOk(AwaitRunner(r, w), limit, seen)
  {
    var r' := AwaitRunner(r, w);
    UncountedStep(r.workers, w, r'.workers[w]);
    LimitMove(r, r', limit, seen, seen, w);
  }

  lemma ApplyRunnerKeepsLimit(r: Runner, limit: nat, seen: nat, w: WorkerId, count: nat)
    requires LimitOk(r, limit, seen) && w < |r.workers| && r.workers[w].Holding? && count <= WorkItems.CHUNK_SIZE
    ensures LimitOk(Move(r, w, Applied(count), r.controller), limit, seen + count)
  {
    UncountedStep(r.workers, w, Applied(count));
    LimitMove(r, Move(r, w, Applied(count), r.controller), limit, seen, seen + count, w);
  }

  lemma ApplyKeepsLimit(tree: Tree, plan: Plan, sid: SessionId, s: System, w: WorkerId, limit: nat)
    requires Enabled(s, Apply(w)) && SessionOk(tree, plan, sid, s) && Mine(s, sid) && SmallBatches(plan)
    requires LimitOk(s.runner.value, limit, s.db.sessions[sid].filesSeen)
    ensures var s' := ApplyStep(tree, s, w);
      LimitOk(s'.runner.value, limit, s'.db.sessions[sid].filesSeen)
  {
    var r, claimed := s.runner.value, s.runner.value.workers[w].claimed;
    assert HolderOk(Queue(s.db, sid), w, r.workers[w]);
    assert RowOk(plan[claimed.key], Queue(s.db, sid)[r.workers[w].row]);
    ObservedAtMost(tree, s.db.sessions[sid].root, claimed.payload.value);
    var b := BatchOf(tree, s.db.sessions[sid].root, claimed.payload.value, claimed.errors);
    ApplyRunnerKeepsLimit(r, limit, s.db.sessions[sid].filesSeen, w, |b.files|);
  }

  lemma WorkerKeepsLimit(tree: Tree, plan: Plan, sid: SessionId, s: System, l: Label, limit: nat)
    requires Enabled(s, l) && SessionOk(tree, plan, sid, s) && Mine(s, sid) && SmallBatches(plan) && WorkerStep(l)
    requires LimitOk(s.runner.value, limit, s.db.sessions[sid].filesSeen)
    ensures var s' := Next(tree, s, l);
      && Mine(s', sid) && sid in s'.db.sessions && LimitOk(s'.runner.value, limit, s'.db.sessions[sid].filesSeen)
      && |s'.runner.value.workers| == |s.runner.value.workers|
  {
    var r, seen := s.runner.value, s.db.sessions[sid].filesSeen;
    if l.Apply? {
      ApplyKeepsLimit(tree, plan, sid, s, l.w, limit);
    } else if l.Await? {
      AwaitKeepsLimit(r, limit, seen, l.w);
    } else {
      QuietKeepsLimit(r, Next(tree, s, l).runner.value, limit, seen, l.w, Queue(s.db, sid));
    }
  }

  /** No new scan starts: the labels of one runner's life and what follows it. */
  predicate OneRunner(ls: seq<Label>) {
    forall i :: 0 <= i < |ls| ==> !ls[i].Create? && !ls[i].Reopen?
  }

  lemma ControlKeepsLimit(tree: Tree, plan: Plan, sid: SessionId, s: System, l: Label, limit: nat)
    requires Enabled(s, l) && SessionOk(tree, plan, sid, s) && Mine(s, sid) && !WorkerStep(l)
    requires LimitOk(s.runner.value, limit, s.db.sessions[sid].filesSeen)
    ensures var s' := Next(tree, s, l);
      && sid in s'.db.sessions && s'.db.sessions[sid].filesSeen == s.db.sessions[sid].filesSeen
      && (s'.runner.Some? ==> Mine(s', sid) && LimitOk(s'.runner.value, limit, s'.db.sessions[sid].filesSeen)
                              && |s'.runner.value.workers| == |s.runner.value.workers|)
  {
    StopLeavesLess(s.runner.value.workers);
  }

  /** Once the runner is gone the session's counters stay. */
  lemma {:induction false} NoRunnerNoCount(tree: Tree, sid: SessionId, s: System, ls: seq<Label>)
    requires s.runner.None? && sid in s.db.sessions && IsRun(tree, s, ls) && OneRunner(ls)
    ensures sid in After(tree, s, ls).db.sessions && After(tree, s, ls).db.sessions[sid] == s.db.sessions[sid]
    decreases |ls|
  {
    if ls != [] {
      assert OneRunner(ls[1..]);
      NoRunnerNoCount(tree, sid, Next(tree, s, ls[0]), ls[1..]);
    }
  }

  lemma {:induction false} RunKeepsLimit(tree: Tree, plan: Plan, sid: SessionId, s: System, ls: seq<Label>, limit: nat)
    requires SessionOk(tree, plan, sid, s) && Mine(s, sid) && SmallBatches(plan)
    requires LimitOk(s.runner.value, limit, s.db.sessions[sid].filesSeen)
    requires IsRun(tree, s, ls) && PlannedRun(tree, plan, sid, s, ls) && OneRunner(ls)
    ensures sid in After(tree, s, ls).db.sessions
    ensures After(tree, s, ls).db.sessions[sid].filesSeen < limit + WorkItems.CHUNK_SIZE * |s.runner.value.workers|
    decreases |ls|
  {
    LimitBounds(s.runner.value, limit, s.db.sessions[sid].filesSeen);
    if ls != [] {
      var s' := Next(tree, s, ls[0]);
      assert OneRunner(ls[1..]);
      StepKeepsSession(tree, plan, sid, s, ls[0]);
      if WorkerStep(ls[0]) {
        WorkerKeepsLimit(tree, plan, sid, s, ls[0], limit);
      } else {
        ControlKeepsLimit(tree, plan, sid, s, ls[0], limit);
      }
      if s'.runner.None? {
        NoRunnerNoCount(tree, sid, s', ls[1..]);
      } else {
        RunKeepsLimit(tree, plan, sid, s', ls[1..], limit);
      }
    }
  }

  /** A run of W workers that starts below max_files never counts max_files + 256 * W files or more. */
  lemma OvershootIsBounded(tree: Tree, plan: Plan, sid: SessionId, s: System, l: Label, ls: seq<Label>)
    requires SessionOk(tree, plan, sid, s) && Mine(s, sid) && SmallBatches(plan)
    requires Enabled(s, l) && l.Prepare? && FitsAll(plan, l.items) && s.runner.value.stopReason.None?
    requires s.runner.value.maxFiles.Some? && s.db.sessions[sid].filesSeen < s.runner.value.maxFiles.value
    requires IsRun(tree, Next(tree, s, l), ls) && PlannedRun(tree, plan, sid, Next(tree, s, l), ls) && OneRunner(ls)
    ensures var t := After(tree, Next(tree, s, l), ls);
      sid in t.db.sessions
      && t.db.sessions[sid].filesSeen <= s.runner.value.maxFiles.value - 1 + WorkItems.CHUNK_SIZE * l.workers
  {
    StepKeepsSession(tree, plan, sid, s, l);
    UncountedFresh(l.workers);
    RunKeepsLimit(tree, plan, sid, Next(tree, s, l), ls, s.runner.value.maxFiles.value);
  }

  // ----- an individual stop -----

  /** Stop is absorbing: no later call on the controller makes a stopped actor runnable again. */
  lemma StopIsAbsorbing(c: C.Controller, a: C.ActorId, b: C.ActorId, path: Path)
    requires a in c.stopped && b in c.actors
    ensures forall c' :: c' in {C.RequestPause(c, b), C.RequestResume(c, b), C.RequestStop(c, b), C.Look(c, b),
                                C.MarkRunning(c, b, path), C.MarkIdle(c, b), C.MarkCollectorFinished(c),
                                C.MarkScanCompleted(c)} ==>
              a in c'.stopped && C.Decide(c', a).Halt?
  {
  }

  function Applies(ls: seq<Label>, w: WorkerId): nat {
    if ls == [] then 0 else (if ls[0] == Apply(w) then 1 else 0) + Applies(ls[1..], w)
  }

  /** A worker past its look at the controller may finish one item; before it, none. */
  function Budget(s: System, w: WorkerId): nat {
    if s.runner.Some? && s.runner.value.phase.Working? && w < |s.runner.value.workers|
       && (s.runner.value.workers[w].Runnable? || s.runner.value.workers[w].Holding?)
    then 1 else 0
  }

  ghost predicate Halted(s: System, w: WorkerId) {
    s.runner.Some? ==> s.runner.value.phase.Working? && C.Worker(w) in s.runner.value.controller.stopped
  }

  lemma HaltedWorkerStep(tree: Tree, s: System, l: Label, w: WorkerId)
    requires Enabled(s, l) && Halted(s, w) && WorkerStep(l)
    ensures Halted(Next(tree, s, l), w)
    ensures (if l == Apply(w) then 1 else 0) + Budget(Next(tree, s, l), w) <= Budget(s, w)
  {
  }

  lemma HaltedControlStep(tree: Tree, s: System, l: Label, w: WorkerId)
    requires Enabled(s, l) && Halted(s, w) && !WorkerStep(l) && !l.Create? && !l.Reopen?
    ensures Halted(Next(tree, s, l), w) && Budget(Next(tree, s, l), w) <= Budget(s, w)
  {
  }

  /** After its stop request a worker applies at most one further work item, and none if it had not
      yet passed its look at the controller, under every later pause, resume and interleaving. */
  lemma {:induction false} StoppedWorkerAppliesAtMostOne(tree: Tree, s: System, ls: seq<Label>, w: WorkerId)
    requires IsRun(tree, s, ls) && OneRunner(ls) && Halted(s, w)
    ensures Applies(ls, w) <= Budget(s, w) <= 1
    decreases |ls|
  {
    if ls != [] {
      if WorkerStep(ls[0]) { HaltedWorkerStep(tree, s, ls[0], w); } else { HaltedControlStep(tree, s, ls[0], w); }
      assert OneRunner(ls[1..]);
      StoppedWorkerAppliesAtMostOne(tree, Next(tree, s, ls[0]), ls[1..], w);
    }
  }

  // ----- every actor stopped: a commit with work left -----

  /** Workers 0..w have left because their actors were stopped; the others stand at the top. */
  ghost predicate StoppedUpTo(s: System, sid: SessionId, w: nat) {
    && Mine(s, sid) && InPhase(s, Working) && s.runner.value.stopReason.None?
    && !s.runner.value.stopRequested && !s.runner.value.pauseRequested
    && NoneProcessing(Queue(s.db, sid)) && w <= |s.runner.value.workers|
    && (forall v :: 0 <= v < |s.runner.value.workers| ==>
          && C.Worker(v) in s.runner.value.controller.stopped && C.Worker(v) in s.runner.value.controller.actors
          && s.runner.value.workers[v] == if v < w then Exited(ActorWasStopped) else Top)
  }

  lemma OneStoppedWorkerLeaves(tree: Tree, s: System, sid: SessionId, w: nat)
    requires StoppedUpTo(s, sid, w) && w < |s.runner.value.workers|
    ensures Enabled(s, Poll(w)) && Enabled(PollStep(s, w), Await(w))
    ensures var s' := AwaitStep(PollStep(s, w), w);
      && StoppedUpTo(s', sid, w + 1) && Queue(s'.db, sid) == Queue(s.db, sid)
      && |s'.runner.value.workers| == |s.runner.value.workers|
  {
    var q := Queue(s.db, sid);
    assert Requeue(q, Some(w)) == q;
  }

  /** If every worker's actor is stopped individually, the scan commits with its whole queue undone. */
  lemma {:induction false} AllStoppedStillCommits(tree: Tree, s: System, sid: SessionId, w: nat) returns (ls: seq<Label>)
    requires StoppedUpTo(s, sid, w)
    ensures IsRun(tree, s, ls)
    ensures var t := After(tree, s, ls);
      && Mine(t, sid) && Enabled(t, Finalize) && t.runner.value.stopReason.None?
      && Queue(t.db, sid) == Queue(s.db, sid)
      && sid in Next(tree, t, Finalize).db.sessions
      && (t.db.sessions[sid].snapshot in t.db.snapshots ==>
            Next(tree, t, Finalize).db.sessions[sid].status.Completed?)
    decreases |s.runner.value.workers| - w
  {
    if w == |s.runner.value.workers| {
      ls := [];
    } else {
      OneStoppedWorkerLeaves(tree, s, sid, w);
      var s1 := PollStep(s, w);
      var s2 := AwaitStep(s1, w);
      var rest := AllStoppedStillCommits(tree, s2, sid, w + 1);
      var tail := [Await(w)] + rest;
      ls := [Poll(w)] + tail;
      assert tail[1..] == rest && ls[1..] == tail;
      assert IsRun(tree, s1, tail);
      assert After(tree, s1, tail) == After(tree, s2, rest);
    }
  }
}
