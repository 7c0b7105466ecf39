/** Every step of every interleaving keeps SessionOk; so every reachable state has it. */
module ScanSteps {
  import opened Basics
  import opened CatalogTables
  import opened ScanProtocol
  import opened ScanInvariant
  import C = ControllerState
  import FO = FileObservation

  // ----- the worker steps, on the runner and its queue alone -----

  /** At its own Top or Polled a worker holds nothing, so requeueing its rows changes nothing. */
  lemma RequeueOwnIsNoop(q: seq<QueueRow>, ws: seq<Pc>, w: WorkerId)
    requires HeldOk(q, ws) && w < |ws| && (ws[w].Top? || ws[w].Polled?)
    ensures Requeue(q, Some(w)) == q
  {
  }

  lemma MoveKeepsHeld(q: seq<QueueRow>, ws: seq<Pc>, w: WorkerId, pc: Pc)
    requires HeldOk(q, ws) && w < |ws| && HolderOk(q, w, pc)
    requires forall i :: Holds(ws[w], i) ==> Holds(pc, i)
    ensures HeldOk(q, ws[w := pc])
  {
  }

  function Owed(pc: Pc): nat {
    if pc.Applied? then pc.count else if pc.Dead? then pc.uncounted else 0
  }

  lemma UncountedStep(ws: seq<Pc>, w: WorkerId, pc: Pc)
    requires w < |ws|
    ensures Uncounted(ws[w := pc]) + Owed(ws[w]) == Uncounted(ws) + Owed(pc)
  {
    UncountedMove(ws, w, pc);
    assert Uncounted([pc]) == Owed(pc) && Uncounted([ws[w]]) == Owed(ws[w]);
  }

  /** A step that moves worker w, leaves the queue alone and keeps the owed counts balanced. */
  ghost predicate Quiet(r: Runner, r': Runner, w: WorkerId) {
    && w < |r.workers| == |r'.workers| && r'.workers == r.workers[w := r'.workers[w]]
    && var pc, pc' := r.workers[w], r'.workers[w];
       && !pc'.Holding? && pc' != Exited(NothingPending)
       && (pc'.Dead? ==> pc'.held == (if pc.Holding? then Some(pc.row) else None))
       && (pc.Holding? ==> pc'.Dead?) && !pc.Dead?
       && r'.cell + Owed(pc') == r.cell + Owed(pc)
       && (r'.stopReason.None? ==> r.stopReason.None? && (pc'.Exited? ==> pc'.reason.ActorWasStopped?))
       && r.controller.stopped <= r'.controller.stopped
       && (pc' == Exited(ActorWasStopped) ==> C.Worker(w) in r'.controller.stopped)
       && r'.phase == r.phase && r'.controller.collectorFinished == r.controller.collectorFinished
  }

  lemma QuietKeeps(plan: Plan, r: Runner, r': Runner, session: Session, q: seq<QueueRow>, w: WorkerId)
    requires RunnerOk(plan, r, session, q) && r.phase.Working? && Quiet(r, r', w)
    ensures RunnerOk(plan, r', session, q)
  {
    assert HolderOk(q, w, r.workers[w]);
    MoveKeepsHeld(q, r.workers, w, r'.workers[w]);
    UncountedStep(r.workers, w, r'.workers[w]);
    if v :| 0 <= v < |r'.workers| && r'.workers[v] == Exited(NothingPending) {
      assert r.workers[v] == Exited(NothingPending);
    }
  }

  lemma ClaimKeepsRunner(plan: Plan, r: Runner, session: Session, q: seq<QueueRow>, w: WorkerId)
    requires RunnerOk(plan, r, session, q) && r.phase.Working? && w < |r.workers| && r.workers[w].Runnable?
    requires NextPending(q).None?
    ensures RunnerOk(plan, ClaimRunner(r, w, q), session, q)
  {
    var r' := ClaimRunner(r, w, q);
    MoveKeepsHeld(q, r.workers, w, r'.workers[w]);
    UncountedStep(r.workers, w, r'.workers[w]);
  }

  lemma ClaimKeepsHeld(q: seq<QueueRow>, ws: seq<Pc>, w: WorkerId, i: nat)
    requires HeldOk(q, ws) && w < |ws| && ws[w].Runnable? && i < |q| && q[i].status.Pending?
    ensures HeldOk(q[i := q[i].(status := Processing(w))], ws[w := Holding(i, q[i])])
  {
  }

  lemma TakeKeepsRunner(plan: Plan, r: Runner, session: Session, q: seq<QueueRow>, w: WorkerId, q': seq<QueueRow>)
    requires RunnerOk(plan, r, session, q) && r.phase.Working? && w < |r.workers| && r.workers[w].Runnable?
    requires var i := NextPending(q); i.Some? && q' == q[i.value := q[i.value].(status := Processing(w))]
    requires Keys(q') == Keys(q)
    ensures RunnerOk(plan, ClaimRunner(r, w, q), session, q')
  {
    var r' := ClaimRunner(r, w, q);
    var i := NextPending(q).value;
    ClaimKeepsHeld(q, r.workers, w, i);
    UncountedStep(r.workers, w, r'.workers[w]);
    assert forall v :: 0 <= v < |r.workers| ==> r.workers[v] != Exited(NothingPending) by {
      assert q[i].status.Pending?;
    }
  }

  lemma FinishKeepsHeld(q: seq<QueueRow>, ws: seq<Pc>, w: WorkerId, count: nat)
    requires HeldOk(q, ws) && w < |ws| && ws[w].Holding? && HolderOk(q, w, ws[w])
    ensures HeldOk(q[ws[w].row := q[ws[w].row].(status := Done, payload := None)], ws[w := Applied(count)])
  {
    var i := ws[w].row;
    var q' := q[i := q[i].(status := Done, payload := None)];
    forall v | 0 <= v < |ws| && v != w ensures HolderOk(q', v, ws[v]) {
      assert HolderOk(q, v, ws[v]);
    }
  }

  lemma ApplyKeepsRunner(plan: Plan, r: Runner, session: Session, session': Session, q: seq<QueueRow>, w: WorkerId,
                         q': seq<QueueRow>, count: nat)
    requires RunnerOk(plan, r, session, q) && r.phase.Working? && w < |r.workers| && r.workers[w].Holding?
    requires var i := r.workers[w].row; i < |q| && q' == q[i := q[i].(status := Done, payload := None)]
    requires Keys(q') == Keys(q) && session'.filesSeen == session.filesSeen + count
    ensures RunnerOk(plan, Move(r, w, Applied(count), r.controller), session', q')
  {
    var r' := Move(r, w, Applied(count), r.controller);
    assert HolderOk(q, w, r.workers[w]);
    FinishKeepsHeld(q, r.workers, w, count);
    UncountedStep(r.workers, w, Applied(count));
    if v :| 0 <= v < |r'.workers| && r'.workers[v] == Exited(NothingPending) {
      assert r.workers[v] == Exited(NothingPending);
    }
  }

  lemma HistoryGrows(log: seq<Key>, q: seq<QueueRow>, q': seq<QueueRow>, key: Key)
    requires HistoryOk(log, q) && key !in DoneKeys(q) && DoneKeys(q') == DoneKeys(q) + {key}
    ensures HistoryOk(log + [key], q')
  {
    assert key !in Elements(log);
    DistinctSplit(log, [key]);
    assert Elements(log + [key]) == Elements(log) + {key};
  }

  // ----- the durable half -----

  lemma RequeueRowsOk(tree: Tree, plan: Plan, session: Session, q: seq<QueueRow>, log: seq<Key>,
                      worker: Option<WorkerId>)
    requires RowsOk(tree, plan, session, q, log)
    ensures RowsOk(tree, plan, session, Requeue(q, worker), log)
    ensures worker.None? ==> NoneProcessing(Requeue(q, worker))
  {
    RequeueKeeps(plan, q, worker);
  }

  lemma StatusRowsOk(tree: Tree, plan: Plan, session: Session, session': Session, q: seq<QueueRow>, log: seq<Key>)
    requires RowsOk(tree, plan, session, q, log) && session' == session.(status := session'.status)
    ensures RowsOk(tree, plan, session', q, log)
  {
  }

  lemma SeedRowsOk(tree: Tree, plan: Plan, session: Session, q: seq<QueueRow>, log: seq<Key>, items: seq<Prepared>)
    requires RowsOk(tree, plan, session, q, log) && Fits(plan, items)
    ensures RowsOk(tree, plan, session, Seed(q, items), log)
    ensures NoneProcessing(q) ==> NoneProcessing(Seed(q, items))
  {
    SeedExtends(plan, q, items);
    ExtendsDoneKeys(q, Seed(q, items));
  }

  lemma ClaimRowsOk(tree: Tree, plan: Plan, session: Session, q: seq<QueueRow>, log: seq<Key>, i: nat, w: WorkerId)
    requires RowsOk(tree, plan, session, q, log) && i < |q| && q[i].status.Pending?
    ensures RowsOk(tree, plan, session, Mark(q, q[i].key, Processing(w)), log)
    ensures Keys(Mark(q, q[i].key, Processing(w))) == Keys(q)
    ensures Mark(q, q[i].key, Processing(w)) == q[i := q[i].(status := Processing(w))]
  {
    ClaimKeeps(plan, q, i, w);
  }

  /** The counters after a batch was added. */
  function Advanced(session: Session, b: FO.Batch): Session {
    session.(filesSeen := session.filesSeen + |b.files|, bytesSeen := session.bytesSeen + b.bytes,
             directoriesCompleted := session.directoriesCompleted + 1, errorCount := session.errorCount + b.errors)
  }

  lemma ApplyRowsOk(tree: Tree, plan: Plan, session: Session, q: seq<QueueRow>, log: seq<Key>, i: nat)
    requires RowsOk(tree, plan, session, q, log) && i < |q| && !q[i].status.Done?
    requires q[i].payload.Some?
    ensures RowsOk(tree, plan, Advanced(session, BatchOf(tree, session.root, q[i].payload.value, q[i].errors)),
                   Mark(q, q[i].key, Done), log + [q[i].key])
    ensures Mark(q, q[i].key, Done) == q[i := q[i].(status := Done, payload := None)]
    ensures Keys(Mark(q, q[i].key, Done)) == Keys(q)
  {
    FinishKeeps(plan, q, i);
    HistoryGrows(log, q, Mark(q, q[i].key, Done), q[i].key);
  }

  // ----- the steps of the system -----

  /** The part of the state that SessionOk speaks of is unchanged. */
  ghost predicate SameRows(s: System, s': System, sid: SessionId) {
    && sid in s.db.sessions && sid in s'.db.sessions
    && s'.db.sessions[sid].(status := Running) == s.db.sessions[sid].(status := Running)
    && Queue(s'.db, sid) == Queue(s.db, sid) && History(s', sid) == History(s, sid)
  }

  // ----- what no step but a creation changes of the sessions and snapshots -----

  ghost predicate SameShape(db: Database, db': Database) {
    && db'.sessions.Keys == db.sessions.Keys && db'.snapshots.Keys == db.snapshots.Keys
    && db'.rootUpdatedAt == db.rootUpdatedAt && db'.clock == db.clock
    && (forall x :: x in db.sessions ==>
          db'.sessions[x].root == db.sessions[x].root && db'.sessions[x].snapshot == db.sessions[x].snapshot)
    && (forall n :: n in db.snapshots ==>
          db'.snapshots[n].root == db.snapshots[n].root && db'.snapshots[n].generation == db.snapshots[n].generation)
  }

  lemma ReopenKeepsShape(db: Database, sid: SessionId)
    ensures SameShape(db, ReopenSession(db, sid))
  {
  }

  lemma FailKeepsShape(db: Database, sid: SessionId)
    ensures SameShape(db, FailSession(db, sid))
  {
  }

  lemma InterruptKeepsShape(db: Database, sid: SessionId, reason: StopReason)
    ensures SameShape(db, InterruptedDb(db, sid, reason))
  {
  }

  lemma CommitKeepsShape(db: Database, sid: SessionId)
    ensures SameShape(db, CommitSession(db, sid))
  {
  }

  lemma EdgeKeepsShape(s: System, l: Label)
    requires StartsOrEnds(l) && EdgeEnabled(s, l) && !l.Create?
    ensures SameShape(s.db, EdgeNext(s, l).db)
  {
    if l.Reopen? {
      ReopenKeepsShape(s.db, l.sid);
    } else if l.RootUnreadable? {
      FailKeepsShape(s.db, s.runner.value.sid);
    } else if l.PrepareInterrupted? {
      InterruptKeepsShape(SeedQueue(s.db, s.runner.value.sid, l.items), s.runner.value.sid, l.reason);
    } else if s.runner.value.stopReason.None? {
      CommitKeepsShape(s.db, s.runner.value.sid);
    } else {
      InterruptKeepsShape(s.db, s.runner.value.sid, s.runner.value.stopReason.value);
    }
  }

  /** A worker step other than an apply changes at most queue rows and the runner. */
  lemma QuietWorkerEffects(tree: Tree, s: System, l: Label)
    requires WorkerStep(l) && WorkerEnabled(s, l) && !l.Apply?
    ensures var s' := WorkerNext(tree, s, l);
      && s'.db == s.db.(queues := s'.db.queues) && s'.applied == s.applied
      && s'.runner.Some? && s'.runner.value.sid == s.runner.value.sid
      && forall x :: x != s.runner.value.sid ==> Queue(s'.db, x) == Queue(s.db, x)
  {
    if l.Poll? {
      assert WorkerNext(tree, s, l) == PollStep(s, l.w);
    } else if l.Await? {
      assert WorkerNext(tree, s, l) == AwaitStep(s, l.w);
    } else if l.Claim? {
      assert WorkerNext(tree, s, l) == ClaimStep(s, l.w);
    } else {
      assert WorkerNext(tree, s, l).db == s.db;
    }
  }

  lemma WorkerKeepsShape(tree: Tree, s: System, l: Label)
    requires WorkerStep(l) && WorkerEnabled(s, l)
    ensures SameShape(s.db, WorkerNext(tree, s, l).db)
  {
    if l.Apply? {
      assert WorkerNext(tree, s, l).db.snapshots == s.db.snapshots;
    } else {
      QuietWorkerEffects(tree, s, l);
    }
  }

  /** A scan that starts or ends leaves the file records alone, unless it commits. */
  lemma EdgeEffects(s: System, l: Label)
    requires StartsOrEnds(l) && EdgeEnabled(s, l) && !l.Create? && !l.Finalize?
    ensures var s' := EdgeNext(s, l);
      && s'.db.files == s.db.files && s'.applied == s.applied
      && (s'.runner.Some? ==> l.Reopen? && s'.runner.value.sid == l.sid)
  {
  }

  lemma StepKeepsIdentity(tree: Tree, sid: SessionId, s: System, l: Label)
    requires Enabled(s, l) && sid in s.db.sessions
    ensures sid in Next(tree, s, l).db.sessions
    ensures Next(tree, s, l).db.sessions[sid].root == s.db.sessions[sid].root
    ensures Next(tree, s, l).db.sessions[sid].snapshot == s.db.sessions[sid].snapshot
  {
    if WorkerStep(l) {
      WorkerKeepsShape(tree, s, l);
    } else if StartsOrEnds(l) {
      if !l.Create? { EdgeKeepsShape(s, l); }
    } else {
      assert SignalNext(s, l).db.sessions == s.db.sessions;
    }
  }

  lemma ForeignApply(tree: Tree, sid: SessionId, s: System, w: WorkerId)
    requires Enabled(s, Apply(w)) && sid in s.db.sessions && !Mine(s, sid)
    ensures SameRows(s, ApplyStep(tree, s, w), sid) && !Mine(ApplyStep(tree, s, w), sid)
  {
  }

  lemma ForeignQuietWorker(tree: Tree, sid: SessionId, s: System, l: Label)
    requires Enabled(s, l) && sid in s.db.sessions && s.runner.Some? && !Mine(s, sid) && WorkerStep(l) && !l.Apply?
    ensures SameRows(s, Next(tree, s, l), sid) && !Mine(Next(tree, s, l), sid)
  {
    QuietWorkerEffects(tree, s, l);
  }

  lemma ForeignWorker(tree: Tree, sid: SessionId, s: System, l: Label)
    requires Enabled(s, l) && sid in s.db.sessions && s.runner.Some? && !Mine(s, sid) && WorkerStep(l)
    ensures SameRows(s, Next(tree, s, l), sid) && !Mine(Next(tree, s, l), sid)
  {
    if l.Apply? { ForeignApply(tree, sid, s, l.w); } else { ForeignQuietWorker(tree, sid, s, l); }
  }

  lemma ForeignEdge(s: System, l: Label, sid: SessionId)
    requires StartsOrEnds(l) && EdgeEnabled(s, l) && sid in s.db.sessions && s.runner.Some? && !Mine(s, sid)
    ensures SameRows(s, EdgeNext(s, l), sid) && !Mine(EdgeNext(s, l), sid)
  {
  }

  lemma ForeignSignal(s: System, l: Label, sid: SessionId)
    requires !WorkerStep(l) && !StartsOrEnds(l) && SignalEnabled(s, l)
    requires sid in s.db.sessions && s.runner.Some? && !Mine(s, sid)
    ensures SameRows(s, SignalNext(s, l), sid) && !Mine(SignalNext(s, l), sid)
  {
  }

  lemma ForeignControl(tree: Tree, sid: SessionId, s: System, l: Label)
    requires Enabled(s, l) && sid in s.db.sessions && s.runner.Some? && !Mine(s, sid) && !WorkerStep(l)
    ensures SameRows(s, Next(tree, s, l), sid) && !Mine(Next(tree, s, l), sid)
  {
    if StartsOrEnds(l) { ForeignEdge(s, l, sid); } else { ForeignSignal(s, l, sid); }
  }

  /** A step of another session's scan leaves this session's rows, counters and history alone. */
  lemma ForeignStep(tree: Tree, sid: SessionId, s: System, l: Label)
    requires Enabled(s, l) && sid in s.db.sessions && s.runner.Some? && !Mine(s, sid)
    ensures SameRows(s, Next(tree, s, l), sid) && !Mine(Next(tree, s, l), sid)
  {
    if WorkerStep(l) { ForeignWorker(tree, sid, s, l); } else { ForeignControl(tree, sid, s, l); }
  }

  lemma SameRowsKeep(tree: Tree, plan: Plan, sid: SessionId, s: System, s': System)
    requires SessionOk(tree, plan, sid, s) && SameRows(s, s', sid)
    requires Mine(s', sid) ==> RunnerOk(plan, s'.runner.value, s'.db.sessions[sid], Queue(s'.db, sid))
    ensures SessionOk(tree, plan, sid, s')
  {
    StatusRowsOk(tree, plan, s.db.sessions[sid], s'.db.sessions[sid], Queue(s.db, sid), History(s, sid));
  }

  lemma ReopenKeeps(tree: Tree, plan: Plan, sid: SessionId, s: System, maxFiles: Option<nat>, c: C.Controller)
    requires SessionOk(tree, plan, sid, s) && s.runner.None?
    ensures SessionOk(tree, plan, sid,
                      s.(db := ReopenSession(s.db, sid), runner := Some(NewRunner(sid, maxFiles, c))))
  {
    var q, session, log := Queue(s.db, sid), s.db.sessions[sid], History(s, sid);
    RequeueRowsOk(tree, plan, session, q, log, None);
    StatusRowsOk(tree, plan, session, session.(status := Running), Requeue(q, None), log);
  }

  lemma IdleStep(tree: Tree, plan: Plan, sid: SessionId, s: System, l: Label)
    requires Enabled(s, l) && SessionOk(tree, plan, sid, s) && s.runner.None?
    ensures SessionOk(tree, plan, sid, Next(tree, s, l))
  {
    if l.Reopen? && l.sid == sid {
      ReopenKeeps(tree, plan, sid, s, l.maxFiles, l.controller);
    } else {
      SameRowsKeep(tree, plan, sid, s, Next(tree, s, l));
    }
  }

  /** The workers of a new pool hold nothing and owe nothing. */
  lemma FreshRunnerOk(plan: Plan, r: Runner, session: Session, q: seq<QueueRow>, workers: nat)
    requires NoneProcessing(q) && Covers(plan, q) && r.phase.Working? && r.controller.collectorFinished
    requires r.workers == seq(workers, _ => Top) && r.cell == session.filesSeen
    ensures RunnerOk(plan, r, session, q)
  {
    UncountedFresh(workers);
  }

  lemma SeedKeepsNoneProcessing(plan: Plan, q: seq<QueueRow>, items: seq<Prepared>)
    requires QueueOk(plan, q) && Fits(plan, items) && NoneProcessing(q)
    ensures NoneProcessing(Seed(q, items))
  {
    SeedExtends(plan, q, items);
  }

  lemma PrepareKeeps(tree: Tree, plan: Plan, sid: SessionId, s: System, items: seq<Prepared>, workers: nat)
    requires Enabled(s, Prepare(items, workers)) && SessionOk(tree, plan, sid, s) && Mine(s, sid)
    requires FitsAll(plan, items)
    ensures SessionOk(tree, plan, sid, Next(tree, s, Prepare(items, workers)))
  {
    var q, session, s' := Queue(s.db, sid), s.db.sessions[sid], PrepareStep(s, items, workers);
    SeedRowsOk(tree, plan, session, q, History(s, sid), items);
    SeedCovers(plan, q, items);
    SeedKeepsNoneProcessing(plan, q, items);
    FreshRunnerOk(plan, s'.runner.value, session, Seed(q, items), workers);
  }

  lemma InterruptedKeeps(tree: Tree, plan: Plan, sid: SessionId, s: System, q: seq<QueueRow>, reason: StopReason)
    requires sid in s.db.sessions && RowsOk(tree, plan, s.db.sessions[sid], q, History(s, sid))
    ensures SessionOk(tree, plan, sid,
                      s.(db := InterruptedDb(s.db.(queues := s.db.queues[sid := q]), sid, reason), runner := None))
  {
    var session, log := s.db.sessions[sid], History(s, sid);
    RequeueRowsOk(tree, plan, session, q, log, None);
    var session' := session.(status := if reason.ReasonStopped? then Stopped else Paused);
    StatusRowsOk(tree, plan, session, session', Requeue(q, None), log);
  }

  lemma PrepareInterruptedKeeps(tree: Tree, plan: Plan, sid: SessionId, s: System, items: seq<Prepared>,
                                reason: StopReason)
    requires Enabled(s, PrepareInterrupted(items, reason)) && SessionOk(tree, plan, sid, s) && Mine(s, sid)
    requires Fits(plan, items)
    ensures SessionOk(tree, plan, sid, Next(tree, s, PrepareInterrupted(items, reason)))
  {
    var q := Queue(s.db, sid);
    SeedRowsOk(tree, plan, s.db.sessions[sid], q, History(s, sid), items);
    InterruptedKeeps(tree, plan, sid, s, Seed(q, items), reason);
  }

  lemma PollKeeps(tree: Tree, plan: Plan, sid: SessionId, s: System, w: WorkerId)
    requires Enabled(s, Poll(w)) && SessionOk(tree, plan, sid, s) && Mine(s, sid)
    ensures SessionOk(tree, plan, sid, PollStep(s, w))
  {
    var r, q := s.runner.value, Queue(s.db, sid);
    RequeueOwnIsNoop(q, r.workers, w);
    QuietKeeps(plan, r, PollRunner(r, w), s.db.sessions[sid], q, w);
    SameRowsKeep(tree, plan, sid, s, PollStep(s, w));
  }

  lemma AwaitKeeps(tree: Tree, plan: Plan, sid: SessionId, s: System, w: WorkerId)
    requires Enabled(s, Await(w)) && SessionOk(tree, plan, sid, s) && Mine(s, sid)
    ensures SessionOk(tree, plan, sid, AwaitStep(s, w))
  {
    var r, q := s.runner.value, Queue(s.db, sid);
    RequeueOwnIsNoop(q, r.workers, w);
    QuietKeeps(plan, r, AwaitRunner(r, w), s.db.sessions[sid], q, w);
    SameRowsKeep(tree, plan, sid, s, AwaitStep(s, w));
  }

  lemma ClaimKeepsSession(tree: Tree, plan: Plan, sid: SessionId, s: System, w: WorkerId)
    requires Enabled(s, Claim(w)) && SessionOk(tree, plan, sid, s) && Mine(s, sid)
    ensures SessionOk(tree, plan, sid, ClaimStep(s, w))
  {
    var r, q, session := s.runner.value, Queue(s.db, sid), s.db.sessions[sid];
    var next := NextPending(q);
    if next.None? {
      ClaimKeepsRunner(plan, r, session, q, w);
      SameRowsKeep(tree, plan, sid, s, ClaimStep(s, w));
    } else {
      ClaimRowsOk(tree, plan, session, q, History(s, sid), next.value, w);
      TakeKeepsRunner(plan, r, session, q, w, Mark(q, q[next.value].key, Processing(w)));
    }
  }

  lemma ApplyKeepsSession(tree: Tree, plan: Plan, sid: SessionId, s: System, w: WorkerId)
    requires Enabled(s, Apply(w)) && SessionOk(tree, plan, sid, s) && Mine(s, sid)
    ensures SessionOk(tree, plan, sid, ApplyStep(tree, s, w))
  {
    var r, q, session := s.runner.value, Queue(s.db, sid), s.db.sessions[sid];
    var s' := ApplyStep(tree, s, w);
    var i, claimed := r.workers[w].row, r.workers[w].claimed;
    assert q[i] == claimed.(status := Processing(w)) by { assert HolderOk(q, w, r.workers[w]); }
    ApplyRowsOk(tree, plan, session, q, History(s, sid), i);
    var b := BatchOf(tree, session.root, claimed.payload.value, claimed.errors);
    assert s'.db.sessions[sid] == Advanced(session, b);
    ApplyKeepsRunner(plan, r, session, s'.db.sessions[sid], q, w, Mark(q, claimed.key, Done), |b.files|);
  }

  lemma FinalizeKeeps(tree: Tree, plan: Plan, sid: SessionId, s: System)
    requires Enabled(s, Finalize) && SessionOk(tree, plan, sid, s) && Mine(s, sid)
    ensures SessionOk(tree, plan, sid, FinalizeStep(s))
  {
    if s.runner.value.stopReason.None? {
      SameRowsKeep(tree, plan, sid, s, FinalizeStep(s));
    } else {
      var q := Queue(s.db, sid);
      assert Requeue(q, None) == Requeue(Queue(s.db.(queues := s.db.queues[sid := q]), sid), None);
      InterruptedKeeps(tree, plan, sid, s, q, s.runner.value.stopReason.value);
      assert s.db.queues[sid := q][sid := Requeue(q, None)] == s.db.queues[sid := Requeue(q, None)];
    }
  }

  lemma TailKeeps(tree: Tree, plan: Plan, sid: SessionId, s: System, l: Label)
    requires Enabled(s, l) && SessionOk(tree, plan, sid, s) && Mine(s, sid) && (l.Count? || l.Recheck? || l.Die?)
    ensures SessionOk(tree, plan, sid, Next(tree, s, l))
  {
    var r, q := s.runner.value, Queue(s.db, sid);
    var r' := match l
      case Count(w) => CountRunner(r, w)
      case Recheck(w) => RecheckRunner(r, w)
      case Die(w) => DieRunner(r, w);
    QuietKeeps(plan, r, r', s.db.sessions[sid], q, l.w);
    SameRowsKeep(tree, plan, sid, s, Next(tree, s, l));
  }

  lemma WorkerKeeps(tree: Tree, plan: Plan, sid: SessionId, s: System, l: Label)
    requires Enabled(s, l) && SessionOk(tree, plan, sid, s) && Mine(s, sid) && WorkerStep(l)
    ensures SessionOk(tree, plan, sid, Next(tree, s, l))
  {
    if l.Poll? { PollKeeps(tree, plan, sid, s, l.w); }
    else if l.Await? { AwaitKeeps(tree, plan, sid, s, l.w); }
    else if l.Claim? { ClaimKeepsSession(tree, plan, sid, s, l.w); }
    else if l.Apply? { ApplyKeepsSession(tree, plan, sid, s, l.w); }
    else { TailKeeps(tree, plan, sid, s, l); }
  }

  lemma ControlKeeps(tree: Tree, plan: Plan, sid: SessionId, s: System, l: Label)
    requires Enabled(s, l) && SessionOk(tree, plan, sid, s) && Mine(s, sid) && Planned(plan, sid, s, l) && !WorkerStep(l)
    ensures SessionOk(tree, plan, sid, Next(tree, s, l))
  {
    if l.Prepare? { PrepareKeeps(tree, plan, sid, s, l.items, l.workers); }
    else if l.PrepareInterrupted? { PrepareInterruptedKeeps(tree, plan, sid, s, l.items, l.reason); }
    else if l.Finalize? { FinalizeKeeps(tree, plan, sid, s); }
    else { SameRowsKeep(tree, plan, sid, s, Next(tree, s, l)); }
  }

  /** The step lemma: whatever happens next, the session stays in order. */
  lemma StepKeepsSession(tree: Tree, plan: Plan, sid: SessionId, s: System, l: Label)
    requires Enabled(s, l) && SessionOk(tree, plan, sid, s) && Planned(plan, sid, s, l)
    ensures SessionOk(tree, plan, sid, Next(tree, s, l))
  {
    if s.runner.None? {
      IdleStep(tree, plan, sid, s, l);
    } else if !Mine(s, sid) {
      ForeignStep(tree, sid, s, l);
      SameRowsKeep(tree, plan, sid, s, Next(tree, s, l));
    } else if WorkerStep(l) {
      WorkerKeeps(tree, plan, sid, s, l);
    } else {
      ControlKeeps(tree, plan, sid, s, l);
    }
  }

  ghost predicate PlannedRun(tree: Tree, plan: Plan, sid: SessionId, s: System, ls: seq<Label>)
    requires IsRun(tree, s, ls)
    decreases |ls|
  {
    ls == [] || (Planned(plan, sid, s, ls[0]) && PlannedRun(tree, plan, sid, Next(tree, s, ls[0]), ls[1..]))
  }

  /** Safety over whole runs: every reachable state is in order. */
  lemma {:induction false} RunKeepsSession(tree: Tree, plan: Plan, sid: SessionId, s: System, ls: seq<Label>)
    requires SessionOk(tree, plan, sid, s) && IsRun(tree, s, ls) && PlannedRun(tree, plan, sid, s, ls)
    ensures SessionOk(tree, plan, sid, After(tree, s, ls))
    decreases |ls|
  {
    if ls != [] {
      StepKeepsSession(tree, plan, sid, s, ls[0]);
      RunKeepsSession(tree, plan, sid, Next(tree, s, ls[0]), ls[1..]);
    }
  }
}
