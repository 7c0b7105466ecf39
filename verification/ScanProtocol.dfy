/** The catalog scan as a transition system: the tables, at most one running scan, its controller
    and its worker threads. Every label is one atomic step; threads interleave at every step. */
module ScanProtocol {
  import opened Basics
  import opened CatalogTables
  import C = ControllerState
  import FO = FileObservation

  datatype StopReason = ReasonStopped | ReasonPaused

  datatype ExitReason = NothingPending | ActorWasStopped | ControlRequested | SawPausedScan

  /** Where a worker thread stands in its loop. A thread that raised is Dead and keeps the row it held. */
  datatype Pc =
    | Top
    | Polled
    | Runnable
    | Holding(row: nat, claimed: QueueRow)
    | Applied(count: nat)
    | Counted
    | Exited(reason: ExitReason)
    | Dead(held: Option<nat>, uncounted: nat)

  datatype Phase = Selected | Working

  datatype Runner = Runner(
    sid: SessionId, maxFiles: Option<nat>, phase: Phase, controller: C.Controller,
    pauseRequested: bool, stopRequested: bool,
    cell: nat, stopReason: Option<StopReason>, workers: seq<Pc>)

  /** `applied` is history: the keys whose batch was applied, per session and in order. */
  datatype System = System(db: Database, runner: Option<Runner>, applied: map<SessionId, seq<Key>>)

  /** What a stat of each path finds; it does not change while sessions run. */
  type Tree = map<FileKey, Probe>

  datatype Label =
    | Tick
    | Reconfigure(root: RootId)
    | Create(sid: SessionId, root: RootId, snapshot: SnapshotId, generation: nat, maxFiles: Option<nat>,
             controller: C.Controller)
    | Reopen(sid: SessionId, maxFiles: Option<nat>, controller: C.Controller)
    | RootUnreadable
    | Prepare(items: seq<Prepared>, workers: nat)
    | PrepareInterrupted(items: seq<Prepared>, reason: StopReason)
    | SetPause(on: bool)
    | RequestStop
    | PauseActor(a: C.ActorId)
    | ResumeActor(a: C.ActorId)
    | StopActor(a: C.ActorId)
    | Poll(w: WorkerId)
    | Await(w: WorkerId)
    | Claim(w: WorkerId)
    | Apply(w: WorkerId)
    | Count(w: WorkerId)
    | Recheck(w: WorkerId)
    | Die(w: WorkerId)
    | Finalize
    | Crash

  // ----- guards -----

  predicate InPhase(s: System, p: Phase) {
    s.runner.Some? && s.runner.value.phase == p && s.runner.value.sid in s.db.sessions
  }

  predicate At(s: System, w: WorkerId) {
    InPhase(s, Working) && w < |s.runner.value.workers|
  }

  predicate Gone(pc: Pc) {
    pc.Exited? || pc.Dead?
  }

  predicate Joined(r: Runner) {
    forall w :: 0 <= w < |r.workers| ==> Gone(r.workers[w])
  }

  /** The steps of worker threads. */
  predicate WorkerStep(l: Label) {
    l.Poll? || l.Await? || l.Claim? || l.Apply? || l.Count? || l.Recheck? || l.Die?
  }

  /** The steps that start a scan or end one in order. */
  predicate StartsOrEnds(l: Label) {
    l.Create? || l.Reopen? || l.RootUnreadable? || l.PrepareInterrupted? || l.Finalize?
  }

  predicate WorkerEnabled(s: System, l: Label)
    requires WorkerStep(l)
  {
    At(s, l.w) && var pc := s.runner.value.workers[l.w];
      if l.Poll? then pc.Top?
      else if l.Await? then pc.Polled? && C.Worker(l.w) in s.runner.value.controller.actors
      else if l.Claim? then pc.Runnable?
      else if l.Apply? then pc.Holding? && pc.claimed.payload.Some?
      else if l.Count? then pc.Applied?
      else if l.Recheck? then pc.Counted?
      else !Gone(pc)
  }

  ghost predicate EdgeEnabled(s: System, l: Label)
    requires StartsOrEnds(l)
  {
    if l.Create? then
      && s.runner.None? && l.sid !in s.db.sessions && l.snapshot !in s.db.snapshots && l.root in s.db.rootUpdatedAt
      && IsNextGeneration(s.db, l.root, l.generation)
    else if l.Reopen? then s.runner.None? && l.sid in s.db.sessions
    else if l.Finalize? then InPhase(s, Working) && Joined(s.runner.value)
    else InPhase(s, Selected)
  }

  predicate SignalEnabled(s: System, l: Label) {
    if l.Tick? || l.Reconfigure? then true
    else if l.Prepare? then InPhase(s, Selected) && C.AllActors(l.workers) <= s.runner.value.controller.actors.Keys
    else s.runner.Some?
  }

  ghost predicate Enabled(s: System, l: Label) {
    if WorkerStep(l) then WorkerEnabled(s, l)
    else if StartsOrEnds(l) then EdgeEnabled(s, l)
    else SignalEnabled(s, l)
  }

  // ----- steps -----

  function NewRunner(sid: SessionId, maxFiles: Option<nat>, c: C.Controller): Runner {
    Runner(sid, maxFiles, Selected, c, false, false, 0, None, [])
  }

  function WithRunner(s: System, r: Runner): System {
    s.(runner := Some(r))
  }

  /** Worker w moves to pc; its controller entry becomes c. */
  function Move(r: Runner, w: WorkerId, pc: Pc, c: C.Controller): Runner
    requires w < |r.workers|
  {
    r.(workers := r.workers[w := pc], controller := c)
  }

  /** The observation of a claimed row, with the row's own error count added. */
  function BatchOf(tree: Tree, root: RootId, payload: seq<Path>, errors: nat): FO.Batch {
    var b := FO.Observe(tree, root, FO.PathsFromPayload(payload));
    b.(errors := b.errors + errors)
  }

  function PollRunner(r: Runner, w: WorkerId): Runner
    requires w < |r.workers|
  {
    var a := C.Worker(w);
    if r.stopRequested then
      Move(r, w, Exited(ControlRequested), C.MarkIdle(C.RequestStop(r.controller, a), a))
        .(stopReason := Some(ReasonStopped))
    else if r.pauseRequested then
      Move(r, w, Exited(ControlRequested), C.MarkIdle(C.RequestPause(r.controller, a), a))
        .(stopReason := Some(ReasonPaused))
    else Move(r, w, Polled, r.controller)
  }

  /** Both the control exits and the actor's own stop first requeue the worker's rows. */
  function RequeueIf(cond: bool, db: Database, sid: SessionId, w: WorkerId): Database {
    if cond then RequeueRows(db, sid, Some(w)) else db
  }

  function PollStep(s: System, w: WorkerId): System
    requires At(s, w)
  {
    var r := s.runner.value;
    WithRunner(s, PollRunner(r, w)).(db := RequeueIf(r.stopRequested || r.pauseRequested, s.db, r.sid, w))
  }

  function AwaitRunner(r: Runner, w: WorkerId): Runner
    requires w < |r.workers| && C.Worker(w) in r.controller.actors
  {
    var pc := match C.Decide(r.controller, C.Worker(w))
      case Halt => Exited(ActorWasStopped)
      case Wait => Polled
      case Go => Runnable;
    Move(r, w, pc, C.Look(r.controller, C.Worker(w)))
  }

  function AwaitStep(s: System, w: WorkerId): System
    requires At(s, w) && C.Worker(w) in s.runner.value.controller.actors
  {
    var r := s.runner.value;
    WithRunner(s, AwaitRunner(r, w)).(db := RequeueIf(C.Decide(r.controller, C.Worker(w)).Halt?, s.db, r.sid, w))
  }

  function ClaimRunner(r: Runner, w: WorkerId, q: seq<QueueRow>): Runner
    requires w < |r.workers|
  {
    var next := NextPending(q);
    if next.Some? then
      Move(r, w, Holding(next.value, q[next.value]),
           C.MarkRunning(r.controller, C.Worker(w), q[next.value].key))
    else
      Move(r, w, if r.controller.collectorFinished then Exited(NothingPending) else Top,
           C.MarkIdle(r.controller, C.Worker(w)))
  }

  function ClaimStep(s: System, w: WorkerId): System
    requires At(s, w)
  {
    var r := s.runner.value;
    var next := NextPending(Queue(s.db, r.sid));
    WithRunner(s, ClaimRunner(r, w, Queue(s.db, r.sid)))
      .(db := if next.Some? then ClaimRow(s.db, r.sid, w, next.value) else s.db)
  }

  function History(s: System, sid: SessionId): seq<Key> {
    if sid in s.applied then s.applied[sid] else []
  }

  function ApplyStep(tree: Tree, s: System, w: WorkerId): System
    requires At(s, w) && s.runner.value.workers[w].Holding? && s.runner.value.workers[w].claimed.payload.Some?
  {
    var r := s.runner.value;
    var row := r.workers[w].claimed;
    var session := s.db.sessions[r.sid];
    var b := BatchOf(tree, session.root, row.payload.value, row.errors);
    WithRunner(s, Move(r, w, Applied(|b.files|), r.controller))
      .(db := ApplyBatch(s.db, r.sid, session.root, session.snapshot, row.key, b.files, b.bytes, b.errors),
        applied := s.applied[r.sid := History(s, r.sid) + [row.key]])
  }

  function CountRunner(r: Runner, w: WorkerId): Runner
    requires w < |r.workers| && r.workers[w].Applied?
  {
    var cell := r.cell + r.workers[w].count;
    var reached := r.maxFiles.Some? && cell >= r.maxFiles.value && r.stopReason.None?;
    Move(r, w, Counted, C.MarkIdle(r.controller, C.Worker(w)))
      .(cell := cell, stopReason := if reached then Some(ReasonPaused) else r.stopReason)
  }

  function RecheckRunner(r: Runner, w: WorkerId): Runner
    requires w < |r.workers|
  {
    Move(r, w, if r.stopReason == Some(ReasonPaused) then Exited(SawPausedScan) else Top, r.controller)
  }

  function DieRunner(r: Runner, w: WorkerId): Runner
    requires w < |r.workers|
  {
    var pc := r.workers[w];
    Move(r, w, Dead(if pc.Holding? then Some(pc.row) else None, if pc.Applied? then pc.count else 0), r.controller)
  }

  function InterruptedDb(db: Database, sid: SessionId, reason: StopReason): Database {
    MarkStatus(RequeueRows(db, sid, None), sid, if reason.ReasonStopped? then Stopped else Paused)
  }

  function FinalizeStep(s: System): System
    requires InPhase(s, Working)
  {
    var r := s.runner.value;
    s.(runner := None,
       db := if r.stopReason.None? then CommitSession(s.db, r.sid) else InterruptedDb(s.db, r.sid, r.stopReason.value))
  }

  function WorkerNext(tree: Tree, s: System, l: Label): System
    requires WorkerStep(l) && WorkerEnabled(s, l)
  {
    if l.Poll? then PollStep(s, l.w)
    else if l.Await? then AwaitStep(s, l.w)
    else if l.Claim? then ClaimStep(s, l.w)
    else if l.Apply? then ApplyStep(tree, s, l.w)
    else if l.Count? then WithRunner(s, CountRunner(s.runner.value, l.w))
    else if l.Recheck? then WithRunner(s, RecheckRunner(s.runner.value, l.w))
    else WithRunner(s, DieRunner(s.runner.value, l.w))
  }

  function EdgeNext(s: System, l: Label): System
    requires StartsOrEnds(l) && EdgeEnabled(s, l)
  {
    if l.Create? then
      s.(db := CreateSession(s.db, l.sid, l.root, l.snapshot, l.generation),
         runner := Some(NewRunner(l.sid, l.maxFiles, l.controller)), applied := s.applied[l.sid := []])
    else if l.Reopen? then
      s.(db := ReopenSession(s.db, l.sid), runner := Some(NewRunner(l.sid, l.maxFiles, l.controller)))
    else if l.RootUnreadable? then s.(db := FailSession(s.db, s.runner.value.sid), runner := None)
    else if l.PrepareInterrupted? then
      var sid := s.runner.value.sid;
      s.(db := InterruptedDb(SeedQueue(s.db, sid, l.items), sid, l.reason), runner := None)
    else FinalizeStep(s)
  }

  function PrepareStep(s: System, items: seq<Prepared>, workers: nat): System
    requires InPhase(s, Selected)
  {
    var r := s.runner.value;
    WithRunner(s, r.(phase := Working, controller := C.MarkCollectorFinished(r.controller),
                     cell := s.db.sessions[r.sid].filesSeen, workers := seq(workers, _ => Top)))
      .(db := SeedQueue(s.db, r.sid, items))
  }

  function SignalNext(s: System, l: Label): System
    requires !WorkerStep(l) && !StartsOrEnds(l) && SignalEnabled(s, l)
  {
    if l.Tick? then s.(db := s.db.(clock := s.db.clock + 1))
    else if l.Reconfigure? then s.(db := s.db.(rootUpdatedAt := s.db.rootUpdatedAt[l.root := s.db.clock]))
    else if l.Prepare? then PrepareStep(s, l.items, l.workers)
    else if l.Crash? then s.(runner := None)
    else
      var r := s.runner.value;
      WithRunner(s,
        if l.SetPause? then r.(pauseRequested := l.on)
        else if l.RequestStop? then r.(stopRequested := true)
        else r.(controller := if l.PauseActor? then C.RequestPause(r.controller, l.a)
                              else if l.ResumeActor? then C.RequestResume(r.controller, l.a)
                              else C.RequestStop(r.controller, l.a)))
  }

  function Next(tree: Tree, s: System, l: Label): System
    requires Enabled(s, l)
  {
    if WorkerStep(l) then WorkerNext(tree, s, l)
    else if StartsOrEnds(l) then EdgeNext(s, l)
    else SignalNext(s, l)
  }

  // ----- runs -----

  ghost predicate IsRun(tree: Tree, s: System, ls: seq<Label>)
    decreases |ls|
  {
    ls == [] || (Enabled(s, ls[0]) && IsRun(tree, Next(tree, s, ls[0]), ls[1..]))
  }

  ghost function After(tree: Tree, s: System, ls: seq<Label>): System
    requires IsRun(tree, s, ls)
    decreases |ls|
  {
    if ls == [] then s else After(tree, Next(tree, s, ls[0]), ls[1..])
  }
}
