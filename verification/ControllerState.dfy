/** The runtime controller of one scan as a value: who is paused, who is stopped, and what every
    call on it does. The class in RuntimeController.dfy makes the same changes in place. */
module ControllerState {
  import opened Basics
  import opened CatalogTables

  datatype ActorId = Collector | Worker(n: WorkerId)

  datatype ActorState = Idle | Pausing | ActorPaused | Stopping | ActorStopped | Waiting | ActorRunning
    | ActorCompleted

  datatype Actor = Actor(state: ActorState, current: Option<Path>)

  datatype Controller = Controller(actors: map<ActorId, Actor>, paused: set<ActorId>, stopped: set<ActorId>,
                                   collectorFinished: bool)

  /** What wait_until_runnable decides for an actor at one look. */
  datatype Verdict = Go | Wait | Halt

  /** The collector and the workers; worker n is the source's `worker-{n + 1}`. */
  function AllActors(workers: nat): set<ActorId> {
    {Collector} + (set n: nat | n < workers :: Worker(n))
  }

  function Fresh(workers: nat): Controller {
    Controller(map a | a in AllActors(workers) :: Actor(Idle, None), {}, {}, false)
  }

  function SetActor(c: Controller, a: ActorId, actor: Actor): Controller {
    c.(actors := c.actors[a := actor])
  }

  function RequestPause(c: Controller, a: ActorId): Controller {
    if a !in c.actors then c
    else
      var actor := c.actors[a];
      SetActor(c, a, if actor.state.ActorStopped? || actor.state.ActorPaused? then actor
                     else actor.(state := Pausing)).(paused := c.paused + {a})
  }

  function RequestResume(c: Controller, a: ActorId): Controller {
    if a !in c.actors || a in c.stopped then c
    else
      var actor := c.actors[a];
      SetActor(c, a, if actor.state.ActorPaused? || actor.state.Pausing? then Actor(Idle, None)
                     else actor).(paused := c.paused - {a})
  }

  function RequestStop(c: Controller, a: ActorId): Controller {
    if a !in c.actors then c
    else
      var actor := c.actors[a];
      SetActor(c, a, if actor.state.ActorStopped? then actor else actor.(state := Stopping))
        .(paused := c.paused - {a}, stopped := c.stopped + {a})
  }

  function Decide(c: Controller, a: ActorId): Verdict {
    if a in c.stopped then Halt else if a in c.paused then Wait else Go
  }

  /** One look of wait_until_runnable at the controller. */
  function Look(c: Controller, a: ActorId): Controller
    requires a in c.actors
  {
    var actor := c.actors[a];
    match Decide(c, a)
    case Halt => SetActor(c, a, Actor(ActorStopped, None))
    case Wait => SetActor(c, a, Actor(ActorPaused, None))
    case Go => SetActor(c, a, if actor.state.ActorRunning? || actor.state.Waiting? then actor else Actor(Waiting, None))
  }

  function MarkRunning(c: Controller, a: ActorId, path: Path): Controller {
    SetActor(c, a, Actor(ActorRunning, Some(path)))
  }

  function MarkIdle(c: Controller, a: ActorId): Controller {
    SetActor(c, a, Actor(
      if a in c.stopped then ActorStopped
      else if a in c.paused then ActorPaused
      else if a.Collector? && c.collectorFinished then ActorCompleted
      else Waiting, None))
  }

  function MarkCollectorFinished(c: Controller): Controller {
    SetActor(c, Collector, Actor(
      if Collector in c.stopped then ActorStopped
      else if Collector in c.paused then ActorPaused
      else ActorCompleted, None)).(collectorFinished := true)
  }

  function MarkScanCompleted(c: Controller): Controller {
    c.(actors := map a | a in c.actors ::
         if c.actors[a].state.ActorStopped? || c.actors[a].state.ActorPaused? then c.actors[a]
         else Actor(ActorCompleted, None),
       collectorFinished := true)
  }

  // ----- what the reported states mean -----

  /** An actor reported as stopped or stopping has been asked to stop, one reported as paused or
      pausing has been asked to pause; only known actors are in the request sets. */
  ghost predicate Truthful(c: Controller) {
    && c.paused <= c.actors.Keys && c.stopped <= c.actors.Keys
    && forall a :: a in c.actors ==>
      && (c.actors[a].state.ActorStopped? || c.actors[a].state.Stopping? ==> a in c.stopped)
      && (c.actors[a].state.ActorPaused? || c.actors[a].state.Pausing? ==> a in c.paused)
  }
}
