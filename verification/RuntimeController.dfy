/** The scan runtime controller: its actors and request sets as fields, updated in place. */
module RuntimeController {
  import opened Basics
  import opened CatalogTables
  import opened ControllerState

  class ScanRuntimeController {
    var actors: map<ActorId, Actor>
    var paused: set<ActorId>
    var stopped: set<ActorId>
    var collectorFinished: bool

    function State(): Controller
      reads this
    {
      Controller(actors, paused, stopped, collectorFinished)
    }

    /** What the source's calls keep: the reported states tell the truth about the request sets. */
    ghost predicate Valid()
      reads this
    {
      Collector in actors && Truthful(State())
    }

    constructor (workers: nat)
      ensures Valid() && State() == Fresh(workers)
    {
      actors := map a | a in AllActors(workers) :: Actor(Idle, None);
      paused, stopped, collectorFinished := {}, {}, false;
    }

    method RequestPause(a: ActorId) returns (known: bool)
      requires Valid()
      modifies this
      ensures Valid() && State() == ControllerState.RequestPause(old(State()), a)
      ensures known == (a in old(actors)) && (known ==> Decide(State(), a) == if a in stopped then Halt else Wait)
    {
      if a !in actors {
        return false;
      }
      paused := paused + {a};
      var actor := actors[a];
      if !actor.state.ActorStopped? && !actor.state.ActorPaused? {
        actors := actors[a := actor.(state := Pausing)];
      }
      return true;
    }

    method RequestResume(a: ActorId) returns (resumed: bool)
      requires Valid()
      modifies this
      ensures Valid() && State() == ControllerState.RequestResume(old(State()), a)
      ensures resumed == (a in old(actors) && a !in old(stopped)) && (resumed ==> Decide(State(), a).Go?)
    {
      if a !in actors || a in stopped {
        return false;
      }
      paused := paused - {a};
      if actors[a].state.ActorPaused? || actors[a].state.Pausing? {
        actors := actors[a := Actor(Idle, None)];
      }
      return true;
    }

    method RequestStop(a: ActorId) returns (known: bool)
      requires Valid()
      modifies this
      ensures Valid() && State() == ControllerState.RequestStop(old(State()), a)
      ensures known == (a in old(actors)) && (known ==> Decide(State(), a).Halt?)
    {
      if a !in actors {
        return false;
      }
      paused := paused - {a};
      stopped := stopped + {a};
      if !actors[a].state.ActorStopped? {
        actors := actors[a := actors[a].(state := Stopping)];
      }
      return true;
    }

    /** One turn of the loop of wait_until_runnable; on Wait the source waits and looks again. */
    method LookOnce(a: ActorId) returns (verdict: Verdict)
      requires Valid() && a in actors
      modifies this
      ensures Valid() && State() == ControllerState.Look(old(State()), a) && verdict == Decide(old(State()), a)
      ensures verdict.Go? ==> actors[a].state.ActorRunning? || actors[a].state.Waiting?
    {
      if a in stopped {
        actors := actors[a := Actor(ActorStopped, None)];
        return Halt;
      }
      if a in paused {
        actors := actors[a := Actor(ActorPaused, None)];
        return Wait;
      }
      if !actors[a].state.ActorRunning? && !actors[a].state.Waiting? {
        actors := actors[a := Actor(Waiting, None)];
      }
      assert actors == old(actors)[a := actors[a]];
      return Go;
    }

    method MarkRunning(a: ActorId, path: Path)
      requires Valid() && a in actors
      modifies this
      ensures Valid() && State() == ControllerState.MarkRunning(old(State()), a, path)
    {
      actors := actors[a := Actor(ActorRunning, Some(path))];
    }

    method MarkIdle(a: ActorId)
      requires Valid() && a in actors
      modifies this
      ensures Valid() && State() == ControllerState.MarkIdle(old(State()), a)
    {
      var state := Waiting;
      if a in stopped {
        state := ActorStopped;
      } else if a in paused {
        state := ActorPaused;
      } else if a.Collector? && collectorFinished {
        state := ActorCompleted;
      }
      actors := actors[a := Actor(state, None)];
    }

    method MarkCollectorFinished()
      requires Valid()
      modifies this
      ensures Valid() && State() == ControllerState.MarkCollectorFinished(old(State()))
    {
      collectorFinished := true;
      var state := ActorCompleted;
      if Collector in stopped {
        state := ActorStopped;
      } else if Collector in paused {
        state := ActorPaused;
      }
      actors := actors[Collector := Actor(state, None)];
    }

    /** The loop over all actors when the scan has been committed. */
    method MarkScanCompleted()
      requires Valid()
      modifies this
      ensures Valid() && State() == ControllerState.MarkScanCompleted(old(State()))
    {
      var rest := actors.Keys;
      ghost var target := ControllerState.MarkScanCompleted(State()).actors;
      while rest != {}
        invariant rest <= actors.Keys == old(actors).Keys
        invariant forall a :: a in actors ==> actors[a] == if a in rest then old(actors)[a] else target[a]
        invariant paused == old(paused) && stopped == old(stopped)
        decreases |rest|
      {
        var a :| a in rest;
        rest := rest - {a};
        if !actors[a].state.ActorStopped? && !actors[a].state.ActorPaused? {
          actors := actors[a := Actor(ActorCompleted, None)];
        }
      }
      assert actors == target;
      collectorFinished := true;
    }
  }
}
