/**
 Controlled faults as write-ahead intent and undo. The process may die before any durable
 effect: `fuel` counts the effects it still lives to carry out, and every contract holds for
 every value of it, so each holds at every intermediate point.
 */
module Faults {
  import opened Common

  datatype ContainerState = Running | Paused

  /** What controlled faults touch: containers, stored objects, and catalogued scene widths. */
  datatype World = World(services: map<string, string>, containers: map<string, ContainerState>,
                         objects: map<string, string>, widths: map<string, int>)

  /** The recorded intent: what is about to change, and what undoing it needs. */
  datatype Action =
    | Pause(service: string, container: string)
    | ObjectCreate(name: string)
    | MetadataChange(sceneId: string, originalWidth: int)

  datatype FaultState = FaultState(action: Action, project: string, active: bool)

  const MALFORMED := "synthetic malformed raster fault\n"

  /** The one live container of a service, as `_service_container_id` resolves it. */
  function ContainerOf(w: World, service: string): Option<string> {
    if service in w.services && w.services[service] in w.containers then Some(w.services[service]) else None
  }

  /** The world with the fault in force. */
  function Faulted(w: World, action: Action): World {
    match action
    case Pause(_, c) => w.(containers := w.containers[c := Paused])
    case ObjectCreate(name) => w.(objects := w.objects[name := MALFORMED])
    case MetadataChange(id, width) => w.(widths := w.widths[id := width + 1])
  }

  /** The world after undoing it, whether or not it was in force. */
  function Repaired(w: World, action: Action): World {
    match action
    case Pause(_, c) => if c in w.containers then w.(containers := w.containers[c := Running]) else w
    case ObjectCreate(name) => w.(objects := w.objects - {name})
    case MetadataChange(id, width) => if id in w.widths then w.(widths := w.widths[id := width]) else w
  }

  /** The action names things as they are in this world. */
  predicate Describes(w: World, action: Action) {
    match action
    case Pause(service, c) => ContainerOf(w, service) == Some(c)
    case ObjectCreate(_) => true
    case MetadataChange(id, width) => id in w.widths && w.widths[id] == width
  }

  /** What a fault in force changes, and all it changes. */
  ghost predicate FaultTells(before: World, after: World, action: Action) {
    && after.services == before.services
    && match action
       case Pause(_, c) =>
         && after.objects == before.objects && after.widths == before.widths
         && after.containers.Keys == before.containers.Keys + {c} && after.containers[c] == Paused
         && forall d | d in before.containers && d != c :: after.containers[d] == before.containers[d]
       case ObjectCreate(name) =>
         && after.containers == before.containers && after.widths == before.widths
         && after.objects.Keys == before.objects.Keys + {name} && after.objects[name] == "synthetic malformed raster fault\n"
         && forall other | other in before.objects && other != name :: after.objects[other] == before.objects[other]
       case MetadataChange(id, width) =>
         && after.containers == before.containers && after.objects == before.objects
         && after.widths.Keys == before.widths.Keys + {id} && after.widths[id] == width + 1
         && forall other | other in before.widths && other != id :: after.widths[other] == before.widths[other]
  }

  /** What undoing it changes: the container runs, the object is gone, the width is the recorded one; nothing else. */
  ghost predicate RepairTells(before: World, after: World, action: Action) {
    && after.services == before.services
    && match action
       case Pause(_, c) =>
         && after.objects == before.objects && after.widths == before.widths && after.containers.Keys == before.containers.Keys
         && (c in before.containers ==> after.containers[c] == Running)
         && forall d | d in before.containers && d != c :: after.containers[d] == before.containers[d]
       case ObjectCreate(name) =>
         && after.containers == before.containers && after.widths == before.widths
         && after.objects.Keys == before.objects.Keys - {name}
         && forall other | other in before.objects && other != name :: after.objects[other] == before.objects[other]
       case MetadataChange(id, width) =>
         && after.containers == before.containers && after.objects == before.objects && after.widths.Keys == before.widths.Keys
         && (id in before.widths ==> after.widths[id] == width)
         && forall other | other in before.widths && other != id :: after.widths[other] == before.widths[other]
  }

  lemma {:induction false} FaultsTell(w: World, action: Action)
    ensures FaultTells(w, Faulted(w, action), action) && RepairTells(w, Repaired(w, action), action)
  {
  }

  /** What an operator can check before injecting: the container runs, the object name is unused. */
  predicate Undoable(w: World, action: Action) {
    match action
    case Pause(_, c) => c in w.containers && w.containers[c] == Running
    case ObjectCreate(name) => name !in w.objects
    case MetadataChange(_, _) => true
  }

  /** Undoing a described fault restores the world before it exactly when the fault was undoable there. */
  lemma {:induction false} UndoRestoresIff(baseline: World, action: Action)
    requires Describes(baseline, action)
    ensures Repaired(Faulted(baseline, action), action) == baseline <==> Undoable(baseline, action)
    ensures Repaired(baseline, action) == baseline <==> Undoable(baseline, action)
    ensures Repaired(Faulted(baseline, action), action) == Repaired(baseline, action)
  {
    match action {
      case Pause(service, c) =>
        assert baseline.containers[c := Running] == baseline.containers <==> baseline.containers[c] == Running;
        assert baseline.containers[c := Paused][c := Running] == baseline.containers[c := Running];
      case ObjectCreate(name) =>
        assert baseline.objects[name := MALFORMED] - {name} == baseline.objects - {name};
        assert baseline.objects - {name} == baseline.objects <==> name !in baseline.objects;
      case MetadataChange(id, width) =>
        assert baseline.widths[id := width + 1][id := width] == baseline.widths;
        assert baseline.widths[id := width] == baseline.widths;
    }
  }

  /** The world differs from the baseline at most as the state file says. */
  ghost predicate Explains(file: Option<FaultState>, world: World, baseline: World) {
    match file
    case None => world == baseline
    case Some(st) =>
      && Describes(baseline, st.action) && Undoable(baseline, st.action)
      && (world == baseline || world == Faulted(baseline, st.action))
  }

  /** An undoable fault that can be carried out shows in the world. */
  lemma {:induction false} FaultShows(baseline: World, action: Action)
    requires Describes(baseline, action) && Undoable(baseline, action)
    ensures Faulted(baseline, action) != baseline
  {
    match action {
      case Pause(_, c) =>
        assert Faulted(baseline, action).containers[c] != baseline.containers[c];
      case ObjectCreate(name) =>
        assert name in Faulted(baseline, action).objects;
      case MetadataChange(id, width) =>
        assert Faulted(baseline, action).widths[id] != width;
    }
  }

  lemma {:induction false} ExplainedRepair(st: FaultState, world: World, baseline: World)
    requires Explains(Some(st), world, baseline)
    ensures Repaired(world, st.action) == baseline
  {
    UndoRestoresIff(baseline, st.action);
  }

  /** How one call that leaves the process ends: a call that reports failure, or raises, may still have taken effect. */
  datatype Effect = Succeeds | Refused(effective: bool) | Raises(effective: bool)

  datatype Result = Completed | Nothing | Raised | Died

  class Lab {
    const project: string
    var world: World
    /** The state file, and the temporary file it is replaced from. */
    var file: Option<FaultState>
    var draft: Option<FaultState>
    /** Durable effects left before the process dies. */
    var fuel: nat

    constructor (project: string, world: World, fuel: nat)
      ensures this.project == project && this.world == world && file == None && this.fuel == fuel
    {
      this.project, this.world, this.file, this.draft, this.fuel := project, world, None, None, fuel;
    }

    method Spend() returns (alive: bool)
      modifies this`fuel
      ensures alive <==> old(fuel) > 0
      ensures fuel == if alive then old(fuel) - 1 else 0
    {
      alive := fuel > 0;
      if alive {
        fuel := fuel - 1;
      }
    }

    /** `_write_state`: the temporary file, then its rename over the state file. */
    method WriteState(st: FaultState) returns (alive: bool)
      modifies this`fuel, this`draft, this`file
      ensures file == old(file) || file == Some(st)
      ensures alive ==> file == Some(st) && fuel == old(fuel) - 2
      ensures !alive ==> fuel == 0
      ensures alive <==> old(fuel) >= 2
    {
      alive := Spend();
      if !alive {
        return;
      }
      draft := Some(st);
      alive := Spend();
      if !alive {
        return;
      }
      file, draft := draft, None;
    }

    method Unlink() returns (alive: bool)
      modifies this`fuel, this`file
      ensures alive <==> old(fuel) > 0
      ensures file == if alive then None else old(file)
      ensures fuel == if alive then old(fuel) - 1 else 0
    {
      alive := Spend();
      if alive {
        file := None;
      }
    }

    /**
     Carry a fault into force: a container that is not running refuses to be paused, and a
     scene may be gone. `Nothing` is what makes the caller remove the state file: a `docker
     pause` that returned non-zero, whatever it did, or a scene that is gone.
     */
    method Apply(action: Action, effect: Effect) returns (result: Result)
      modifies this`fuel, this`world
      ensures world == if old(fuel) > 0 && InForce(old(world), action, effect) then Faulted(old(world), action) else old(world)
      ensures result == Completed <==> old(fuel) > 0 && effect == Succeeds && Applicable(old(world), action)
      ensures result == Nothing ==> world == old(world) || (action.Pause? && effect == Refused(true))
      ensures action.Pause? && effect.Refused? && old(fuel) > 0 ==> result == Nothing
      ensures result in {Completed, Nothing, Raised, Died}
      ensures result == Died <==> old(fuel) == 0
      ensures fuel == if result == Died then 0 else old(fuel) - 1
    {
      var alive := Spend();
      if !alive {
        return Died;
      }
      result := if effect.Raises? || (effect.Refused? && !action.Pause?) then Raised
                else if effect.Refused? || !Applicable(world, action) then Nothing
                else Completed;
      if InForce(world, action, effect) {
        world := Faulted(world, action);
      }
    }

    /** A call takes effect when it can, and when it succeeds or fails too late. */
    static predicate InForce(w: World, action: Action, effect: Effect) {
      Applicable(w, action) && (effect == Succeeds || effect.effective)
    }

    static predicate Applicable(w: World, action: Action) {
      match action
      case Pause(_, c) => c in w.containers && w.containers[c] == Running
      case ObjectCreate(_) => true
      case MetadataChange(id, _) => id in w.widths
    }

    /**
     The one branch on which `inject_fault` forgets what it changed: `docker pause` returned
     non-zero although the container froze, and the process lived to unlink the state file
     (two effects for the file, one for the pause, one for the unlink).
     */
    static predicate LosesTrack(file: Option<FaultState>, w: World, action: Action, green: bool, effect: Effect, fuel: nat) {
      && file.None? && green && Describes(w, action)
      && action.Pause? && Applicable(w, action) && effect == Refused(true) && fuel >= 4
    }

    /**
     `inject_fault` for the faults that keep state. Whatever fails and wherever the process
     dies, the state file explains how the world differs from what it was, except after a
     failing pause that froze its container: there, and only there, the fault is in force
     with no file.
     */
    method InjectFault(action: Action, green: bool, effect: Effect, ghost baseline: World) returns (result: Result)
      requires Explains(file, world, baseline)
      requires file.None? ==> Undoable(world, action)
      modifies this`fuel, this`draft, this`file, this`world
      ensures Explains(file, world, baseline) <==> !LosesTrack(old(file), old(world), action, green, effect, old(fuel))
      ensures !Explains(file, world, baseline) ==> file == None && world == Faulted(baseline, action) && result == Raised
      ensures old(file).Some? ==> result == Raised && file == old(file) && world == old(world)
      ensures result == Completed ==> world == Faulted(baseline, action) && file == Some(FaultState(action, project, true))
      ensures (old(file).None? && green && Describes(old(world), action) && effect == Succeeds && old(fuel) >= 5) ==> result == Completed
    {
      if file.Some? || !green {
        return Raised;
      }
      // Resolving the container, or reading the scene to be changed.
      if !Describes(world, action) {
        return Raised;
      }
      FaultShows(world, action);
      var state := FaultState(action, project, false);
      var alive := WriteState(state);
      if !alive {
        return Died;
      }
      var applied := Apply(action, effect);
      if applied == Died || applied == Raised {
        return applied;
      }
      if applied == Nothing {
        alive := Unlink();
        return if alive then Raised else Died;
      }
      state := state.(active := true);
      alive := WriteState(state);
      result := if alive then Completed else Died;
    }

    /** The state file is this project's, and what it names is still there. */
    predicate Matches(file: Option<FaultState>, w: World) {
      file.Some? && file.value.project == project &&
      match file.value.action
      case Pause(service, c) => ContainerOf(w, service) == Some(c)
      case ObjectCreate(_) => true
      case MetadataChange(id, _) => id in w.widths
    }

    /**
     `clear_faults`. Safe wherever an earlier injection or clear died: a completed clear
     restores the baseline exactly, and the file goes only once the world is repaired.
     */
    method ClearFaults(effect: Effect, ghost baseline: World) returns (result: Result)
      requires Explains(file, world, baseline)
      modifies this`fuel, this`file, this`world
      ensures Explains(file, world, baseline)
      ensures old(file).None? ==> result == Nothing && file == old(file) && world == old(world) && fuel == old(fuel)
      ensures result == Completed ==> file == None && world == baseline
      ensures old(file).Some? && file.None? ==> world == baseline
      ensures file.Some? ==> file == old(file)
      ensures (Matches(old(file), old(world)) && effect == Succeeds && old(fuel) >= 2) ==> result == Completed
      ensures result == Nothing ==> old(file).None?
    {
      if file.None? {
        return Nothing;
      }
      var state := file.value;
      if state.project != project {
        return Raised;
      }
      ExplainedRepair(state, world, baseline);
      match state.action {
        case Pause(service, container) =>
          if ContainerOf(world, service) != Some(container) {
            return Raised;
          }
          if world.containers[container] == Paused {
            result := Undo(state.action, effect);
            if result != Completed {
              return;
            }
          }
        case ObjectCreate(_) =>
          result := Undo(state.action, effect);
          if result != Completed {
            return;
          }
        case MetadataChange(sceneId, _) =>
          if sceneId !in world.widths {
            return Raised;
          }
          result := Undo(state.action, effect);
          if result != Completed {
            return;
          }
      }
      var alive := Unlink();
      result := if alive then Completed else Died;
    }

    method Undo(action: Action, effect: Effect) returns (result: Result)
      modifies this`fuel, this`world
      ensures world == old(world) || world == Repaired(old(world), action)
      ensures result == Completed ==> world == Repaired(old(world), action)
      ensures result == Completed <==> old(fuel) > 0 && effect == Succeeds
      ensures result in {Completed, Raised, Died}
      ensures result == Completed ==> fuel == old(fuel) - 1
    {
      var alive := Spend();
      if !alive {
        return Died;
      }
      if effect == Succeeds || effect.effective {
        world := Repaired(world, action);
      }
      result := if effect == Succeeds then Completed else Raised;
    }

    /**
     Any history of injections and clears, each dying at any point, up to the first injection
     that loses track: until then the state file explains the world, and a clear that
     completes brings the baseline back.
     */
    method Operate(history: seq<Operation>, ghost baseline: World) returns (done: nat, last: Result)
      requires Explains(file, world, baseline)
      requires forall i | 0 <= i < |history| :: history[i].Inject? ==> Undoable(baseline, history[i].action)
      modifies this`fuel, this`draft, this`file, this`world
      ensures done <= |history|
      ensures Explains(file, world, baseline) ==> done == |history|
      ensures Explains(file, world, baseline) && history != [] && history[|history| - 1].Clear? && last in {Completed, Nothing} ==>
                file == None && world == baseline
      ensures !Explains(file, world, baseline) ==>
                && done > 0 && history[done - 1].FailsEffectively()
                && file == None && world == Faulted(baseline, history[done - 1].action)
      ensures (forall i | 0 <= i < |history| :: !history[i].FailsEffectively()) ==> Explains(file, world, baseline)
    {
      done, last := 0, Nothing;
      var lost := false;
      while done < |history| && !lost
        invariant done <= |history|
        invariant !lost ==> Explains(file, world, baseline)
        invariant !lost && done > 0 && history[done - 1].Clear? && last in {Completed, Nothing} ==> file == None && world == baseline
        invariant lost ==>
                    && !Explains(file, world, baseline) && done > 0 && history[done - 1].FailsEffectively()
                    && file == None && world == Faulted(baseline, history[done - 1].action)
      {
        fuel := history[done].fuel;
        match history[done] {
          case Inject(action, green, effect, _) =>
            lost := LosesTrack(file, world, action, green, effect, fuel);
            last := InjectFault(action, green, effect, baseline);
          case Clear(effect, _) =>
            last := ClearFaults(effect, baseline);
        }
        done := done + 1;
      }
    }
  }

  /** One run of the command-line tool, and how many durable effects it survives. */
  datatype Operation =
    | Inject(action: Action, green: bool, effect: Effect, fuel: nat)
    | Clear(effect: Effect, fuel: nat)
  {
    /** An injected pause whose failing return code is wrong, in a process that lives to unlink the file. */
    predicate FailsEffectively() {
      Inject? && action.Pause? && effect == Refused(true) && fuel >= 4
    }
  }
}
