/** A set of named controllers: starting, updating and stopping them. */
module ControllerManager {
  import opened Bytes
  import opened Backoff
  import opened Controller

  /** `normalize`: a zero interval counts as none, and the cap applies. */
  function Normalized(spec: Spec, maxInterval: Option<Duration>): Spec
  {
    var interval: Option<Duration> := if spec.interval == Some(0) then None else spec.interval;
    if interval.Some? && maxInterval.Some? && interval.value > maxInterval.value then spec.(interval := maxInterval)
    else spec.(interval := interval)
  }

  /** The interval never exceeds the cap, and it is not zero unless the cap itself is and
      the spec asks for an interval. */
  lemma NormalizedInterval(spec: Spec, maxInterval: Option<Duration>)
    ensures var i := Normalized(spec, maxInterval).interval;
            && (i.Some? <==> spec.interval.Some? && spec.interval.value > 0)
            && (i.Some? ==>
                  var asked := spec.interval.value;
                  i.value == if maxInterval.Some? then Min(asked, maxInterval.value) else asked)
            && (i == Some(0) <==> maxInterval == Some(0) && spec.interval.Some? && spec.interval.value > 0)
    ensures Normalized(Normalized(spec, maxInterval), maxInterval) == Normalized(spec, maxInterval)
            <==> !(maxInterval == Some(0) && spec.interval.Some? && spec.interval.value > 0)
  {
    var spec' := Normalized(spec, maxInterval);
    assert spec'.interval == Some(0) ==> Normalized(spec', maxInterval).interval == None;
  }

  /** Cancelled, and its entry dropped. */
  function LetGo(s: State): State { s.(cancelled := true, dropped := true) }

  /** Exactly the controllers with an entry are registered and not stopped; names have
      their own ids; and every controller, stopped or not, is a reachable one. */
  ghost predicate Consistent(entries: map<string, nat>, controllers: map<nat, State>, registry: set<nat>, nextId: nat)
  {
    && (forall name :: name in entries ==> entries[name] in controllers)
    && (forall m, n :: m in entries && n in entries && entries[m] == entries[n] ==> m == n)
    && (forall id :: id in controllers ==>
          id < nextId && Inv(controllers[id])
          && (id in registry <==> id in entries.Values)
          && (controllers[id].cancelled <==> id !in entries.Values)
          && controllers[id].dropped == controllers[id].cancelled)
    && (forall id :: id in registry ==> id < nextId)
  }

  /** `names` tells the name every controller was started under. */
  ghost predicate Named(entries: map<string, nat>, controllers: map<nat, State>, names: map<nat, string>)
  {
    && names.Keys == controllers.Keys
    && forall name :: name in entries ==> entries[name] in names && names[entries[name]] == name
  }

  /** At most one controller of a name is not stopped. */
  lemma OneLivePerName(entries: map<string, nat>, controllers: map<nat, State>, registry: set<nat>, nextId: nat,
                       names: map<nat, string>, i: nat, j: nat)
    requires Consistent(entries, controllers, registry, nextId) && Named(entries, controllers, names)
    requires i in controllers && j in controllers && names[i] == names[j]
    requires !controllers[i].cancelled && !controllers[j].cancelled
    ensures i == j
  {
    hide Inv;
    var m :| m in entries && entries[m] == i;
    var n :| n in entries && entries[n] == j;
  }

  // ------------------------------------------------------------------ a name used again

  /** The runtime lets runners take these steps, in this order. */
  function Moves(controllers: map<nat, State>, steps: seq<(nat, Event)>): Option<map<nat, State>>
    decreases |steps|
  {
    if steps == [] then Some(controllers)
    else
      var (id, e) := steps[0];
      if id !in controllers || controllers[id].seen >= |controllers[id].updates| || e.OfManager() then None
      else if Next(controllers[id], e).None? then None
      else Moves(controllers[id := Next(controllers[id], e).value], steps[1..])
  }

  /** After these steps both controllers have a job running. */
  ghost predicate BothRun(controllers: map<nat, State>, steps: seq<(nat, Event)>, i: nat, j: nat)
  {
    var end := Moves(controllers, steps);
    end.Some? && i in end.value && j in end.value && end.value[i].phase.Running? && end.value[j].phase.Running?
  }

  /** After these steps the second runs a job and the first has not terminated. */
  ghost predicate RunsBeside(controllers: map<nat, State>, steps: seq<(nat, Event)>, i: nat, j: nat)
  {
    var end := Moves(controllers, steps);
    end.Some? && i in end.value && j in end.value && !end.value[i].phase.Stopped? && end.value[j].phase.Running?
  }

  /** A stopped controller can be in a run, now or later: it is in one, has yet to start
      its only one, or is in the middle of a poll that can begin one. */
  predicate CanRun(s: State) { s.phase.Running? || MayStart(s) }

  /** One that cannot never will, and one that has terminated stays so, whatever the
      others do. */
  lemma {:induction false} MovesKeepStopped(controllers: map<nat, State>, steps: seq<(nat, Event)>, id: nat)
    requires id in controllers && controllers[id].cancelled && Moves(controllers, steps).Some?
    ensures var end := Moves(controllers, steps).value;
            && id in end
            && (!CanRun(controllers[id]) ==> !end[id].phase.Running?)
            && (controllers[id].phase.Stopped? ==> end[id].phase.Stopped?)
    decreases |steps|
  {
    if steps != [] {
      var (i, e) := steps[0];
      StepKeepsStopped(controllers[i], e);
      hide CanRun, Next;
      MovesKeepStopped(controllers[i := Next(controllers[i], e).value], steps[1..], id);
      assert !CanRun(controllers[id]) && controllers[id].phase.Running? ==> false by { RunningCan(controllers[id]); }
    } else {
      RunningCan(controllers[id]);
    }
  }

  lemma RunningCan(s: State)
    ensures s.phase.Running? ==> CanRun(s)
  {
  }

  lemma StepKeepsStopped(s: State, e: Event)
    requires s.seen < |s.updates| && !e.OfManager() && Next(s, e).Some?
    ensures var s1 := Next(s, e).value;
            s.cancelled ==> s1.cancelled && (!CanRun(s) ==> !CanRun(s1)) && (s.phase.Stopped? ==> s1.phase.Stopped?)
  {
    hide ClosedForm;
  }

  lemma {:induction false} MovesConcat(controllers: map<nat, State>, a: seq<(nat, Event)>, b: seq<(nat, Event)>)
    requires Moves(controllers, a).Some?
    ensures Moves(controllers, a + b) == Moves(Moves(controllers, a).value, b)
    decreases |a|
  {
    hide Next;
    if a == [] {
      assert a + b == b;
    } else {
      assert (a + b)[0] == a[0] && (a + b)[1..] == a[1..] + b;
      MovesConcat(controllers[a[0].0 := Next(controllers[a[0].0], a[0].1).value], a[1..], b);
    }
  }

  lemma OneMove(controllers: map<nat, State>, id: nat, e: Event)
    requires id in controllers && controllers[id].seen < |controllers[id].updates| && !e.OfManager()
    requires Next(controllers[id], e).Some?
    ensures Moves(controllers, [(id, e)]) == Some(controllers[id := Next(controllers[id], e).value])
  {
    hide Next;
    var steps := [(id, e)];
    assert steps[1..] == [];
  }

  /** A controller that can run is brought to a run by its own steps. */
  lemma Brought(controllers: map<nat, State>, id: nat) returns (steps: seq<(nat, Event)>)
    requires id in controllers && controllers[id].seen < |controllers[id].updates| && CanRun(controllers[id])
    ensures Moves(controllers, steps).Some?
    ensures var end := Moves(controllers, steps).value;
            id in end && end[id].phase.Running? && end == controllers[id := end[id]]
  {
    hide ClosedForm;
    var s := controllers[id];
    if s.phase.Running? {
      steps := [];
      assert controllers == controllers[id := s];
    } else if s.Polls(Watch) && !s.Pending() {
      OneMove(controllers, id, PassWatch);
      var s1 := Next(s, PassWatch).value;
      OneMove(controllers[id := s1], id, WakeTimer);
      MovesConcat(controllers, [(id, PassWatch)], [(id, WakeTimer)]);
      steps := [(id, PassWatch)] + [(id, WakeTimer)];
      hide Moves;
      assert controllers[id := s1][id := Next(s1, WakeTimer).value] == controllers[id := Next(s1, WakeTimer).value];
    } else {
      var e := if s.phase.Unstarted? then Start else if s.Polls(Watch) then WakeUpdate else WakeTimer;
      OneMove(controllers, id, e);
      steps := [(id, e)];
      hide Moves;
    }
  }

  lemma BroughtBoth(controllers: map<nat, State>, first: nat, second: nat) returns (steps: seq<(nat, Event)>)
    requires first in controllers && second in controllers && first != second
    requires controllers[first].seen < |controllers[first].updates| && CanRun(controllers[first])
    requires controllers[second].seen < |controllers[second].updates| && CanRun(controllers[second])
    ensures BothRun(controllers, steps, first, second)
  {
    hide Moves, CanRun;
    var a := Brought(controllers, first);
    var b := Brought(Moves(controllers, a).value, second);
    MovesConcat(controllers, a, b);
    steps := a + b;
  }

  /** A removed controller and its successor, not started yet: their jobs can overlap
      exactly when the first can still be in a run; and the first can have anything left to
      do beside a run of the second, its hook included, exactly when it has not terminated.
      Awaiting the termination before the update excludes both. */
  lemma OverlapIff(controllers: map<nat, State>, first: nat, second: nat)
    requires first in controllers && second in controllers && first != second
    requires Inv(controllers[first]) && Inv(controllers[second])
    requires controllers[first].cancelled && controllers[second].phase.Unstarted?
    ensures (exists steps :: BothRun(controllers, steps, first, second)) <==> CanRun(controllers[first])
    ensures (exists steps :: RunsBeside(controllers, steps, first, second)) <==> !controllers[first].phase.Stopped?
  {
    assert controllers[first].seen < |controllers[first].updates|
        && controllers[second].seen < |controllers[second].updates|;
    assert CanRun(controllers[second]);
    hide Inv, Moves, CanRun;
    if CanRun(controllers[first]) { var both := BroughtBoth(controllers, first, second); }
    var start := Brought(controllers, second);
    if !controllers[first].phase.Stopped? { assert RunsBeside(controllers, start, first, second); }
    forall steps | Moves(controllers, steps).Some?
      ensures BothRun(controllers, steps, first, second) ==> CanRun(controllers[first])
      ensures RunsBeside(controllers, steps, first, second) ==> !controllers[first].phase.Stopped?
    {
      MovesKeepStopped(controllers, steps, first);
    }
  }

  lemma UpdateKeeps(entries: map<string, nat>, controllers: map<nat, State>, registry: set<nat>, nextId: nat, id: nat,
      s: State)
    requires Consistent(entries, controllers, registry, nextId)
    requires id in controllers && Inv(s) && s.cancelled == controllers[id].cancelled
             && s.dropped == controllers[id].dropped
    ensures Consistent(entries, controllers[id := s], registry, nextId)
  {
    hide Inv;
  }

  lemma AddKeeps(entries: map<string, nat>, controllers: map<nat, State>, registry: set<nat>, nextId: nat,
      name: string, s: State)
    requires Consistent(entries, controllers, registry, nextId) && name !in entries && Inv(s) && !s.cancelled
             && !s.dropped
    ensures Consistent(entries[name := nextId], controllers[nextId := s], registry + {nextId}, nextId + 1)
  {
    hide Inv;
    var entries' := entries[name := nextId];
    forall id ensures id in entries'.Values <==> id in entries.Values || id == nextId {
      if id in entries.Values {
        var n :| n in entries && entries[n] == id;
        assert entries'[n] == id;
      }
      assert entries'[name] == nextId;
    }
  }

  lemma AddNamed(entries: map<string, nat>, controllers: map<nat, State>, registry: set<nat>, nextId: nat,
                 names: map<nat, string>, name: string, s: State)
    requires Consistent(entries, controllers, registry, nextId) && Named(entries, controllers, names)
    ensures Named(entries[name := nextId], controllers[nextId := s], names[nextId := name])
  {
    hide Inv;
    assert forall m :: m in entries ==> entries[m] < nextId;
  }

  lemma RemoveKeeps(entries: map<string, nat>, controllers: map<nat, State>, registry: set<nat>, nextId: nat,
      name: string)
    requires Consistent(entries, controllers, registry, nextId) && name in entries
    requires Inv(LetGo(controllers[entries[name]]))
    ensures var id := entries[name];
            Consistent(entries - {name}, controllers[id := LetGo(controllers[id])], registry - {id}, nextId)
  {
    hide Inv;
    var entries' := entries - {name};
    forall id ensures id in entries'.Values <==> id in entries.Values && id != entries[name] {
      if id in entries.Values && id != entries[name] {
        var n :| n in entries && entries[n] == id;
        assert n in entries' && entries'[n] == id;
      }
      if id in entries'.Values {
        var n :| n in entries' && entries'[n] == id;
        assert entries[n] == id;
      }
    }
  }

  lemma InitialInv(spec: Spec)
    ensures Inv(Initial(spec))
  {
  }

  ghost predicate SomeStopped(before: map<nat, State>, after: map<nat, State>)
  {
    && before.Keys == after.Keys
    && forall id :: id in before ==> after[id] == before[id] || after[id] == LetGo(before[id])
  }

  lemma NoneStopped(controllers: map<nat, State>)
    ensures SomeStopped(controllers, controllers)
  {
  }

  lemma OneMoreStopped(before: map<nat, State>, after: map<nat, State>, id: nat)
    requires SomeStopped(before, after) && id in after
    ensures SomeStopped(before, after[id := LetGo(after[id])]) && id in before
  {
  }

  lemma AllStopped(entries: map<string, nat>, before: map<nat, State>, after: map<nat, State>, registry: set<nat>,
      nextId: nat)
    requires Consistent(entries, after, registry, nextId) && entries == map[] && SomeStopped(before, after)
    ensures after.Keys == before.Keys
    ensures forall id :: id in after ==> after[id] == LetGo(before[id]) && id !in registry
  {
    hide Inv;
    forall id | id in after ensures after[id].cancelled && id !in registry { assert id !in entries.Values; }
  }

  class Manager {
    const maxInterval: Option<Duration>
    var entries: map<string, nat>
    /** Every controller this manager ever started, by id. */
    var controllers: map<nat, State>
    var names: map<nat, string>
    /** Ids with a status in the registry, which other managers use too. */
    var registry: set<nat>
    var nextId: nat

    ghost predicate Valid()
      reads this
    {
      Consistent(entries, controllers, registry, nextId) && Named(entries, controllers, names)
    }

    constructor (maxInterval: Option<Duration>, registry: set<nat>, nextId: nat)
      requires forall id :: id in registry ==> id < nextId
      ensures Valid() && this.maxInterval == maxInterval && entries == map[] && controllers == map[]
      ensures this.registry == registry && this.nextId == nextId
    {
      this.maxInterval, this.registry, this.nextId := maxInterval, registry, nextId;
      entries, controllers, names := map[], map[], map[];
    }

    /** `update`: a new spec for a controller that is there, a new controller otherwise. */
    method Update(name: string, spec: Spec)
      requires Valid()
      modifies this
      ensures Valid()
      ensures name in old(entries) ==>
                && entries == old(entries) && registry == old(registry) && nextId == old(nextId) && names == old(names)
                && var id := old(entries)[name];
                   id in old(controllers)
                   && controllers == old(controllers)[id :=
                        Updated(old(controllers)[id], [Normalized(spec, maxInterval)])]
      ensures name !in old(entries) ==>
                && entries == old(entries)[name := old(nextId)] && registry == old(registry) + {old(nextId)}
                && nextId == old(nextId) + 1 && names == old(names)[old(nextId) := name]
                && controllers == old(controllers)[old(nextId) := Initial(Normalized(spec, maxInterval))]
    {
      hide Consistent, Inv, Normalized;
      var normal := Normalized(spec, maxInterval);
      if name in entries {
        var id := entries[name];
        EntryLives(entries, controllers, registry, nextId, name);
        ManagerKeeps(controllers[id], Event.Update(normal));
        var s := ManagerStep(controllers[id], Event.Update(normal)).value;
        UpdateKeeps(entries, controllers, registry, nextId, id, s);
        assert controllers[id := s].Keys == controllers.Keys;
        controllers := controllers[id := s];
        return;
      }
      InitialInv(normal);
      AddKeeps(entries, controllers, registry, nextId, name, Initial(normal));
      AddNamed(entries, controllers, registry, nextId, names, name, Initial(normal));
      var id := nextId;
      nextId := nextId + 1;
      registry := registry + {id};
      controllers := controllers[id := Initial(normal)];
      names := names[id := name];
      entries := entries[name := id];
    }

    /** When a name is used again after `remove`, what can overlap. */
    lemma ReuseOverlapIff(name: string, removed: nat)
      requires Valid() && name in entries && controllers[entries[name]].phase.Unstarted?
      requires removed in controllers && removed != entries[name] && names[removed] == name
      ensures (exists steps :: BothRun(controllers, steps, removed, entries[name])) <==> CanRun(controllers[removed])
      ensures (exists steps :: RunsBeside(controllers, steps, removed, entries[name]))
              <==> !controllers[removed].phase.Stopped?
    {
      EntryLives(entries, controllers, registry, nextId, name);
      if !controllers[removed].cancelled {
        OneLivePerName(entries, controllers, registry, nextId, names, removed, entries[name]);
      }
      LivesInv(entries, controllers, registry, nextId, removed);
      hide Inv, Consistent, Named, BothRun, RunsBeside;
      OverlapIff(controllers, removed, entries[name]);
    }

    /** `stop_entry` after taking the entry out: cancels the controller and unregisters it. */
    method Remove(name: string) returns (stopped: Option<nat>)
      requires Valid()
      modifies this
      ensures Valid() && nextId == old(nextId)
      ensures stopped == if name in old(entries) then Some(old(entries)[name]) else None
      ensures names == old(names)
      ensures stopped.None? ==> entries == old(entries) && controllers == old(controllers) && registry == old(registry)
      ensures stopped.Some? ==>
                && entries == old(entries) - {name} && registry == old(registry) - {stopped.value}
                && stopped.value in old(controllers)
                && controllers == old(controllers)[stopped.value := LetGo(old(controllers)[stopped.value])]
    {
      hide Consistent, Inv;
      if name !in entries { return None; }
      var id := entries[name];
      EntryLives(entries, controllers, registry, nextId, name);
      ghost var cancelled := ManagerStep(controllers[id], Cancel).value;
      ManagerKeeps(controllers[id], Cancel);
      ManagerKeeps(cancelled, DropSender);
      RemoveKeeps(entries, controllers, registry, nextId, name);
      entries := entries - {name};
      controllers := controllers[id := LetGo(controllers[id])];
      registry := registry - {id};
      stopped := Some(id);
    }

    /** Where nobody awaits the termination: started, removed and added again, the two
        controllers of the name can both be in a run. */
    method RemoveAndAddAgain(name: string, spec: Spec) returns (first: nat)
      requires Valid() && name !in entries
      modifies this
      ensures Valid() && name in entries && first in controllers && names[first] == name
      ensures exists steps :: BothRun(controllers, steps, first, entries[name])
    {
      hide Consistent, Inv, BothRun, Normalized;
      first := nextId;
      Update(name, spec);
      Advance(first, Start);
      var _ := Remove(name);
      Update(name, spec);
      ReuseOverlapIff(name, first);
    }

    /** `remove_all`: every controller is stopped and unregistered; other managers' ids stay. */
    method RemoveAll()
      requires Valid()
      modifies this
      ensures Valid() && entries == map[] && nextId == old(nextId) && names == old(names)
      ensures controllers.Keys == old(controllers).Keys
      ensures forall id :: id in controllers ==> controllers[id] == LetGo(old(controllers)[id]) && id !in registry
      ensures registry == old(registry) - old(controllers).Keys
    {
      hide Inv, Consistent, SomeStopped;
      ghost var controllers0, registry0 := controllers, registry;
      assert SomeStopped(controllers0, controllers) by { NoneStopped(controllers0); }
      while entries != map[]
        invariant Valid() && nextId == old(nextId) && names == old(names) && SomeStopped(controllers0, controllers)
        invariant registry <= registry0 && registry0 - controllers0.Keys <= registry
        decreases |entries|
      {
        var name :| name in entries;
        ghost var before := controllers;
        var stopped := Remove(name);
        OneMoreStopped(controllers0, before, stopped.value);
      }
      AllStopped(entries, controllers0, controllers, registry, nextId);
    }

    /** The runtime lets one controller's runner take a step. */
    method Advance(id: nat, e: Event)
      requires Valid() && id in controllers && controllers[id].seen < |controllers[id].updates|
      requires !e.OfManager() && Next(controllers[id], e).Some?
      modifies `controllers
      ensures Valid() && controllers == old(controllers)[id := Next(old(controllers)[id], e).value]
    {
      hide Consistent, Inv;
      assert Inv(controllers[id]) by { LivesInv(entries, controllers, registry, nextId, id); }
      RunnerKeeps(controllers[id], e);
      UpdateKeeps(entries, controllers, registry, nextId, id, Next(controllers[id], e).value);
      controllers := controllers[id := Next(controllers[id], e).value];
    }
  }

  lemma LivesInv(entries: map<string, nat>, controllers: map<nat, State>, registry: set<nat>, nextId: nat, id: nat)
    requires Consistent(entries, controllers, registry, nextId) && id in controllers
    ensures Inv(controllers[id])
  {
  }

  lemma EntryLives(entries: map<string, nat>, controllers: map<nat, State>, registry: set<nat>, nextId: nat,
      name: string)
    requires Consistent(entries, controllers, registry, nextId) && name in entries
    ensures entries[name] in controllers && Inv(controllers[entries[name]]) && !controllers[entries[name]].cancelled
  {
    assert entries[name] in entries.Values;
  }
}
