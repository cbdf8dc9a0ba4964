/**
 The container's recursive methods. Each is proved to do what Resolution says, and a key whose
 instance is being constructed is never asked for again by the goroutine constructing it, so a lone
 goroutine never waits for itself.
 */
module Containers {
  import opened Options
  import opened Resolution

  /** One resolution's own record: the keys it is in the middle of, as a set and in order. */
  class ResolutionState {
    var active: set<Key>
    var stack: seq<Key>

    constructor ()
      ensures active == {} && stack == []
    {
      active, stack := {}, [];
    }
  }

  class Container {
    const bindings: Graph
    const mode: Mode
    var concrete: map<Key, nat>
    var constructing: set<Key>
    var nextInstance: nat
    ghost var builds: map<Key, nat>

    constructor (bindings: Graph, mode: Mode)
      ensures this.bindings == bindings && this.mode == mode
      ensures constructing == {} && St(concrete, builds, nextInstance, {}, []) == Begun()
    {
      this.bindings, this.mode := bindings, mode;
      concrete, constructing, nextInstance, builds := map[], {}, 0, map[];
    }

    ghost function At(state: ResolutionState): (st: St)
      reads this, state
    {
      St(concrete, builds, nextInstance, state.active, state.stack)
    }

    method EnterDependency(key: Key, state: ResolutionState)
      modifies state
      ensures At(state) == Enter(old(At(state)), key)
    {
      state.active := state.active + {key};
      state.stack := state.stack + [key];
    }

    method LeaveDependency(key: Key, state: ResolutionState)
      requires |state.stack| > 0
      modifies state
      ensures state.active == old(state.active) - {key}
      ensures state.stack == old(state.stack[..|state.stack| - 1])
    {
      state.active := state.active - {key};
      state.stack := state.stack[..|state.stack| - 1];
    }

    method CircularDependencyPath(stack: seq<Key>, repeated: Key) returns (path: seq<Key>)
      ensures path == CyclePath(stack, repeated)
    {
      var start := 0;
      var i := 0;
      while i < |stack|
        invariant i <= |stack| && start == 0
        invariant repeated !in stack[..i]
      {
        if stack[i] == repeated {
          start := i;
          break;
        }
        assert stack[..i + 1] == stack[..i] + [stack[i]];
        i := i + 1;
      }
      assert start == FirstIndex(stack, repeated) by {
        FirstIndexIsFirst(stack, repeated, i);
      }
      path := [];
      i := start;
      while i < |stack|
        invariant start <= i <= |stack|
        invariant path == stack[start..i]
      {
        path := path + [stack[i]];
        i := i + 1;
      }
      path := path + [repeated];
    }

    method ResolveCircularDependency(key: Key, state: ResolutionState) returns (outcome: Outcome)
      ensures outcome == Repeated(bindings, mode, At(state), key)
    {
      var path := CircularDependencyPath(state.stack, key);
      if mode.ErrorMode? {
        return Circular(path);
      }
      if key in bindings && bindings[key].singleton && key in concrete {
        return Instance(Some(concrete[key]));
      }
      return Instance(None);
    }

    method Resolve(key: Key, state: ResolutionState) returns (outcome: Outcome)
      requires constructing <= state.active
      modifies this, state
      ensures (outcome, At(state)) == Resolution.Resolve(bindings, mode, old(At(state)), key)
      ensures constructing == old(constructing)
      decreases Missing(bindings, state.active), 0, 0
    {
      if key in state.active {
        outcome := ResolveCircularDependency(key, state);
        return;
      }
      if key !in bindings {
        return NoBinding(key);
      }
      EnteringIsProgress(bindings, state.active, key);
      EnterDependency(key, state);
      outcome := GetInstance(key, state);
      LeaveDependency(key, state);
      assert state.active == old(state.active);
    }

    method GetInstance(key: Key, state: ResolutionState) returns (outcome: Outcome)
      requires key in bindings && key in state.active
      requires constructing <= state.active - {key}
      modifies this, state
      ensures (outcome, At(state)) == Resolution.GetInstance(bindings, mode, old(At(state)), key)
      ensures constructing == old(constructing)
      decreases Missing(bindings, state.active), 3, 0
    {
      var singleton := bindings[key].singleton;
      if singleton && key in concrete {
        return Instance(Some(concrete[key]));
      }
      if singleton {
        // The wait for another goroutine's construction is passed at once: it is not under way here.
        assert key !in constructing;
        constructing := constructing + {key};
      }
      var argErr := ResolveInOrder(bindings[key].args, state);
      if argErr.Some? || bindings[key].fails {
        if singleton {
          constructing := constructing - {key};
        }
        return if argErr.Some? then argErr.value else ResolverFailed(key);
      }
      outcome := FillNew(key, state);
      if singleton {
        constructing := constructing - {key};
      }
    }

    method FillNew(key: Key, state: ResolutionState) returns (outcome: Outcome)
      requires key in bindings && key in state.active
      requires constructing <= state.active
      modifies this, state
      ensures (outcome, At(state)) == Resolution.FillNew(bindings, mode, old(At(state)), key)
      ensures constructing == old(constructing)
      decreases Missing(bindings, state.active), 2, 0
    {
      var instance := nextInstance;
      nextInstance := nextInstance + 1;
      var singleton := bindings[key].singleton;
      if singleton {
        concrete := concrete[key := instance];
      }
      var fieldErr := ResolveInOrder(bindings[key].fields, state);
      if fieldErr.Some? {
        if singleton {
          concrete := concrete - {key};
        }
        return fieldErr.value;
      }
      if singleton {
        builds := builds[key := Count(builds, key) + 1];
      }
      return Instance(Some(instance));
    }

    /** The loop of argument building and of field filling: resolve each key, stop at the first error. */
    method ResolveInOrder(deps: seq<Key>, state: ResolutionState) returns (err: Option<Outcome>)
      requires constructing <= state.active
      modifies this, state
      ensures (err, At(state)) == ResolveAll(bindings, mode, old(At(state)), deps)
      ensures constructing == old(constructing)
      decreases Missing(bindings, state.active), 1, |deps|
    {
      var i := 0;
      while i < |deps|
        invariant i <= |deps|
        invariant state.active == old(state.active) && constructing == old(constructing)
        invariant ResolveAll(bindings, mode, At(state), deps[i..])
               == ResolveAll(bindings, mode, old(At(state)), deps)
      {
        assert deps[i..][0] == deps[i] && deps[i..][1..] == deps[i + 1..];
        var outcome := Resolve(deps[i], state);
        if !outcome.Instance? {
          return Some(outcome);
        }
        i := i + 1;
      }
      return None;
    }

    /** A request from outside starts with nothing being resolved. */
    method Request(key: Key) returns (outcome: Outcome)
      requires constructing == {}
      modifies this
      ensures constructing == {}
      ensures (outcome, St(concrete, builds, nextInstance, {}, []))
           == Resolution.Resolve(bindings, mode, old(St(concrete, builds, nextInstance, {}, [])), key)
    {
      var state := new ResolutionState();
      outcome := Resolve(key, state);
    }
  }

  lemma {:induction false} FirstIndexIsFirst(stack: seq<Key>, k: Key, i: nat)
    requires i <= |stack| && k !in stack[..i]
    requires i < |stack| ==> stack[i] == k
    ensures FirstIndex(stack, k) == if i < |stack| then i else 0
  {
  }
}
