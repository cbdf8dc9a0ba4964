/**
 Resolving a dependency in the container, as a depth-first search over the dependency graph.

 A key is an unnamed type with a direct binding. Its resolver's arguments are resolved in order,
 then the resolver runs, then the instance's inject fields are filled in order. A singleton's
 instance is kept, from before its fields are filled. The functions are the meaning of the
 container's methods, one goroutine at a time; Container refines them.
 */
module Resolution {
  import opened Options

  type Key = nat

  datatype Binding = Binding(args: seq<Key>, fields: seq<Key>, singleton: bool, fails: bool)

  type Graph = map<Key, Binding>

  /** Whether a circular dependency is an error, or resolves to what there is of the instance. */
  datatype Mode = ErrorMode | SkipMode

  datatype Outcome =
    | Instance(value: Option<nat>)
    | Circular(path: seq<Key>)
    | NoBinding(key: Key)
    | ResolverFailed(key: Key)

  /** The kept instances, how often each singleton was built, and the keys being resolved. */
  datatype St = St(concrete: map<Key, nat>, builds: map<Key, nat>, next: nat,
                   active: set<Key>, stack: seq<Key>)

  function Missing(g: Graph, active: set<Key>): nat {
    |g.Keys - active|
  }

  lemma EnteringIsProgress(g: Graph, active: set<Key>, k: Key)
    requires k in g && k !in active
    ensures Missing(g, active + {k}) < Missing(g, active)
  {
    assert g.Keys - active == (g.Keys - (active + {k})) + {k};
  }

  /** The stack from where `repeated` was first entered, closed by it. */
  function CyclePath(stack: seq<Key>, repeated: Key): seq<Key> {
    stack[FirstIndex(stack, repeated)..] + [repeated]
  }

  function FirstIndex(stack: seq<Key>, k: Key): (i: nat)
    ensures i <= |stack|
    ensures k in stack ==> i < |stack| && stack[i] == k && k !in stack[..i]
    ensures k !in stack ==> i == 0
  {
    if k !in stack then 0
    else if stack[0] == k then 0
    else
      assert k in stack[1..];
      var i := 1 + FirstIndex(stack[1..], k);
      assert stack[..i] == [stack[0]] + stack[1..][..i - 1];
      i
  }

  /** What meeting an active key again answers. */
  function Repeated(g: Graph, mode: Mode, st: St, k: Key): Outcome {
    if mode.ErrorMode? then Circular(CyclePath(st.stack, k))
    else if k in g && g[k].singleton && k in st.concrete then Instance(Some(st.concrete[k]))
    else Instance(None)
  }

  function Enter(st: St, k: Key): St {
    st.(active := st.active + {k}, stack := st.stack + [k])
  }

  function Resolve(g: Graph, mode: Mode, st: St, k: Key): (r: (Outcome, St))
    ensures r.1.active == st.active && r.1.stack == st.stack
    decreases Missing(g, st.active), 0, 0
  {
    if k in st.active then (Repeated(g, mode, st, k), st)
    else if k !in g then (NoBinding(k), st)
    else
      EnteringIsProgress(g, st.active, k);
      var (outcome, after) := GetInstance(g, mode, Enter(st, k), k);
      (outcome, after.(active := st.active, stack := st.stack))
  }

  function GetInstance(g: Graph, mode: Mode, st: St, k: Key): (r: (Outcome, St))
    requires k in g
    ensures r.1.active == st.active && r.1.stack == st.stack
    decreases Missing(g, st.active), 3, 0
  {
    if g[k].singleton && k in st.concrete then (Instance(Some(st.concrete[k])), st)
    else
      var (argErr, called) := ResolveAll(g, mode, st, g[k].args);
      if argErr.Some? then (argErr.value, called)
      else if g[k].fails then (ResolverFailed(k), called)
      else FillNew(g, mode, called, k)
  }

  /** The resolver of `k` has returned a new instance; its fields are filled. */
  function FillNew(g: Graph, mode: Mode, st: St, k: Key): (r: (Outcome, St))
    requires k in g
    ensures r.1.active == st.active && r.1.stack == st.stack
    decreases Missing(g, st.active), 2, 0
  {
    var (fieldErr, filled) := ResolveAll(g, mode, Made(g, st, k), g[k].fields);
    if fieldErr.Some? then (fieldErr.value, if g[k].singleton then Unmade(filled, k) else filled)
    else (Instance(Some(st.next)), if g[k].singleton then Finished(filled, k) else filled)
  }

  /** The resolver ran: a singleton's instance is kept at once, before its fields are filled. */
  function Made(g: Graph, st: St, k: Key): St
    requires k in g
  {
    if g[k].singleton then st.(concrete := st.concrete[k := st.next], next := st.next + 1)
    else st.(next := st.next + 1)
  }

  function Unmade(st: St, k: Key): St {
    st.(concrete := st.concrete - {k})
  }

  function Count(builds: map<Key, nat>, k: Key): nat {
    if k in builds then builds[k] else 0
  }

  function Finished(st: St, k: Key): St {
    st.(builds := st.builds[k := Count(st.builds, k) + 1])
  }

  /** Resolves every key in order, up to the first error. */
  function ResolveAll(g: Graph, mode: Mode, st: St, deps: seq<Key>): (r: (Option<Outcome>, St))
    ensures r.1.active == st.active && r.1.stack == st.stack
    ensures r.0.Some? ==> !r.0.value.Instance?
    decreases Missing(g, st.active), 1, |deps|
  {
    if deps == [] then (None, st)
    else
      var (outcome, after) := Resolve(g, mode, st, deps[0]);
      if outcome.Instance? then ResolveAll(g, mode, after, deps[1..]) else (Some(outcome), after)
  }

  /** The keys before the `i`th resolve, and it is the `i`th that does not. */
  predicate StopsAt(g: Graph, mode: Mode, st: St, deps: seq<Key>, i: nat)
    requires i < |deps|
  {
    var (err, now) := ResolveAll(g, mode, st, deps[..i]);
    var (outcome, after) := Resolve(g, mode, now, deps[i]);
    err.None? && (Some(outcome), after) == ResolveAll(g, mode, st, deps)
  }

  /** Keys are resolved first to last, and nothing is asked for past the first error. */
  lemma {:induction false} FirstErrorStops(g: Graph, mode: Mode, st: St, deps: seq<Key>)
    requires ResolveAll(g, mode, st, deps).0.Some?
    ensures exists i | 0 <= i < |deps| :: StopsAt(g, mode, st, deps, i)
    decreases |deps|
  {
    var (outcome, after) := Resolve(g, mode, st, deps[0]);
    if outcome.Instance? {
      FirstErrorStops(g, mode, after, deps[1..]);
      var i :| 0 <= i < |deps| - 1 && StopsAt(g, mode, after, deps[1..], i);
      assert deps[..i + 1][0] == deps[0] && deps[..i + 1][1..] == deps[1..][..i];
      assert StopsAt(g, mode, st, deps, i + 1);
    } else {
      assert StopsAt(g, mode, st, deps, 0);
    }
  }

  // ---- Walks ----

  /** A key whose instance was there from the start is never searched behind. */
  predicate Edge(g: Graph, cut: set<Key>, a: Key, b: Key) {
    a in g && a !in cut && (b in g[a].args || b in g[a].fields)
  }

  predicate IsWalk(g: Graph, cut: set<Key>, w: seq<Key>) {
    |w| > 0 && forall i :: 0 <= i < |w| - 1 ==> Edge(g, cut, w[i], w[i + 1])
  }

  predicate NoRepeat(w: seq<Key>) {
    forall i, j :: 0 <= i < j < |w| ==> w[i] != w[j]
  }

  predicate Avoids(w: seq<Key>, keys: set<Key>) {
    forall i :: 0 <= i < |w| ==> w[i] !in keys
  }

  /** Kept from the start, or bound with a resolver that does not fail. */
  predicate Makes(g: Graph, cut: set<Key>, k: Key) {
    k in cut || (k in g && !g[k].fails)
  }

  predicate AllMake(g: Graph, cut: set<Key>, w: seq<Key>) {
    forall i :: 0 <= i < |w| ==> Makes(g, cut, w[i])
  }

  /** No walk from `k` repeats a key, meets one of `keys`, or meets one that cannot be made. */
  ghost predicate Clear(g: Graph, cut: set<Key>, k: Key, keys: set<Key>) {
    forall w :: IsWalk(g, cut, w) && w[0] == k ==> NoRepeat(w) && Avoids(w, keys) && AllMake(g, cut, w)
  }

  /** A cycle can be reached from `k`. */
  ghost predicate CycleReachable(g: Graph, cut: set<Key>, k: Key) {
    exists w :: IsWalk(g, cut, w) && w[0] == k && !NoRepeat(w)
  }

  /** The keys being resolved are the stack, each leading to the next. */
  ghost predicate Stacked(g: Graph, cut: set<Key>, st: St) {
    && (forall k :: k in st.active <==> k in st.stack)
    && NoRepeat(st.stack)
    && (st.stack != [] ==> IsWalk(g, cut, st.stack))
  }

  /** Only singletons are kept. Each was there from the start, is being built, or leads into no cycle. */
  ghost predicate KeptIsClear(g: Graph, cut: set<Key>, st: St) {
    && cut <= st.concrete.Keys
    && (forall k :: k in st.concrete ==> k in g && g[k].singleton)
    && forall k :: k in st.concrete && k !in cut && k !in st.active ==> Clear(g, cut, k, {})
  }

  lemma WalkJoin(g: Graph, cut: set<Key>, a: seq<Key>, b: seq<Key>)
    requires IsWalk(g, cut, a) && IsWalk(g, cut, b) && Edge(g, cut, a[|a| - 1], b[0])
    ensures IsWalk(g, cut, a + b)
  {
  }

  /** A walk from a dependency of the stack's last key back onto the stack closes a cycle. */
  lemma BackOntoStack(g: Graph, cut: set<Key>, stack: seq<Key>, w: seq<Key>, i: nat)
    requires stack != [] && IsWalk(g, cut, stack) && IsWalk(g, cut, w)
    requires Edge(g, cut, stack[|stack| - 1], w[0])
    requires i < |w| && w[i] in stack
    ensures CycleReachable(g, cut, w[0])
  {
    var j :| 0 <= j < |stack| && stack[j] == w[i];
    var back := stack[j + 1..] + [w[0]];
    assert IsWalk(g, cut, back) by {
      forall x | 0 <= x < |back| - 1 ensures Edge(g, cut, back[x], back[x + 1]) {
        assert back[x] == stack[j + 1 + x];
      }
    }
    assert back[0] == if j + 1 < |stack| then stack[j + 1] else w[0];
    WalkJoin(g, cut, w[..i + 1], back);
    var loop := w[..i + 1] + back;
    assert loop[0] == loop[|loop| - 1] == w[0];
  }

  /** A kept key met below the stack leads to nothing on the stack, or it would have led to itself. */
  lemma KeptKeyIsClear(g: Graph, cut: set<Key>, st: St, k: Key)
    requires Stacked(g, cut, st) && KeptIsClear(g, cut, st)
    requires k in st.concrete && k !in st.active
    requires st.stack != [] ==> Edge(g, cut, st.stack[|st.stack| - 1], k)
    ensures Clear(g, cut, k, st.active)
  {
    forall w | IsWalk(g, cut, w) && w[0] == k ensures NoRepeat(w) && Avoids(w, st.active) && AllMake(g, cut, w) {
      if k in cut {
        assert |w| > 1 ==> Edge(g, cut, w[0], w[1]);
      } else {
        forall i | 0 <= i < |w| ensures w[i] !in st.active {
          if w[i] in st.active {
            BackOntoStack(g, cut, st.stack, w, i);
          }
        }
      }
    }
  }

  ghost predicate DependenciesClear(g: Graph, cut: set<Key>, k: Key, keys: set<Key>)
    requires k in g
  {
    AllClear(g, cut, g[k].args, keys) && AllClear(g, cut, g[k].fields, keys)
  }

  ghost predicate AllClear(g: Graph, cut: set<Key>, deps: seq<Key>, keys: set<Key>) {
    forall d :: d in deps ==> Clear(g, cut, d, keys)
  }

  /** A key all of whose dependencies are clear of it and of the stack is clear of the stack. */
  lemma ClearFromDependencies(g: Graph, cut: set<Key>, k: Key, active: set<Key>)
    requires k in g && k !in active && !g[k].fails
    requires DependenciesClear(g, cut, k, active + {k})
    ensures Clear(g, cut, k, active)
  {
    forall w | IsWalk(g, cut, w) && w[0] == k ensures NoRepeat(w) && Avoids(w, active) && AllMake(g, cut, w) {
      if |w| > 1 {
        assert Edge(g, cut, w[0], w[1]);
        var rest := w[1..];
        assert IsWalk(g, cut, rest) by {
          forall i | 0 <= i < |rest| - 1 ensures Edge(g, cut, rest[i], rest[i + 1]) {
            assert Edge(g, cut, w[i + 1], w[i + 2]);
          }
        }
        assert NoRepeat(rest) && Avoids(rest, active + {k}) && AllMake(g, cut, rest);
        assert forall i :: 1 <= i < |w| ==> w[i] == rest[i - 1];
      }
    }
  }

  // ---- What resolution keeps ----

  /** Every kept instance stays, keys in `active` are neither built nor dropped, and what was built once stays so. */
  ghost predicate Keeps(active: set<Key>, before: St, after: St) {
    && (forall k :: k in before.concrete ==> k in after.concrete && after.concrete[k] == before.concrete[k])
    && (forall k :: k in active ==>
          (k in after.concrete <==> k in before.concrete) && Count(after.builds, k) == Count(before.builds, k))
    && (AtMostOnce(before.builds, before.concrete) ==> AtMostOnce(after.builds, after.concrete))
    && BuiltSince(before, after)
  }

  /** No build is forgotten, and what is kept newly was built. */
  ghost predicate BuiltSince(before: St, after: St) {
    && (forall k :: Count(after.builds, k) >= Count(before.builds, k))
    && (forall k :: k in after.concrete && k !in before.concrete ==> Count(after.builds, k) > Count(before.builds, k))
  }

  /** A singleton that was built is kept, and was built once. */
  ghost predicate AtMostOnce(builds: map<Key, nat>, concrete: map<Key, nat>) {
    forall k :: Count(builds, k) <= 1 && (Count(builds, k) == 1 ==> k in concrete)
  }

  lemma {:induction false} ResolveKeeps(g: Graph, mode: Mode, st: St, k: Key)
    ensures Keeps(st.active, st, Resolve(g, mode, st, k).1)
    decreases Missing(g, st.active), 0, 0
  {
    if k !in st.active && k in g {
      EnteringIsProgress(g, st.active, k);
      GetInstanceKeeps(g, mode, Enter(st, k), k);
      assert st.active == Enter(st, k).active - {k};
    }
  }

  lemma {:induction false} GetInstanceKeeps(g: Graph, mode: Mode, st: St, k: Key)
    requires k in g && k in st.active
    ensures Keeps(st.active - {k}, st, GetInstance(g, mode, st, k).1)
    decreases Missing(g, st.active), 3, 0
  {
    if !(g[k].singleton && k in st.concrete) {
      ResolveAllKeeps(g, mode, st, g[k].args);
      var (argErr, called) := ResolveAll(g, mode, st, g[k].args);
      if argErr.None? && !g[k].fails {
        FillNewKeeps(g, mode, st, called, k);
      }
    }
  }

  lemma {:induction false} FillNewKeeps(g: Graph, mode: Mode, st: St, called: St, k: Key)
    requires k in g && k in st.active && called.active == st.active
    requires g[k].singleton ==> k !in st.concrete
    requires Keeps(st.active, st, called)
    ensures Keeps(st.active - {k}, st, FillNew(g, mode, called, k).1)
    decreases Missing(g, st.active), 2, 0
  {
    var made := Made(g, called, k);
    ResolveAllKeeps(g, mode, made, g[k].fields);
    if g[k].singleton {
      BuildingKeeps(g, k, st, called, ResolveAll(g, mode, made, g[k].fields).1);
    }
  }

  /** A singleton under construction that is not kept before: what its fields left, from what its arguments left. */
  ghost predicate Building(g: Graph, k: Key, st: St, called: St, filled: St) {
    && k in g && g[k].singleton && k in st.active && k !in st.concrete
    && Keeps(st.active, st, called) && Keeps(st.active, Made(g, called, k), filled)
  }

  /** Building one singleton, whether its fields fill or not. */
  lemma BuildingKeeps(g: Graph, k: Key, st: St, called: St, filled: St)
    requires Building(g, k, st, called, filled)
    ensures Keeps(st.active - {k}, st, Finished(filled, k))
    ensures Keeps(st.active - {k}, st, Unmade(filled, k))
  {
    BuildingCounts(g, k, st, called, filled);
    if AtMostOnce(st.builds, st.concrete) {
      BuildingOnce(g, k, st, called, filled);
    }
  }

  lemma BuildingCounts(g: Graph, k: Key, st: St, called: St, filled: St)
    requires Building(g, k, st, called, filled)
    ensures BuiltSince(st, Finished(filled, k)) && BuiltSince(st, Unmade(filled, k))
  {
    var made := Made(g, called, k);
    assert made.builds == called.builds;
    FinishedCount(filled, k);
  }

  lemma FinishedCount(filled: St, k: Key)
    ensures Count(Finished(filled, k).builds, k) == Count(filled.builds, k) + 1
    ensures forall x :: x != k ==> Count(Finished(filled, k).builds, x) == Count(filled.builds, x)
  {
  }

  lemma BuildingOnce(g: Graph, k: Key, st: St, called: St, filled: St)
    requires Building(g, k, st, called, filled) && AtMostOnce(st.builds, st.concrete)
    ensures AtMostOnce(Finished(filled, k).builds, Finished(filled, k).concrete)
    ensures AtMostOnce(Unmade(filled, k).builds, Unmade(filled, k).concrete)
  {
    var made := Made(g, called, k);
    assert made.builds == called.builds;
    assert AtMostOnce(made.builds, made.concrete);
    assert Count(filled.builds, k) == 0;
    FinishedCount(filled, k);
    assert forall x :: Count(Unmade(filled, k).builds, x) == Count(filled.builds, x);
  }

  lemma {:induction false} ResolveAllKeeps(g: Graph, mode: Mode, st: St, deps: seq<Key>)
    ensures Keeps(st.active, st, ResolveAll(g, mode, st, deps).1)
    decreases Missing(g, st.active), 1, |deps|
  {
    if deps != [] {
      ResolveKeeps(g, mode, st, deps[0]);
      var (outcome, after) := Resolve(g, mode, st, deps[0]);
      if outcome.Instance? {
        ResolveAllKeeps(g, mode, after, deps[1..]);
      }
    }
  }

  // ---- Instances are told apart ----

  /** Only singletons are kept, every kept instance was made before `next`, and no two keys keep the same one. */
  ghost predicate WellKept(g: Graph, st: St) {
    && (forall k :: k in st.concrete ==> k in g && g[k].singleton && st.concrete[k] < st.next)
    && (forall j, k :: j in st.concrete && k in st.concrete && j != k ==> st.concrete[j] != st.concrete[k])
  }

  /** Whatever is kept newly was made since. */
  ghost predicate MadeSince(before: St, after: St) {
    && before.next <= after.next
    && forall k :: k in after.concrete && k !in before.concrete ==> after.concrete[k] >= before.next
  }

  predicate Retains(before: St, after: St) {
    forall k :: k in before.concrete ==> k in after.concrete && after.concrete[k] == before.concrete[k]
  }

  /** `value` is made, and is kept by `k` if that is a singleton, and by no other key. */
  ghost predicate BelongsTo(g: Graph, st: St, value: nat, k: Key)
    requires k in g
  {
    && value < st.next
    && forall x :: (x in st.concrete && st.concrete[x] == value) <==> (x == k && g[k].singleton)
  }

  lemma {:induction false} ResolveNumbers(g: Graph, mode: Mode, st: St, k: Key)
    requires WellKept(g, st)
    ensures var (outcome, after) := Resolve(g, mode, st, k); WellKept(g, after) && MadeSince(st, after)
    decreases Missing(g, st.active), 0, 0
  {
    if k !in st.active && k in g {
      EnteringIsProgress(g, st.active, k);
      GetInstanceNumbers(g, mode, Enter(st, k), k);
    }
  }

  lemma {:induction false} GetInstanceNumbers(g: Graph, mode: Mode, st: St, k: Key)
    requires k in g && k in st.active && WellKept(g, st)
    ensures var (outcome, after) := GetInstance(g, mode, st, k);
      && WellKept(g, after) && MadeSince(st, after)
      && (outcome.Instance? && !(g[k].singleton && k in st.concrete) ==>
            outcome.value.Some? && outcome.value.value >= st.next && BelongsTo(g, after, outcome.value.value, k))
    decreases Missing(g, st.active), 3, 0
  {
    if !(g[k].singleton && k in st.concrete) {
      ResolveAllNumbers(g, mode, st, g[k].args);
      ResolveAllKeeps(g, mode, st, g[k].args);
      var (argErr, called) := ResolveAll(g, mode, st, g[k].args);
      if argErr.None? && !g[k].fails {
        FillNewNumbers(g, mode, called, k);
        SinceThenSince(st, called, FillNew(g, mode, called, k).1);
      }
    }
  }

  lemma {:induction false} FillNewNumbers(g: Graph, mode: Mode, st: St, k: Key)
    requires k in g && k in st.active && WellKept(g, st) && (g[k].singleton ==> k !in st.concrete)
    ensures var (outcome, after) := FillNew(g, mode, st, k);
      && WellKept(g, after) && MadeSince(st, after) && Retains(st, after)
      && (outcome.Instance? ==> outcome == Instance(Some(st.next)) && BelongsTo(g, after, st.next, k))
    decreases Missing(g, st.active), 2, 0
  {
    var made := Made(g, st, k);
    MakingNumbers(g, st, k);
    ResolveAllNumbers(g, mode, made, g[k].fields);
    ResolveAllKeeps(g, mode, made, g[k].fields);
    var filled := ResolveAll(g, mode, made, g[k].fields).1;
    BuildingNumbers(g, st, filled, k);
    if g[k].singleton {
      DroppingNumbers(g, st, filled, k);
    }
  }

  /** What came in between is made since, whether or not it is still kept. */
  lemma SinceThenSince(before: St, middle: St, after: St)
    requires MadeSince(before, middle) && MadeSince(middle, after)
    requires Retains(before, middle) && Retains(middle, after)
    ensures MadeSince(before, after)
  {
  }

  lemma MakingNumbers(g: Graph, st: St, k: Key)
    requires k in g && WellKept(g, st)
    ensures WellKept(g, Made(g, st, k))
  {
  }

  /** What is kept after the fields of a new instance are filled: all there was, the instance, and later ones. */
  lemma BuildingNumbers(g: Graph, st: St, filled: St, k: Key)
    requires k in g && WellKept(g, st) && WellKept(g, filled) && (g[k].singleton ==> k !in st.concrete)
    requires Retains(Made(g, st, k), filled) && MadeSince(Made(g, st, k), filled)
    ensures MadeSince(st, filled) && Retains(st, filled) && BelongsTo(g, filled, st.next, k)
  {
    forall x ensures (x in filled.concrete && filled.concrete[x] == st.next) <==> (x == k && g[k].singleton) {
      if x in filled.concrete && x in st.concrete {
        assert x in Made(g, st, k).concrete;
      }
    }
  }

  lemma DroppingNumbers(g: Graph, st: St, filled: St, k: Key)
    requires k !in st.concrete && WellKept(g, filled) && MadeSince(st, filled) && Retains(st, filled)
    ensures WellKept(g, Unmade(filled, k)) && MadeSince(st, Unmade(filled, k)) && Retains(st, Unmade(filled, k))
  {
  }

  lemma {:induction false} ResolveAllNumbers(g: Graph, mode: Mode, st: St, deps: seq<Key>)
    requires WellKept(g, st)
    ensures var after := ResolveAll(g, mode, st, deps).1; WellKept(g, after) && MadeSince(st, after)
    decreases Missing(g, st.active), 1, |deps|
  {
    if deps != [] {
      ResolveNumbers(g, mode, st, deps[0]);
      ResolveKeeps(g, mode, st, deps[0]);
      var (outcome, after) := Resolve(g, mode, st, deps[0]);
      if outcome.Instance? {
        ResolveAllNumbers(g, mode, after, deps[1..]);
        ResolveAllKeeps(g, mode, after, deps[1..]);
      }
    }
  }

  // ---- In error mode: a cycle is reported exactly when one is reachable ----

  ghost predicate Sound(g: Graph, cut: set<Key>, st: St) {
    Stacked(g, cut, st) && KeptIsClear(g, cut, st)
  }

  /** A closed walk that repeats nothing but its end. */
  predicate RealCycle(g: Graph, cut: set<Key>, path: seq<Key>) {
    && |path| >= 2 && IsWalk(g, cut, path)
    && path[0] == path[|path| - 1]
    && NoRepeat(path[..|path| - 1])
  }

  /** Some walk from `root` ends with `tail`. */
  ghost predicate LeadsTo(g: Graph, cut: set<Key>, root: Key, tail: seq<Key>) {
    exists lead: seq<Key> :: IsWalk(g, cut, lead + tail) && (lead + tail)[0] == root
  }

  ghost predicate Truthful(g: Graph, cut: set<Key>, root: Key, outcome: Outcome) {
    match outcome
    case Instance(_) => true
    case Circular(path) => RealCycle(g, cut, path) && LeadsTo(g, cut, root, path)
    case NoBinding(k) => k !in g && k !in cut && LeadsTo(g, cut, root, [k])
    case ResolverFailed(k) => k in g && g[k].fails && k !in cut && LeadsTo(g, cut, root, [k])
  }

  predicate Onward(g: Graph, cut: set<Key>, st: St, k: Key) {
    st.stack != [] ==> Edge(g, cut, st.stack[|st.stack| - 1], k)
  }

  function Root(st: St, k: Key): Key {
    if st.stack == [] then k else st.stack[0]
  }

  lemma StackLeadsTo(g: Graph, cut: set<Key>, st: St, k: Key)
    requires Stacked(g, cut, st) && Onward(g, cut, st, k)
    ensures IsWalk(g, cut, st.stack + [k]) && LeadsTo(g, cut, Root(st, k), [k])
  {
  }

  /** The reported path is a real closed walk hanging off the root. */
  lemma ReportIsTruthful(g: Graph, cut: set<Key>, st: St, k: Key)
    requires Stacked(g, cut, st) && Onward(g, cut, st, k) && k in st.active
    ensures Truthful(g, cut, Root(st, k), Circular(CyclePath(st.stack, k)))
  {
    var i := FirstIndex(st.stack, k);
    var path := CyclePath(st.stack, k);
    StackLeadsTo(g, cut, st, k);
    var whole := st.stack + [k];
    assert whole == st.stack[..i] + path;
    assert IsWalk(g, cut, path) by {
      forall x | 0 <= x < |path| - 1 ensures Edge(g, cut, path[x], path[x + 1]) {
        assert Edge(g, cut, whole[i + x], whole[i + x + 1]);
      }
    }
    assert path[..|path| - 1] == st.stack[i..];
    assert (st.stack[..i] + path)[0] == Root(st, k);
  }

  lemma EnteringIsSound(g: Graph, cut: set<Key>, st: St, k: Key)
    requires Sound(g, cut, st) && Onward(g, cut, st, k) && k !in st.active
    ensures Sound(g, cut, Enter(st, k))
  {
  }

  lemma {:induction false} ResolveIsSound(g: Graph, cut: set<Key>, st: St, k: Key)
    requires Sound(g, cut, st) && Onward(g, cut, st, k)
    ensures var (outcome, after) := Resolve(g, ErrorMode, st, k);
      && Sound(g, cut, after)
      && Truthful(g, cut, Root(st, k), outcome)
      && (outcome.Instance? ==> k !in st.active && Clear(g, cut, k, st.active))
    decreases Missing(g, st.active), 0, 0
  {
    if k in st.active {
      ReportIsTruthful(g, cut, st, k);
    } else if k !in g {
      StackLeadsTo(g, cut, st, k);
    } else if g[k].singleton && k in st.concrete {
      KeptKeyIsClear(g, cut, st, k);
    } else {
      EnteringIsProgress(g, st.active, k);
      EnteringIsSound(g, cut, st, k);
      GetInstanceIsSound(g, cut, Enter(st, k), k);
      var (outcome, inner) := GetInstance(g, ErrorMode, Enter(st, k), k);
      if outcome.Instance? {
        ClearFromDependencies(g, cut, k, st.active);
      }
      LeavingIsSound(g, cut, st, k, inner);
    }
  }

  lemma LeavingIsSound(g: Graph, cut: set<Key>, st: St, k: Key, inner: St)
    requires Sound(g, cut, st) && KeptIsClear(g, cut, inner) && inner.active == st.active + {k}
    requires k in inner.concrete ==> Clear(g, cut, k, st.active)
    ensures Sound(g, cut, inner.(active := st.active, stack := st.stack))
  {
  }

  /** While a singleton is being built, keeping, dropping and finishing it change nothing it could be blamed for. */
  lemma BuildingIsSound(g: Graph, cut: set<Key>, st: St, k: Key)
    requires Sound(g, cut, st) && k in g && k in st.active && k !in cut
    ensures Sound(g, cut, Made(g, st, k))
    ensures Sound(g, cut, Unmade(st, k))
    ensures Sound(g, cut, Finished(st, k))
  {
  }

  lemma FailureIsTruthful(g: Graph, cut: set<Key>, st: St, k: Key)
    requires Stacked(g, cut, st) && k in g && g[k].fails && k !in cut
    requires st.stack != [] && st.stack[|st.stack| - 1] == k
    ensures Truthful(g, cut, st.stack[0], ResolverFailed(k))
  {
    assert st.stack[..|st.stack| - 1] + [k] == st.stack;
  }

  lemma {:induction false} GetInstanceIsSound(g: Graph, cut: set<Key>, st: St, k: Key)
    requires Sound(g, cut, st) && k in g && k !in st.concrete
    requires st.stack != [] && st.stack[|st.stack| - 1] == k
    ensures var (outcome, after) := GetInstance(g, ErrorMode, st, k);
      && Sound(g, cut, after)
      && Truthful(g, cut, st.stack[0], outcome)
      && (outcome.Instance? ==> !g[k].fails && DependenciesClear(g, cut, k, st.active))
      && (!outcome.Instance? ==> k !in after.concrete)
    decreases Missing(g, st.active), 3, 0
  {
    ResolveAllIsSound(g, cut, st, k, g[k].args);
    ResolveAllKeeps(g, ErrorMode, st, g[k].args);
    var (argErr, called) := ResolveAll(g, ErrorMode, st, g[k].args);
    if argErr.None? {
      if g[k].fails {
        FailureIsTruthful(g, cut, st, k);
      } else {
        FillNewIsSound(g, cut, called, k);
      }
    }
  }

  lemma {:induction false} FillNewIsSound(g: Graph, cut: set<Key>, st: St, k: Key)
    requires Sound(g, cut, st) && k in g && k !in st.concrete
    requires st.stack != [] && st.stack[|st.stack| - 1] == k
    requires AllClear(g, cut, g[k].args, st.active)
    ensures var (outcome, after) := FillNew(g, ErrorMode, st, k);
      && Sound(g, cut, after)
      && Truthful(g, cut, st.stack[0], outcome)
      && (outcome.Instance? ==> DependenciesClear(g, cut, k, st.active))
      && (!outcome.Instance? ==> k !in after.concrete)
    decreases Missing(g, st.active), 2, 0
  {
    BuildingIsSound(g, cut, st, k);
    var made := Made(g, st, k);
    ResolveAllIsSound(g, cut, made, k, g[k].fields);
    ResolveAllKeeps(g, ErrorMode, made, g[k].fields);
    BuildingIsSound(g, cut, ResolveAll(g, ErrorMode, made, g[k].fields).1, k);
  }

  lemma {:induction false} ResolveAllIsSound(g: Graph, cut: set<Key>, st: St, k: Key, deps: seq<Key>)
    requires Sound(g, cut, st) && st.stack != [] && st.stack[|st.stack| - 1] == k
    requires forall d :: d in deps ==> Edge(g, cut, k, d)
    ensures var (err, after) := ResolveAll(g, ErrorMode, st, deps);
      && Sound(g, cut, after)
      && (err.Some? ==> Truthful(g, cut, st.stack[0], err.value))
      && (err.None? ==> AllClear(g, cut, deps, st.active))
    decreases Missing(g, st.active), 1, |deps|
  {
    if deps != [] {
      assert deps[0] in deps;
      ResolveIsSound(g, cut, st, deps[0]);
      var (outcome, after) := Resolve(g, ErrorMode, st, deps[0]);
      if outcome.Instance? {
        ResolveAllIsSound(g, cut, after, k, deps[1..]);
        assert forall d :: d in deps ==> d == deps[0] || d in deps[1..];
      }
    }
  }

  // ---- Requests from outside ----

  /** Nothing is being resolved, and only singletons are kept. */
  ghost predicate Idle(g: Graph, st: St) {
    && st.active == {} && st.stack == []
    && forall k :: k in st.concrete ==> k in g && g[k].singleton
  }

  /** Everything reached from `k` can be made. */
  ghost predicate Healthy(g: Graph, cut: set<Key>, k: Key) {
    forall x :: LeadsTo(g, cut, k, [x]) ==> Makes(g, cut, x)
  }

  /** What a request answers in error mode, on any graph. */
  lemma AnswerIsTruthful(g: Graph, st: St, k: Key)
    requires Idle(g, st)
    ensures var (outcome, after) := Resolve(g, ErrorMode, st, k);
      && Idle(g, after)
      && Truthful(g, st.concrete.Keys, k, outcome)
      && (outcome.Instance? ==> !CycleReachable(g, st.concrete.Keys, k) && Healthy(g, st.concrete.Keys, k))
  {
    var cut := st.concrete.Keys;
    ResolveIsSound(g, cut, st, k);
    if Resolve(g, ErrorMode, st, k).0.Instance? {
      forall x | LeadsTo(g, cut, k, [x]) ensures Makes(g, cut, x) {
        var lead: seq<Key> :| IsWalk(g, cut, lead + [x]) && (lead + [x])[0] == k;
        assert (lead + [x])[|lead|] == x;
      }
    }
  }

  /** On any graph there is an instance exactly when no cycle is reached and everything reached can be made. */
  lemma InstanceExactly(g: Graph, st: St, k: Key)
    requires Idle(g, st)
    ensures Resolve(g, ErrorMode, st, k).0.Instance? <==>
      !CycleReachable(g, st.concrete.Keys, k) && Healthy(g, st.concrete.Keys, k)
  {
    var cut := st.concrete.Keys;
    AnswerIsTruthful(g, st, k);
    var outcome := Resolve(g, ErrorMode, st, k).0;
    if outcome.Circular? {
      ReportedIsReached(g, cut, k, outcome.path);
    } else if !outcome.Instance? {
      assert LeadsTo(g, cut, k, [outcome.key]);
    }
  }

  lemma ReportedIsReached(g: Graph, cut: set<Key>, k: Key, path: seq<Key>)
    requires RealCycle(g, cut, path) && LeadsTo(g, cut, k, path)
    ensures CycleReachable(g, cut, k)
  {
    var lead: seq<Key> :| IsWalk(g, cut, lead + path) && (lead + path)[0] == k;
    var w := lead + path;
    assert w[|lead|] == path[0] && w[|w| - 1] == path[|path| - 1];
    assert !NoRepeat(w);
  }

  /** Where everything reached can be made, a cycle is reported exactly when one is reached. */
  lemma CycleReportedExactly(g: Graph, st: St, k: Key)
    requires Idle(g, st) && Healthy(g, st.concrete.Keys, k)
    ensures Resolve(g, ErrorMode, st, k).0.Circular? <==> CycleReachable(g, st.concrete.Keys, k)
  {
    var cut := st.concrete.Keys;
    AnswerIsTruthful(g, st, k);
    InstanceExactly(g, st, k);
    var outcome := Resolve(g, ErrorMode, st, k).0;
    if outcome.Circular? {
      ReportedIsReached(g, cut, k, outcome.path);
    }
  }

  /** Outside error mode a cycle is never reported. */
  lemma {:induction false} SkipNeverReports(g: Graph, st: St, k: Key)
    ensures !Resolve(g, SkipMode, st, k).0.Circular?
    decreases Missing(g, st.active), 0, 0
  {
    if k !in st.active && k in g {
      EnteringIsProgress(g, st.active, k);
      var inner := Enter(st, k);
      if !(g[k].singleton && k in inner.concrete) {
        SkipNeverReportsInOrder(g, inner, g[k].args);
        var (argErr, called) := ResolveAll(g, SkipMode, inner, g[k].args);
        SkipNeverReportsInOrder(g, Made(g, called, k), g[k].fields);
        assert !FillNew(g, SkipMode, called, k).0.Circular?;
      }
    }
  }

  lemma {:induction false} SkipNeverReportsInOrder(g: Graph, st: St, deps: seq<Key>)
    ensures var err := ResolveAll(g, SkipMode, st, deps).0; err.Some? ==> !err.value.Circular?
    decreases Missing(g, st.active), 1, |deps|
  {
    if deps != [] {
      SkipNeverReports(g, st, deps[0]);
      SkipNeverReportsInOrder(g, Resolve(g, SkipMode, st, deps[0]).1, deps[1..]);
    }
  }

  // ---- Outside error mode: what a key met again is answered ----

  /**
   A singleton asked for again while its arguments, `args`, are resolved is answered with nothing, as there is none
   yet; asked for while its fields, `fields`, are filled, with the very instance being filled.
   */
  lemma MetAgainExactly(g: Graph, entered: St, k: Key, args: seq<Key>, fields: seq<Key>)
    requires k in g && g[k].singleton && k in entered.active && k !in entered.concrete
    ensures var (_, called) := ResolveAll(g, SkipMode, entered, args);
      var (_, filled) := ResolveAll(g, SkipMode, Made(g, called, k), fields);
      && Resolve(g, SkipMode, called, k).0 == Instance(None)
      && Resolve(g, SkipMode, filled, k).0 == Instance(Some(called.next))
  {
    ResolveAllKeeps(g, SkipMode, entered, args);
    var called := ResolveAll(g, SkipMode, entered, args).1;
    ResolveAllKeeps(g, SkipMode, Made(g, called, k), fields);
    assert Made(g, called, k).concrete[k] == called.next;
  }

  function Serve(g: Graph, mode: Mode, st: St, requests: seq<Key>): St
    decreases |requests|
  {
    if requests == [] then st else Serve(g, mode, Resolve(g, mode, st, requests[0]).1, requests[1..])
  }

  /** Over any requests, in either mode, a singleton is built at most once and what is kept stays. */
  lemma {:induction false} BuiltAtMostOnce(g: Graph, mode: Mode, st: St, requests: seq<Key>)
    requires AtMostOnce(st.builds, st.concrete)
    ensures Keeps(st.active, st, Serve(g, mode, st, requests))
    ensures AtMostOnce(Serve(g, mode, st, requests).builds, Serve(g, mode, st, requests).concrete)
    ensures Serve(g, mode, st, requests).active == st.active
    decreases |requests|
  {
    if requests != [] {
      ResolveKeeps(g, mode, st, requests[0]);
      var after := Resolve(g, mode, st, requests[0]).1;
      BuiltAtMostOnce(g, mode, after, requests[1..]);
    }
  }

  /** From the start, the singletons built are the ones kept, each of them once. */
  lemma BuiltOnceExactlyWhenKept(g: Graph, mode: Mode, requests: seq<Key>, k: Key)
    ensures var end := Serve(g, mode, Begun(), requests);
      Count(end.builds, k) == if k in end.concrete then 1 else 0
  {
    BuiltAtMostOnce(g, mode, Begun(), requests);
  }

  lemma {:induction false} ServeNumbers(g: Graph, mode: Mode, st: St, requests: seq<Key>)
    requires WellKept(g, st) && st.active == {}
    ensures var end := Serve(g, mode, st, requests); WellKept(g, end) && MadeSince(st, end) && Retains(st, end)
    ensures Serve(g, mode, st, requests).active == {} && Serve(g, mode, st, requests).stack == st.stack
    decreases |requests|
  {
    if requests != [] {
      var after := Resolve(g, mode, st, requests[0]).1;
      ResolveNumbers(g, mode, st, requests[0]);
      ResolveKeeps(g, mode, st, requests[0]);
      ServeNumbers(g, mode, after, requests[1..]);
      SinceThenSince(st, after, Serve(g, mode, after, requests[1..]));
    }
  }

  /** An answer is the instance kept for its key, or one made for this request. */
  lemma AnswerBelongs(g: Graph, mode: Mode, st: St, k: Key)
    requires WellKept(g, st) && st.active == {} && Resolve(g, mode, st, k).0.Instance?
    ensures var (outcome, after) := Resolve(g, mode, st, k);
      && k in g && outcome.value.Some? && WellKept(g, after) && BelongsTo(g, after, outcome.value.value, k)
      && (if k in st.concrete then outcome.value.value == st.concrete[k]
          else outcome.value.value >= st.next)
  {
    EnteringIsProgress(g, st.active, k);
    ResolveNumbers(g, mode, st, k);
    GetInstanceNumbers(g, mode, Enter(st, k), k);
  }

  lemma BelongsStays(g: Graph, before: St, after: St, value: nat, k: Key)
    requires k in g && BelongsTo(g, before, value, k) && MadeSince(before, after) && Retains(before, after)
    ensures BelongsTo(g, after, value, k)
  {
    forall x ensures (x in after.concrete && after.concrete[x] == value) <==> (x == k && g[k].singleton) {
      assert x in before.concrete ==> x in after.concrete && after.concrete[x] == before.concrete[x];
    }
  }

  /** A container nothing has been asked of. */
  function Begun(): St {
    St(map[], map[], 0, {}, [])
  }

  /**
   Over any requests from the start, in either mode, two answers are one and the same instance exactly when they are
   answers for the same singleton. Neither is ever empty.
   */
  lemma AnswersShareExactly(g: Graph, mode: Mode, before: seq<Key>, j: Key, between: seq<Key>, k: Key)
    requires var (first, met) := Resolve(g, mode, Serve(g, mode, Begun(), before), j);
      first.Instance? && Resolve(g, mode, Serve(g, mode, met, between), k).0.Instance?
    ensures var (first, met) := Resolve(g, mode, Serve(g, mode, Begun(), before), j);
      var second := Resolve(g, mode, Serve(g, mode, met, between), k).0;
      && first.value.Some? && second.value.Some? && j in g
      && (first == second <==> j == k && g[k].singleton)
  {
    var st := Serve(g, mode, Begun(), before);
    ServeNumbers(g, mode, Begun(), before);
    var (first, met) := Resolve(g, mode, st, j);
    AnswerBelongs(g, mode, st, j);
    ServeNumbers(g, mode, met, between);
    var later := Serve(g, mode, met, between);
    BelongsStays(g, met, later, first.value.value, j);
    AnswerBelongs(g, mode, later, k);
  }

  lemma NewIsKept(g: Graph, mode: Mode, st: St, k: Key)
    requires k in g && g[k].singleton
    ensures var (outcome, after) := FillNew(g, mode, st, k);
      outcome.Instance? ==> k in after.concrete && outcome == Instance(Some(after.concrete[k]))
  {
    ResolveAllKeeps(g, mode, Made(g, st, k), g[k].fields);
  }

  /** A singleton answered with its instance has that instance kept. */
  lemma AnswerIsKept(g: Graph, mode: Mode, st: St, k: Key)
    requires k in g && g[k].singleton && k !in st.active
    requires Resolve(g, mode, st, k).0.Instance?
    ensures var (outcome, after) := Resolve(g, mode, st, k);
      k in after.concrete && outcome == Instance(Some(after.concrete[k]))
  {
    if k !in st.concrete {
      EnteringIsProgress(g, st.active, k);
      var (argErr, called) := ResolveAll(g, mode, Enter(st, k), g[k].args);
      NewIsKept(g, mode, called, k);
      assert GetInstance(g, mode, Enter(st, k), k).0.Instance?;
      assert GetInstance(g, mode, Enter(st, k), k) == FillNew(g, mode, called, k);
    }
  }

  /** Whatever is requested in between, a singleton answers with the same instance. */
  lemma SameInstanceAlways(g: Graph, mode: Mode, st: St, k: Key, between: seq<Key>)
    requires k in g && g[k].singleton && k !in st.active
    requires AtMostOnce(st.builds, st.concrete)
    requires Resolve(g, mode, st, k).0.Instance?
    ensures Resolve(g, mode, Serve(g, mode, Resolve(g, mode, st, k).1, between), k).0
         == Resolve(g, mode, st, k).0
  {
    AnswerIsKept(g, mode, st, k);
    ResolveKeeps(g, mode, st, k);
    var first := Resolve(g, mode, st, k).1;
    BuiltAtMostOnce(g, mode, first, between);
    EnteringIsProgress(g, st.active, k);
  }
}
