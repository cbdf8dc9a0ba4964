/**
 One mutex per key, kept only while somebody holds it or waits for it.

 The class has the two critical sections of the source on real lock objects. The step machine runs
 them, with taking and releasing a lock object as steps of their own, for any number of goroutines
 over any number of keys.
 */
module KeyedMutexes {

  class KeyedLock {
    var refCount: int

    constructor ()
      ensures refCount == 0
    {
      refCount := 0;
    }
  }

  /** The key's lock object: the one in the map, or a new one. */
  function EntryOf<L>(locks: map<string, L>, key: string, spare: L): L {
    if key in locks then locks[key] else spare
  }

  /** The map once the last user may have left the key. */
  function WithoutUnused<L>(locks: map<string, L>, key: string, refCount: int): map<string, L> {
    if refCount == 0 then locks - {key} else locks
  }

  class KeyedMutex {
    var locks: map<string, KeyedLock>

    constructor ()
      ensures locks == map[]
    {
      locks := map[];
    }

    /** Finds or makes the key's lock object, and counts the caller on it. */
    method Enter(key: string) returns (entry: KeyedLock)
      modifies this, locks.Values
      ensures entry == EntryOf(old(locks), key, entry) && locks == old(locks)[key := entry]
      ensures key in old(locks) ==> entry == old(locks[key]) && entry.refCount == old(locks[key].refCount) + 1
      ensures key !in old(locks) ==> fresh(entry) && entry.refCount == 1
      ensures forall other :: other in old(locks) && old(locks[other]) != entry ==>
                old(locks[other]).refCount == old(locks[other].refCount)
    {
      if key in locks {
        entry := locks[key];
      } else {
        entry := new KeyedLock();
        locks := locks[key := entry];
      }
      entry.refCount := entry.refCount + 1;
    }

    /** Counts the caller off its lock object, and drops the key's object when nobody is left on it. */
    method Leave(key: string, entry: KeyedLock)
      modifies this, entry
      ensures entry.refCount == old(entry.refCount) - 1
      ensures locks == WithoutUnused(old(locks), key, entry.refCount)
    {
      entry.refCount := entry.refCount - 1;
      if entry.refCount == 0 {
        locks := locks - {key};
      }
    }
  }

  // ---- All interleavings ----

  datatype Stage = Waiting | Holding | Released
  datatype Place = Place(key: string, lockId: nat, stage: Stage)
  datatype Lock = Lock(refCount: int, locked: bool)

  /** The key map, every lock object ever made, and where each goroutine is between two of its steps. */
  datatype Sys = Sys(locks: map<string, nat>, objects: map<nat, Lock>, inside: map<nat, Place>)

  datatype Event =
    | Enter(g: nat, key: string, spare: nat)
    | Take(g: nat)
    | Release(g: nat)
    | Leave(g: nat)

  const INITIAL := Sys(map[], map[], map[])

  predicate At(s: Sys, g: nat, stage: Stage) {
    g in s.inside && s.inside[g].stage == stage && s.inside[g].lockId in s.objects
  }

  predicate Enabled(s: Sys, ev: Event) {
    match ev
    case Enter(g, key, spare) => g !in s.inside && spare !in s.objects && (key in s.locks ==> s.locks[key] in s.objects)
    case Take(g) => At(s, g, Waiting) && !s.objects[s.inside[g].lockId].locked
    case Release(g) => At(s, g, Holding)
    case Leave(g) => At(s, g, Released)
  }

  function Next(s: Sys, ev: Event): Sys
    requires Enabled(s, ev)
  {
    match ev
    case Enter(g, key, spare) =>
      var lockId := EntryOf(s.locks, key, spare);
      var lock := if key in s.locks then s.objects[lockId] else Lock(0, false);
      Sys(s.locks[key := lockId],
          s.objects[lockId := lock.(refCount := lock.refCount + 1)],
          s.inside[g := Place(key, lockId, Waiting)])
    case Take(g) =>
      var place := s.inside[g];
      Sys(s.locks, s.objects[place.lockId := s.objects[place.lockId].(locked := true)],
          s.inside[g := place.(stage := Holding)])
    case Release(g) =>
      var place := s.inside[g];
      Sys(s.locks, s.objects[place.lockId := s.objects[place.lockId].(locked := false)],
          s.inside[g := place.(stage := Released)])
    case Leave(g) =>
      var place := s.inside[g];
      var lock := s.objects[place.lockId].(refCount := s.objects[place.lockId].refCount - 1);
      Sys(WithoutUnused(s.locks, place.key, lock.refCount),
          s.objects[place.lockId := lock],
          s.inside - {g})
  }

  function Users(inside: map<nat, Place>, key: string): set<nat> {
    set g | g in inside && inside[g].key == key
  }

  function Holders(inside: map<nat, Place>, key: string): set<nat> {
    set g | g in inside && inside[g].key == key && inside[g].stage.Holding?
  }

  /** A key in the map: its object counts the goroutines inside for it, and is locked exactly by one of them. */
  predicate KeyOk(s: Sys, key: string)
    requires key in s.locks
  {
    && s.locks[key] in s.objects
    && s.objects[s.locks[key]].refCount == |Users(s.inside, key)|
    && |Users(s.inside, key)| > 0
    && |Holders(s.inside, key)| == (if s.objects[s.locks[key]].locked then 1 else 0)
  }

  predicate Linked(s: Sys) {
    && (forall g :: g in s.inside ==> s.inside[g].key in s.locks && s.inside[g].lockId == s.locks[s.inside[g].key])
    && (forall key, other :: key in s.locks && other in s.locks && s.locks[key] == s.locks[other] ==> key == other)
  }

  predicate Inv(s: Sys) {
    Linked(s) && forall key :: key in s.locks ==> KeyOk(s, key)
  }

  /** A key whose object and whose users and holders are as they were is as well as it was. */
  lemma SameKeyOk(s: Sys, t: Sys, key: string)
    requires key in s.locks && KeyOk(s, key) && key in t.locks && t.locks[key] == s.locks[key]
    requires t.locks[key] in t.objects && t.objects[t.locks[key]] == s.objects[s.locks[key]]
    requires Users(t.inside, key) == Users(s.inside, key) && Holders(t.inside, key) == Holders(s.inside, key)
    ensures KeyOk(t, key)
  {
  }

  lemma OtherUsers(before: map<nat, Place>, after: map<nat, Place>, g: nat, key: string)
    requires after - {g} == before - {g}
    requires (g in before ==> before[g].key != key) && (g in after ==> after[g].key != key)
    ensures Users(after, key) == Users(before, key) && Holders(after, key) == Holders(before, key)
  {
    assert forall h :: h != g && h in before ==> h in before - {g} && (before - {g})[h] == before[h];
    assert forall h :: h != g && h in after ==> h in after - {g} && (after - {g})[h] == after[h];
  }

  /** A step of a goroutine on one key leaves every other key as it was. */
  lemma OtherKeyOk(s: Sys, ev: Event, key: string)
    requires Inv(s) && Enabled(s, ev) && key in s.locks && key in Next(s, ev).locks
    requires key != if ev.Enter? then ev.key else s.inside[ev.g].key
    ensures KeyOk(Next(s, ev), key)
  {
    assert KeyOk(s, key);
    var t := Next(s, ev);
    assert t.inside - {ev.g} == s.inside - {ev.g};
    OtherUsers(s.inside, t.inside, ev.g, key);
    SameKeyOk(s, t, key);
  }

  lemma EnterKeepsLinks(s: Sys, g: nat, key: string, spare: nat)
    requires Inv(s) && Enabled(s, Enter(g, key, spare))
    ensures Linked(Next(s, Enter(g, key, spare)))
  {
  }

  /** Entering adds the newcomer to its key's users, and nobody to its holders. */
  lemma EnterUsers(inside: map<nat, Place>, g: nat, place: Place)
    requires g !in inside && place.stage.Waiting?
    ensures Users(inside[g := place], place.key) == Users(inside, place.key) + {g}
    ensures |Users(inside[g := place], place.key)| == |Users(inside, place.key)| + 1
    ensures Holders(inside[g := place], place.key) == Holders(inside, place.key)
  {
  }

  lemma EnterKeepsKey(s: Sys, g: nat, key: string, spare: nat)
    requires Inv(s) && Enabled(s, Enter(g, key, spare))
    ensures KeyOk(Next(s, Enter(g, key, spare)), key)
  {
    EnterUsers(s.inside, g, Next(s, Enter(g, key, spare)).inside[g]);
    if key in s.locks {
      assert KeyOk(s, key);
    } else {
      assert Users(s.inside, key) == {} && Holders(s.inside, key) == {};
    }
  }

  lemma TakeKeeps(s: Sys, g: nat)
    requires Inv(s) && Enabled(s, Take(g))
    ensures Linked(Next(s, Take(g))) && KeyOk(Next(s, Take(g)), s.inside[g].key)
  {
    var t, key := Next(s, Take(g)), s.inside[g].key;
    assert KeyOk(s, key);
    assert Users(t.inside, key) == Users(s.inside, key);
    assert Holders(t.inside, key) == Holders(s.inside, key) + {g};
  }

  lemma ReleaseKeeps(s: Sys, g: nat)
    requires Inv(s) && Enabled(s, Release(g))
    ensures Linked(Next(s, Release(g))) && KeyOk(Next(s, Release(g)), s.inside[g].key)
  {
    var t, key := Next(s, Release(g)), s.inside[g].key;
    assert KeyOk(s, key);
    assert Users(t.inside, key) == Users(s.inside, key);
    assert g in Holders(s.inside, key);
    assert Holders(t.inside, key) == Holders(s.inside, key) - {g};
  }

  lemma LeaveKeeps(s: Sys, g: nat)
    requires Inv(s) && Enabled(s, Leave(g))
    ensures var t := Next(s, Leave(g));
            Linked(t) && (s.inside[g].key in t.locks ==> KeyOk(t, s.inside[g].key))
  {
    var t, key := Next(s, Leave(g)), s.inside[g].key;
    assert KeyOk(s, key);
    assert g in Users(s.inside, key);
    assert Users(t.inside, key) == Users(s.inside, key) - {g};
    assert Holders(t.inside, key) == Holders(s.inside, key);
    if key !in t.locks {
      assert |Users(t.inside, key)| == |Users(s.inside, key)| - 1;
      assert Users(t.inside, key) == {};
      assert forall h :: h in t.inside ==> t.inside[h].key == key ==> h in Users(t.inside, key);
    }
  }

  lemma StepKeepsInv(s: Sys, ev: Event)
    requires Inv(s) && Enabled(s, ev)
    ensures Inv(Next(s, ev))
  {
    match ev {
      case Enter(g, key, spare) =>
        EnterKeepsLinks(s, g, key, spare);
        EnterKeepsKey(s, g, key, spare);
      case Take(g) => TakeKeeps(s, g);
      case Release(g) => ReleaseKeeps(s, g);
      case Leave(g) => LeaveKeeps(s, g);
    }
    var own := if ev.Enter? then ev.key else s.inside[ev.g].key;
    forall key | key in Next(s, ev).locks && key != own ensures KeyOk(Next(s, ev), key) {
      OtherKeyOk(s, ev, key);
    }
  }

  predicate Legal(s: Sys, run: seq<Event>)
    decreases |run|
  {
    run == [] || (Enabled(s, run[0]) && Legal(Next(s, run[0]), run[1..]))
  }

  function After(s: Sys, run: seq<Event>): Sys
    requires Legal(s, run)
    decreases |run|
  {
    if run == [] then s else After(Next(s, run[0]), run[1..])
  }

  lemma {:induction false} RunKeepsInv(s: Sys, run: seq<Event>)
    requires Inv(s) && Legal(s, run)
    ensures Inv(After(s, run))
    decreases |run|
  {
    if run != [] {
      StepKeepsInv(s, run[0]);
      RunKeepsInv(Next(s, run[0]), run[1..]);
    }
  }

  lemma OneElement(a: set<nat>, x: nat, y: nat)
    requires x in a && |a| <= 1
    ensures y in a ==> x == y
  {
    assert |a - {x}| == |a| - 1;
    assert a - {x} == {};
    assert y in a ==> y == x || y in a - {x};
  }

  /** In every run at most one goroutine holds a key, and all those inside for it share one locked object. */
  lemma AtMostOneHolder(run: seq<Event>, g: nat, h: nat)
    requires Legal(INITIAL, run)
    requires var inside := After(INITIAL, run).inside;
             g in inside && h in inside && inside[g].key == inside[h].key && inside[g].stage.Holding?
    ensures var s := After(INITIAL, run);
            && (s.inside[h].stage.Holding? ==> g == h)
            && s.inside[h].lockId == s.inside[g].lockId
            && s.inside[g].lockId in s.objects && s.objects[s.inside[g].lockId].locked
  {
    RunKeepsInv(INITIAL, run);
    var s := After(INITIAL, run);
    var key := s.inside[g].key;
    assert KeyOk(s, key);
    assert g in Holders(s.inside, key);
    assert s.inside[h].stage.Holding? ==> h in Holders(s.inside, key);
    OneElement(Holders(s.inside, key), g, h);
  }

  /** In every run the map holds exactly the keys in use, each counting those inside for it. */
  lemma MapIsKeysInUse(run: seq<Event>)
    requires Legal(INITIAL, run)
    ensures var s := After(INITIAL, run);
            && s.locks.Keys == (set g | g in s.inside :: s.inside[g].key)
            && (s.inside == map[] ==> s.locks == map[])
            && forall key :: key in s.locks ==>
                 s.locks[key] in s.objects && s.objects[s.locks[key]].refCount == |Users(s.inside, key)|
  {
    RunKeepsInv(INITIAL, run);
    var s := After(INITIAL, run);
    forall key | key in s.locks
      ensures exists g :: g in s.inside && s.inside[g].key == key
    {
      assert KeyOk(s, key);
      var g :| g in Users(s.inside, key);
    }
  }

  /** What a goroutine does next: one outside enters for `key`. */
  function NextMove(s: Sys, g: nat, key: string, spare: nat): Event {
    if g !in s.inside then Enter(g, key, spare)
    else
      match s.inside[g].stage
      case Waiting => Take(g)
      case Holding => Release(g)
      case Released => Leave(g)
  }

  /**
   In every run a goroutine waits only while another holds its key: otherwise it can take the lock now. At any other
   step, coming in, letting go and leaving, it waits for nobody.
   */
  lemma NobodyIsStranded(run: seq<Event>, g: nat, key: string, spare: nat)
    requires Legal(INITIAL, run) && spare !in After(INITIAL, run).objects
    ensures var s := After(INITIAL, run);
            Enabled(s, NextMove(s, g, key, spare)) <==>
              !(g in s.inside && s.inside[g].stage.Waiting? &&
                exists h :: h in s.inside && s.inside[h].key == s.inside[g].key && s.inside[h].stage.Holding?)
  {
    RunKeepsInv(INITIAL, run);
    var s := After(INITIAL, run);
    if g !in s.inside {
      assert key in s.locks ==> KeyOk(s, key);
      return;
    }
    var key := s.inside[g].key;
    assert KeyOk(s, key);
    if s.inside[g].stage.Waiting? {
      assert !Enabled(s, Take(g)) <==> Holders(s.inside, key) != {};
    }
    assert Holders(s.inside, key) != {} ==> exists h :: h in Holders(s.inside, key);
    assert forall h :: h in Holders(s.inside, key) <==>
             h in s.inside && s.inside[h].key == key && s.inside[h].stage.Holding?;
  }
}
