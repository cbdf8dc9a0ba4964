/**
 The in-memory session store: sessions by id, the tombstones of the ids it revoked, and the sweeps that
 bound both.

 A session is seen from here as its expiry. Every operation holds one lock, but AddSession reads the
 clock before it has the lock, so the instant it goes by may be in the past.
 */
module MemorySessions {
  import opened RevocationMemory

  datatype Limits = Limits(maxTombstones: int, retention: int, sweepEvery: int, tombstoneSweepEvery: int)

  datatype Store = Store(sessions: map<string, int>, tombstones: map<string, int>,
                         lastSweep: int, lastTombstoneSweep: int)

  predicate Buried(s: Store, now: int, id: string) {
    id in s.tombstones && s.tombstones[id] > now
  }

  function Unexpired(sessions: map<string, int>, now: int): map<string, int> {
    map id | id in sessions && sessions[id] >= now :: sessions[id]
  }

  function SweptTombstones(s: Store, l: Limits, now: int): Store {
    if now - s.lastTombstoneSweep < l.tombstoneSweepEvery then s
    else s.(tombstones := LiveTombstones(s.tombstones, now), lastTombstoneSweep := now)
  }

  /** `clock` is what the sessions themselves compare their expiry with, a moment later. */
  function Swept(s: Store, l: Limits, now: int, clock: int): Store {
    if now - s.lastSweep < l.sweepEvery then s
    else SweptTombstones(s.(lastSweep := now, sessions := Unexpired(s.sessions, clock)), l, now)
  }

  function Added(s: Store, l: Limits, id: string, expiry: int, now: int, clock: int): Store {
    if Buried(s, now, id) then s else Swept(s.(sessions := s.sessions[id := expiry]), l, now, clock)
  }

  function Remember(tombstones: map<string, int>, l: Limits, id: string, now: int, order: seq<string>): map<string, int>
    requires Enumerates(order, tombstones.Keys)
  {
    EvictTombstone(tombstones, l.maxTombstones, order)[id := now + l.retention]
  }

  /** Only an id that was held is remembered. */
  function Forgotten(s: Store, l: Limits, id: string, now: int, order: seq<string>): Store
    requires Enumerates(order, s.tombstones.Keys)
  {
    var gone := s.(sessions := s.sessions - {id});
    if id in s.sessions then gone.(tombstones := Remember(s.tombstones, l, id, now, order)) else gone
  }

  function RevokedHere(s: Store, l: Limits, id: string, now: int, order: seq<string>): Store
    requires Enumerates(order, s.tombstones.Keys)
  {
    SweptTombstones(Forgotten(s, l, id, now, order), l, now)
  }

  const EMPTY_STORE := Store(map[], map[], 0, 0)

  class MemorySession {
    const limits: Limits
    var sessions: map<string, int>
    var tombstones: map<string, int>
    var lastSweep: int
    var lastTombstoneSweep: int

    constructor (limits: Limits)
      ensures this.limits == limits && Holds() == EMPTY_STORE
    {
      this.limits := limits;
      sessions, tombstones, lastSweep, lastTombstoneSweep := map[], map[], 0, 0;
    }

    ghost function Holds(): (s: Store)
      reads this
    {
      Store(sessions, tombstones, lastSweep, lastTombstoneSweep)
    }

    method EvictExpiredLocked(clock: int)
      modifies this`sessions
      ensures sessions == Unexpired(old(sessions), clock)
    {
      ghost var before := sessions;
      var todo := sessions.Keys;
      while todo != {}
        invariant todo <= sessions.Keys
        invariant sessions == map id | id in before && (id in todo || before[id] >= clock) :: before[id]
        decreases todo
      {
        var id :| id in todo;
        todo := todo - {id};
        if sessions[id] < clock {
          sessions := sessions - {id};
        }
      }
    }

    method SweepTombstonesLocked(now: int)
      modifies this`tombstones, this`lastTombstoneSweep
      ensures Holds() == SweptTombstones(old(Holds()), limits, now)
    {
      if now - lastTombstoneSweep < limits.tombstoneSweepEvery {
        return;
      }
      lastTombstoneSweep := now;
      ghost var before := tombstones;
      var todo := tombstones.Keys;
      while todo != {}
        invariant todo <= tombstones.Keys && lastTombstoneSweep == now
        invariant tombstones == map id | id in before && (id in todo || before[id] > now) :: before[id]
        decreases todo
      {
        var id :| id in todo;
        todo := todo - {id};
        if tombstones[id] <= now {
          tombstones := tombstones - {id};
        }
      }
      assert tombstones == LiveTombstones(before, now);
    }

    method SweepLocked(now: int, clock: int)
      modifies this`sessions, this`tombstones, this`lastSweep, this`lastTombstoneSweep
      ensures Holds() == Swept(old(Holds()), limits, now, clock)
    {
      if now - lastSweep < limits.sweepEvery {
        return;
      }
      lastSweep := now;
      EvictExpiredLocked(clock);
      SweepTombstonesLocked(now);
    }

    method AddSession(id: string, expiry: int, now: int, clock: int) returns (refused: bool)
      modifies this
      ensures refused <==> id in old(tombstones) && old(tombstones)[id] > now
      ensures Holds() == Added(old(Holds()), limits, id, expiry, now, clock)
    {
      if id in tombstones && tombstones[id] > now {
        return true;
      }
      sessions := sessions[id := expiry];
      SweepLocked(now, clock);
      return false;
    }

    method RevokeLocked(id: string, now: int, order: seq<string>) returns (held: bool)
      requires Enumerates(order, tombstones.Keys)
      modifies this
      ensures held <==> id in old(sessions)
      ensures Holds() == RevokedHere(old(Holds()), limits, id, now, order)
    {
      held := ForgetLocked(id, now, order);
      SweepTombstonesLocked(now);
    }

    method ForgetLocked(id: string, now: int, order: seq<string>) returns (held: bool)
      requires Enumerates(order, tombstones.Keys)
      modifies this`sessions, this`tombstones
      ensures held <==> id in old(sessions)
      ensures Holds() == Forgotten(old(Holds()), limits, id, now, order)
    {
      held := id in sessions;
      sessions := sessions - {id};
      if held {
        RememberLocked(id, now, order);
      }
    }

    method RememberLocked(id: string, now: int, order: seq<string>)
      requires Enumerates(order, tombstones.Keys)
      modifies this`tombstones
      ensures tombstones == Remember(old(tombstones), limits, id, now, order)
    {
      var kept := EvictOldest(tombstones, limits.maxTombstones, order);
      tombstones := kept[id := now + limits.retention];
    }

    method ClearExpiredSessions(now: int)
      modifies this
      ensures Holds() == SweptTombstones(old(Holds()).(sessions := Unexpired(old(sessions), now)), limits, now)
      ensures forall id :: id in sessions <==> id in old(sessions) && old(sessions)[id] >= now
    {
      EvictExpiredLocked(now);
      SweepTombstonesLocked(now);
    }
  }

  // ---- Any sequence of operations ----

  datatype Event =
    | Pass(to: int)
    | Slide(id: string, expiry: int)
    | Add(id: string, expiry: int, seen: int)
    | Revoke(id: string, order: seq<string>)
    | Clear

  datatype Sys = Sys(store: Store, now: int)

  /** An added session was looked at with a clock read before the lock; no other clock is behind. */
  predicate Enabled(s: Sys, e: Event) {
    match e
    case Pass(to) => to >= s.now
    case Slide(id, _) => id in s.store.sessions
    case Add(_, _, seen) => seen <= s.now
    case Revoke(_, order) => Enumerates(order, s.store.tombstones.Keys)
    case Clear => true
  }

  function Next(l: Limits, s: Sys, e: Event): Sys
    requires Enabled(s, e)
  {
    match e
    case Pass(to) => s.(now := to)
    case Slide(id, expiry) => s.(store := s.store.(sessions := s.store.sessions[id := expiry]))
    case Add(id, expiry, seen) => s.(store := Added(s.store, l, id, expiry, seen, s.now))
    case Revoke(id, order) => s.(store := RevokedHere(s.store, l, id, s.now, order))
    case Clear => s.(store := SweptTombstones(s.store.(sessions := Unexpired(s.store.sessions, s.now)), l, s.now))
  }

  /** A buried id is not stored, the tombstones are within their cap, and none is good for more than the retention. */
  predicate Inv(l: Limits, s: Sys) {
    && (forall id :: id in s.store.tombstones ==> s.store.tombstones[id] <= s.now + l.retention)
    && (forall id :: id in s.store.sessions ==> !Buried(s.store, s.now, id))
    && (l.maxTombstones >= 1 ==> |s.store.tombstones| <= l.maxTombstones)
  }

  lemma SweepKeepsInv(l: Limits, store: Store, seen: int, now: int, before: Store)
    requires Inv(l, Sys(before, now)) && store.sessions.Keys <= before.sessions.Keys
    requires store.tombstones == before.tombstones
    ensures Inv(l, Sys(SweptTombstones(store, l, seen), now))
  {
    SizeOfPart(LiveTombstones(store.tombstones, seen), store.tombstones);
  }

  lemma AddKeepsInv(l: Limits, s: Sys, id: string, expiry: int, seen: int)
    requires Inv(l, s) && seen <= s.now
    ensures Inv(l, s.(store := Added(s.store, l, id, expiry, seen, s.now)))
  {
    if !Buried(s.store, seen, id) {
      var held := s.store.(sessions := s.store.sessions[id := expiry]);
      assert Inv(l, Sys(held, s.now));
      SweepKeepsInv(l, held.(lastSweep := seen, sessions := Unexpired(held.sessions, s.now)), seen, s.now, held);
    }
  }

  lemma ForgetKeepsInv(l: Limits, s: Sys, id: string, order: seq<string>)
    requires Inv(l, s) && Enumerates(order, s.store.tombstones.Keys)
    ensures Inv(l, s.(store := Forgotten(s.store, l, id, s.now, order)))
  {
    EvictedSize(s.store.tombstones, l.maxTombstones, order);
    SizeAfterUpdate(EvictTombstone(s.store.tombstones, l.maxTombstones, order), id, s.now + l.retention);
  }

  lemma RevokeKeepsInv(l: Limits, s: Sys, id: string, order: seq<string>)
    requires Inv(l, s) && Enumerates(order, s.store.tombstones.Keys)
    ensures Inv(l, s.(store := RevokedHere(s.store, l, id, s.now, order)))
  {
    ForgetKeepsInv(l, s, id, order);
    var gone := Forgotten(s.store, l, id, s.now, order);
    SweepKeepsInv(l, gone, s.now, s.now, gone);
  }

  lemma EvictedSize(tombstones: map<string, int>, limit: int, order: seq<string>)
    requires Enumerates(order, tombstones.Keys) && (limit >= 1 ==> |tombstones| <= limit)
    ensures var kept := EvictTombstone(tombstones, limit, order);
      kept.Keys <= tombstones.Keys && (limit >= 1 ==> |kept| < limit)
  {
    if limit >= 1 && |tombstones| >= limit {
      assert tombstones.Keys != {};
      assert order != [];
      ScanFindsAKey(tombstones, order);
      SizeAfterRemoval(tombstones, Scan(tombstones, order));
    }
  }

  lemma StepKeepsInv(l: Limits, s: Sys, e: Event)
    requires Inv(l, s) && Enabled(s, e)
    ensures Inv(l, Next(l, s, e))
  {
    match e {
      case Add(id, expiry, seen) => AddKeepsInv(l, s, id, expiry, seen);
      case Revoke(id, order) => RevokeKeepsInv(l, s, id, order);
      case Clear =>
        var cleared := s.store.(sessions := Unexpired(s.store.sessions, s.now));
        SweepKeepsInv(l, cleared, s.now, s.now, s.store);
      case _ =>
    }
  }

  predicate Legal(l: Limits, s: Sys, run: seq<Event>)
    decreases |run|
  {
    run == [] || (Enabled(s, run[0]) && Legal(l, Next(l, s, run[0]), run[1..]))
  }

  function After(l: Limits, s: Sys, run: seq<Event>): Sys
    requires Legal(l, s, run)
    decreases |run|
  {
    if run == [] then s else After(l, Next(l, s, run[0]), run[1..])
  }

  lemma {:induction false} RunKeepsInv(l: Limits, s: Sys, run: seq<Event>)
    requires Inv(l, s) && Legal(l, s, run)
    ensures Inv(l, After(l, s, run))
    decreases |run|
  {
    if run != [] {
      StepKeepsInv(l, s, run[0]);
      RunKeepsInv(l, Next(l, s, run[0]), run[1..]);
    }
  }

  /** A store as it is constructed, at any instant. */
  function Begin(now: int): Sys {
    Sys(EMPTY_STORE, now)
  }

  /** In every run from a new store, an id with an unexpired tombstone is not stored, and the tombstones keep their cap. */
  lemma BuriedIsNeverStored(l: Limits, start: int, run: seq<Event>)
    requires Legal(l, Begin(start), run)
    ensures var end := After(l, Begin(start), run);
      && (forall id :: Buried(end.store, end.now, id) ==> id !in end.store.sessions)
      && (l.maxTombstones >= 1 ==> |end.store.tombstones| <= l.maxTombstones)
  {
    RunKeepsInv(l, Begin(start), run);
  }

  /** A held id that is revoked is buried at once, for the whole retention. */
  lemma RevokeBuries(l: Limits, s: Sys, id: string, order: seq<string>)
    requires Enumerates(order, s.store.tombstones.Keys) && l.retention > 0
    ensures var after := RevokedHere(s.store, l, id, s.now, order);
      && id !in after.sessions
      && (id in s.store.sessions ==> Buried(after, s.now, id) && after.tombstones[id] == s.now + l.retention)
  {
  }

  /** Another id is buried in a full set, and the scan picks this one's tombstone. */
  predicate Evicts(l: Limits, s: Sys, e: Event, id: string)
    requires Enabled(s, e)
  {
    && e.Revoke? && e.id != id && e.id in s.store.sessions
    && 0 < l.maxTombstones <= |s.store.tombstones|
    && Scan(s.store.tombstones, e.order) == id
  }

  /** A tombstone still ahead of its deadline outlives a step exactly when the step does not evict it. */
  lemma TombstoneOutlivesExactly(l: Limits, s: Sys, e: Event, id: string)
    requires Inv(l, s) && Enabled(s, e)
    requires id in s.store.tombstones && s.store.tombstones[id] > Next(l, s, e).now
    ensures var next := Next(l, s, e);
      && (Buried(next.store, next.now, id) <==> !Evicts(l, s, e, id))
      && (Buried(next.store, next.now, id) ==> next.store.tombstones[id] >= s.store.tombstones[id])
  {
  }

  /**
   The one evicted is a soonest one; except that the empty string, which this store takes for an id, can mislead
   the scan while its own tombstone is the only soonest.
   */
  lemma TombstoneGoesOnlyByCap(l: Limits, s: Sys, e: Event, id: string)
    requires Inv(l, s) && Enabled(s, e) && Evicts(l, s, e, id)
    ensures |s.store.tombstones| == l.maxTombstones
    ensures Soonest(s.store.tombstones, id) || OnlySoonest(s.store.tombstones, "")
  {
    if !OnlySoonest(s.store.tombstones, "") {
      assert s.store.tombstones.Keys != {};
      ScanIsRight(s.store.tombstones, e.order);
    }
  }

  predicate NeverEvicts(l: Limits, s: Sys, run: seq<Event>, id: string)
    requires Legal(l, s, run)
    decreases |run|
  {
    run == [] || (!Evicts(l, s, run[0], id) && NeverEvicts(l, Next(l, s, run[0]), run[1..], id))
  }

  lemma {:induction false} ClockGoesOn(l: Limits, s: Sys, run: seq<Event>)
    requires Legal(l, s, run)
    ensures s.now <= After(l, s, run).now
    decreases |run|
  {
    if run != [] {
      ClockGoesOn(l, Next(l, s, run[0]), run[1..]);
    }
  }

  lemma {:induction false} TombstoneOutlivesRun(l: Limits, s: Sys, run: seq<Event>, id: string)
    requires Inv(l, s) && Legal(l, s, run) && NeverEvicts(l, s, run, id)
    requires id in s.store.tombstones && s.store.tombstones[id] > After(l, s, run).now
    ensures Buried(After(l, s, run).store, After(l, s, run).now, id)
    decreases |run|
  {
    if run != [] {
      var next := Next(l, s, run[0]);
      StepKeepsInv(l, s, run[0]);
      ClockGoesOn(l, next, run[1..]);
      TombstoneOutlivesExactly(l, s, run[0], id);
      TombstoneOutlivesRun(l, next, run[1..], id);
    }
  }

  /**
   From a new store on, an id once buried stays buried, and out of the store, until its deadline, over every
   continuation that does not evict it.
   */
  lemma BuriedUntilTheDeadline(l: Limits, start: int, run: seq<Event>, more: seq<Event>, id: string)
    requires Legal(l, Begin(start), run) && Legal(l, After(l, Begin(start), run), more)
    requires var mid := After(l, Begin(start), run);
      && NeverEvicts(l, mid, more, id)
      && id in mid.store.tombstones && mid.store.tombstones[id] > After(l, mid, more).now
    ensures var end := After(l, After(l, Begin(start), run), more);
      Buried(end.store, end.now, id) && id !in end.store.sessions
  {
    RunKeepsInv(l, Begin(start), run);
    var mid := After(l, Begin(start), run);
    TombstoneOutlivesRun(l, mid, more, id);
    RunKeepsInv(l, mid, more);
  }

  // ---- How long a session is held ----

  /** The step stores the session, says how long it is good for, or revokes it. */
  predicate Decides(s: Sys, e: Event, id: string) {
    match e
    case Slide(key, _) => key == id
    case Add(key, _, seen) => key == id && !Buried(s.store, seen, id)
    case Revoke(key, _) => key == id
    case _ => false
  }

  predicate Undecided(l: Limits, s: Sys, run: seq<Event>, id: string)
    requires Legal(l, s, run)
    decreases |run|
  {
    run == [] || (!Decides(s, run[0], id) && Undecided(l, Next(l, s, run[0]), run[1..], id))
  }

  /** Held with this expiry, or gone because it is past it. */
  predicate HeldUntil(s: Sys, id: string, expiry: int) {
    if id in s.store.sessions then s.store.sessions[id] == expiry else expiry < s.now
  }

  lemma {:induction false} HeldOverRun(l: Limits, s: Sys, run: seq<Event>, id: string, expiry: int)
    requires Legal(l, s, run) && Undecided(l, s, run, id) && HeldUntil(s, id, expiry)
    ensures HeldUntil(After(l, s, run), id, expiry)
    decreases |run|
  {
    if run != [] {
      HeldOverRun(l, Next(l, s, run[0]), run[1..], id, expiry);
    }
  }

  /**
   An accepted session is held, with the expiry it was last given, as long as it is not past it: no sweep and no
   operation on another id takes it away. A revoked one is not held until it is added again.
   */
  lemma HeldUntilItExpires(l: Limits, s: Sys, e: Event, run: seq<Event>, id: string)
    requires Enabled(s, e) && Decides(s, e, id) && Legal(l, Next(l, s, e), run)
    requires Undecided(l, Next(l, s, e), run, id)
    ensures var end := After(l, Next(l, s, e), run);
      match e
      case Slide(_, expiry) => HeldUntil(end, id, expiry)
      case Add(_, expiry, _) => HeldUntil(end, id, expiry)
      case _ => id !in end.store.sessions
  {
    var next := Next(l, s, e);
    if e.Revoke? {
      GoneOverRun(l, next, run, id);
    } else {
      HeldOverRun(l, next, run, id, e.expiry);
    }
  }

  lemma {:induction false} GoneOverRun(l: Limits, s: Sys, run: seq<Event>, id: string)
    requires Legal(l, s, run) && Undecided(l, s, run, id) && id !in s.store.sessions
    ensures id !in After(l, s, run).store.sessions
    decreases |run|
  {
    if run != [] {
      GoneOverRun(l, Next(l, s, run[0]), run[1..], id);
    }
  }

  // ---- What a step takes away ----

  predicate Accepts(s: Sys, e: Event) {
    e.Add? && !Buried(s.store, e.seen, e.id)
  }

  /** Expired sessions are swept by the call made for it, and by an accepted session once the interval is over. */
  predicate SweepsSessions(l: Limits, s: Sys, e: Event) {
    e.Clear? || (Accepts(s, e) && e.seen - s.store.lastSweep >= l.sweepEvery)
  }

  /** The instant a step goes by for tombstones. */
  function Instant(s: Sys, e: Event): int {
    if e.Add? then e.seen else s.now
  }

  /** Expired tombstones are swept along, once their own interval is over, and by every revocation too. */
  predicate SweepsTombstones(l: Limits, s: Sys, e: Event) {
    (SweepsSessions(l, s, e) || e.Revoke?) && Instant(s, e) - s.store.lastTombstoneSweep >= l.tombstoneSweepEvery
  }

  /**
   A step takes away exactly what it revokes, what it evicts at the cap, and, when a sweep is due, everything that has
   expired; and it notes the instant of each sweep, by which the next one is due.
   */
  lemma GoesExactly(l: Limits, s: Sys, e: Event)
    requires Enabled(s, e)
    ensures var next := Next(l, s, e).store;
      && (forall id :: id in s.store.sessions && !Decides(s, e, id) ==>
            (id in next.sessions <==> !(SweepsSessions(l, s, e) && s.store.sessions[id] < s.now)))
      && (forall id :: id in s.store.tombstones && !(e.Revoke? && e.id == id) ==>
            (id in next.tombstones <==>
               !(SweepsTombstones(l, s, e) && s.store.tombstones[id] <= Instant(s, e)) && !Evicts(l, s, e, id)))
      && next.lastSweep == (if SweepsSessions(l, s, e) && e.Add? then e.seen else s.store.lastSweep)
      && next.lastTombstoneSweep ==
           (if SweepsTombstones(l, s, e) then Instant(s, e) else s.store.lastTombstoneSweep)
  {
  }
}
