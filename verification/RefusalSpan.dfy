/**
 How long an id stays refused once it is: until its deadline, unless a full set drops the record or the
 record is written again with a shorter deadline. Both are exact, and the second is reached.
 */
module RefusalSpans {
  import opened RevocationMemory
  import opened SessionMediator
  import opened RevocationRuns

  function TombstoneUntil(m: Memory, now: int, id: string): int {
    if Tombstoned(m, now, id) then m.tombstones[id] else now
  }

  function DebtUntil(m: Memory, now: int, id: string): int {
    if Owed(m, now, id) then m.pending[id].until else now
  }

  /** The instant an id refused now is refused up to; `now` itself when it is not refused. */
  function RefusedUntil(m: Memory, now: int, id: string): int {
    if TombstoneUntil(m, now, id) >= DebtUntil(m, now, id) then TombstoneUntil(m, now, id) else DebtUntil(m, now, id)
  }

  /** No refusal of the id from `now` on is lost. */
  ghost predicate Survive(before: Memory, after: Memory, now: int, id: string) {
    forall t {:trigger Revoked(after, t, id)} :: t >= now && Revoked(before, t, id) ==> Revoked(after, t, id)
  }

  lemma SurviveByDeadline(before: Memory, after: Memory, now: int, id: string)
    ensures Survive(before, after, now, id) <==> RefusedUntil(before, now, id) <= RefusedUntil(after, now, id)
  {
    var last := RefusedUntil(before, now, id) - 1;
    assert last >= now ==> Revoked(before, last, id);
    assert Revoked(after, last, id) || !Revoked(after, last, id);
  }

  // ---- What ends a refusal early ----

  /** A tombstone is to be added, the set is full, and the scan picks this one, which is all that refuses the id. */
  predicate TombstoneEvicted(m: Memory, cfg: Settings, now: int, id: string, order: seq<string>)
    requires Enumerates(order, m.tombstones.Keys)
  {
    && 0 < cfg.maxTombstones <= |m.tombstones|
    && Scan(m.tombstones, order) == id
    && TombstoneUntil(m, now, id) > DebtUntil(m, now, id)
  }

  predicate DebtEvicted(m: Memory, cfg: Settings, now: int, id: string, order: seq<string>)
    requires Enumerates(order, m.pending.Keys)
  {
    && cfg.maxPending <= |m.pending|
    && Scan(Deadlines(m.pending), order) == id
    && DebtUntil(m, now, id) > TombstoneUntil(m, now, id)
  }

  /** The id's own record is written with an earlier deadline than what refuses it now. */
  predicate CutShort(s: Sys, ev: Event, id: string)
    requires Enabled(s, ev)
  {
    match ev
    case RetryDone(other, ok, _) =>
      other == id && ok && Tombstoned(s.memory, s.now, id) && s.memory.tombstones[id] > s.inflight[id].until
    case DeleteDone(other, outcome, _) =>
      && other == id && outcome.Removed?
      && RefusedUntil(s.memory, s.now, id) > s.now && RefusedUntil(s.memory, s.now, id) > s.inflight[id].retain
    case _ => false
  }

  /** Another id's record takes the place of this one's. */
  predicate Evicted(s: Sys, cfg: Settings, ev: Event, id: string)
    requires Enabled(s, ev)
  {
    match ev
    case RetryDone(other, ok, order) => other != id && ok && TombstoneEvicted(s.memory, cfg, s.now, id, order)
    case DeleteDone(other, outcome, order) =>
      && other != id
      && (outcome.Removed? ==> TombstoneEvicted(s.memory, cfg, s.now, id, order))
      && (outcome.DeleteFailed? ==> other !in s.memory.pending && DebtEvicted(s.memory, cfg, s.now, id, order))
      && !outcome.NothingThere?
    case _ => false
  }

  lemma TombstoneForAnother(m: Memory, cfg: Settings, now: int, id: string, until: int, order: seq<string>, other: string)
    requires Enumerates(order, m.tombstones.Keys) && other != id
    ensures var after := RevocationMemory.RememberTombstone(m, cfg, other, until, order);
      RefusedUntil(m, now, id) <= RefusedUntil(after, now, id) <==> !TombstoneEvicted(m, cfg, now, id, order)
  {
  }

  lemma DebtForAnother(m: Memory, cfg: Settings, now: int, id: string, until: int, order: seq<string>, other: string)
    requires Enumerates(order, m.pending.Keys) && other != id
    ensures var after := RevocationMemory.RememberPending(m, cfg, other, until, now, order);
      RefusedUntil(m, now, id) <= RefusedUntil(after, now, id) <==>
        other in m.pending || !DebtEvicted(m, cfg, now, id, order)
  {
  }

  lemma SweepKeepsDeadline(m: Memory, cfg: Settings, now: int, id: string)
    ensures RefusedUntil(Sweep(m, cfg, now), now, id) == RefusedUntil(m, now, id)
  {
  }

  lemma DroppingAnotherDebt(m: Memory, now: int, id: string, other: string)
    requires other != id
    ensures RefusedUntil(m.(pending := m.pending - {other}), now, id) == RefusedUntil(m, now, id)
  {
  }

  lemma RetryDoneExactly(s: Sys, cfg: Settings, ev: Event, id: string)
    requires Inv(s, cfg) && Enabled(s, ev) && ev.RetryDone?
    ensures RefusedUntil(s.memory, s.now, id) <= RefusedUntil(Next(s, cfg, ev).memory, s.now, id) <==>
      !CutShort(s, ev, id) && !Evicted(s, cfg, ev, id)
  {
    var other := ev.id;
    var op := s.inflight[other];
    assert OpOk(s, other, op);
    if ev.ok {
      var paid := s.memory.(pending := s.memory.pending - {other});
      if other != id {
        DroppingAnotherDebt(s.memory, s.now, id, other);
        TombstoneForAnother(paid, cfg, s.now, id, op.until, ev.order, other);
      }
    }
  }

  lemma DeleteDoneExactly(s: Sys, cfg: Settings, ev: Event, id: string)
    requires Inv(s, cfg) && Enabled(s, ev) && ev.DeleteDone?
    ensures RefusedUntil(s.memory, s.now, id) <= RefusedUntil(Next(s, cfg, ev).memory, s.now, id) <==>
      !CutShort(s, ev, id) && !Evicted(s, cfg, ev, id)
  {
    var other, m, retain := ev.id, s.memory, s.inflight[ev.id].retain;
    SweepKeepsDeadline(NoteDelete(m, cfg, other, retain, s.now, ev.outcome, ev.order), cfg, s.now, id);
    if other != id {
      match ev.outcome {
        case Removed =>
          TombstoneForAnother(m, cfg, s.now, id, retain, ev.order, other);
          DroppingAnotherDebt(RevocationMemory.RememberTombstone(m, cfg, other, retain, ev.order), s.now, id, other);
        case DeleteFailed => DebtForAnother(m, cfg, s.now, id, retain, ev.order, other);
        case NothingThere =>
      }
    }
  }

  /**
   One step keeps every refusal of an id from then on, exactly when it neither writes the id's record with an
   earlier deadline nor drops it from a full set.
   */
  lemma RefusalsSurviveExactly(s: Sys, cfg: Settings, ev: Event, id: string)
    requires Inv(s, cfg) && Enabled(s, ev)
    ensures Survive(s.memory, Next(s, cfg, ev).memory, Next(s, cfg, ev).now, id) <==>
      !CutShort(s, ev, id) && !Evicted(s, cfg, ev, id)
  {
    var next := Next(s, cfg, ev);
    SurviveByDeadline(s.memory, next.memory, next.now, id);
    match ev {
      case RetryDone(_, _, _) => RetryDoneExactly(s, cfg, ev, id);
      case DeleteDone(_, _, _) => DeleteDoneExactly(s, cfg, ev, id);
      case DropExpired => SweepKeepsDeadline(s.memory, cfg, s.now, id);
      case _ => assert next.memory == s.memory;
    }
  }

  /** Eviction takes a record no other of its set expires before, and only from a set at its cap. */
  lemma EvictionTakesASoonest(s: Sys, cfg: Settings, ev: Event, id: string)
    requires Inv(s, cfg) && Enabled(s, ev) && Evicted(s, cfg, ev, id)
    ensures if ev.DeleteDone? && ev.outcome.DeleteFailed?
            then Soonest(Deadlines(s.memory.pending), id) && |s.memory.pending| >= cfg.maxPending
            else Soonest(s.memory.tombstones, id) && |s.memory.tombstones| == cfg.maxTombstones
  {
    if ev.DeleteDone? && ev.outcome.DeleteFailed? {
      ScanFindsSoonest(Deadlines(s.memory.pending), ev.order);
    } else {
      ScanFindsSoonest(s.memory.tombstones, ev.order);
    }
  }

  // ---- Whole runs ----

  /** No step of the run cuts the id's refusal short or evicts it. */
  predicate Undisturbed(s: Sys, cfg: Settings, run: seq<Event>, id: string)
    requires Legal(s, cfg, run)
    decreases |run|
  {
    run == [] || (
      && !CutShort(s, run[0], id) && !Evicted(s, cfg, run[0], id)
      && Undisturbed(Next(s, cfg, run[0]), cfg, run[1..], id))
  }

  lemma {:induction false} RefusalKept(s: Sys, cfg: Settings, run: seq<Event>, id: string, t: int)
    requires Inv(s, cfg) && Legal(s, cfg, run) && Undisturbed(s, cfg, run, id)
    requires Revoked(s.memory, t, id) && t >= After(s, cfg, run).now
    ensures Revoked(After(s, cfg, run).memory, t, id)
    decreases |run|
  {
    if run != [] {
      var next := Next(s, cfg, run[0]);
      StepKeepsInv(s, cfg, run[0]);
      ClockGoesOn(next, cfg, run[1..]);
      RefusalsSurviveExactly(s, cfg, run[0], id);
      RefusalKept(next, cfg, run[1..], id, t);
    }
  }

  lemma {:induction false} ClockGoesOn(s: Sys, cfg: Settings, run: seq<Event>)
    requires Legal(s, cfg, run)
    ensures s.now <= After(s, cfg, run).now
    decreases |run|
  {
    if run != [] {
      ClockGoesOn(Next(s, cfg, run[0]), cfg, run[1..]);
    }
  }

  /**
   Over whole runs: an id refused at some point stays refused, out of the cache and unused, for as long as its
   deadline is ahead, whatever happens meanwhile, unless a step cuts its refusal short or evicts it.
   */
  lemma RefusedUntilTheDeadline(cfg: Settings, start: int, run: seq<Event>, more: seq<Event>, id: string, t: int)
    requires Legal(Boot(start), cfg, run) && Legal(After(Boot(start), cfg, run), cfg, more)
    requires Undisturbed(After(Boot(start), cfg, run), cfg, more, id)
    requires Revoked(After(Boot(start), cfg, run).memory, t, id)
    requires t >= After(After(Boot(start), cfg, run), cfg, more).now
    ensures var end := After(After(Boot(start), cfg, run), cfg, more);
      && Revoked(end.memory, t, id) && id !in end.cache
      && forall ev {:trigger UsesSession(ev, id)} :: UsesSession(ev, id) ==> !Enabled(end, ev)
  {
    InitialInv(cfg, start);
    RunKeepsInv(Boot(start), cfg, run);
    var mid := After(Boot(start), cfg, run);
    RefusalKept(mid, cfg, more, id, t);
    RunKeepsInv(mid, cfg, more);
    var end := After(mid, cfg, more);
    assert Revoked(end.memory, end.now, id);
    assert id in end.inflight ==> OpOk(end, id, end.inflight[id]);
  }

  // ---- Reached ----

  const ROOMY := Settings(10, 10, 25, 1, 1, 60)

  lemma Then(s: Sys, cfg: Settings, ev: Event, rest: seq<Event>)
    requires Enabled(s, ev) && Legal(Next(s, cfg, ev), cfg, rest)
    ensures Legal(s, cfg, [ev] + rest) && After(s, cfg, [ev] + rest) == After(Next(s, cfg, ev), cfg, rest)
  {
    assert ([ev] + rest)[1..] == rest;
  }

  lemma {:induction false} ThenAll(s: Sys, cfg: Settings, run: seq<Event>, rest: seq<Event>)
    requires Legal(s, cfg, run) && Legal(After(s, cfg, run), cfg, rest)
    ensures Legal(s, cfg, run + rest) && After(s, cfg, run + rest) == After(After(s, cfg, run), cfg, rest)
    decreases |run|
  {
    if run == [] {
      assert run + rest == rest;
    } else {
      ThenAll(Next(s, cfg, run[0]), cfg, run[1..], rest);
      assert (run + rest)[1..] == run[1..] + rest;
    }
  }

  function Deleting(id: string, outcome: DeleteOutcome, order: seq<string>): seq<Event> {
    [Begin(id, DeleteReading), ReadRetention(id), DeleteDone(id, outcome, order)]
  }

  /** A delete with nothing to evict and no sweep due, run from an idle mediator. */
  lemma DeleteRuns(s: Sys, cfg: Settings, id: string, outcome: DeleteOutcome, order: seq<string>)
    requires ValidSessionId(id) && s.inflight == map[]
    requires Enumerates(order, if outcome.DeleteFailed? then s.memory.pending.Keys else s.memory.tombstones.Keys)
    ensures Legal(s, cfg, Deleting(id, outcome, order))
    ensures After(s, cfg, Deleting(id, outcome, order)) ==
      s.(cache := s.cache - {id},
         memory := SettleDelete(s.memory, cfg, id, RetentionFor(s.cache, cfg, s.now, id), s.now, outcome, order))
  {
    var a := Next(s, cfg, Begin(id, DeleteReading));
    var b := Next(a, cfg, ReadRetention(id));
    var c := Next(b, cfg, DeleteDone(id, outcome, order));
    assert c.inflight == map[];
    Then(b, cfg, DeleteDone(id, outcome, order), []);
    Then(a, cfg, ReadRetention(id), [DeleteDone(id, outcome, order)]);
    Then(s, cfg, Begin(id, DeleteReading), [ReadRetention(id), DeleteDone(id, outcome, order)]);
  }

  const CACHED_LONG := Sys(Memory(map[], map[], 0), map["x" := Cached(0, 1000, false)], 0, map[])
  const REMEMBERED_LONG := Sys(Memory(map["x" := 1001], map[], 0), map[], 0, map[])
  const OWED_TOO := Sys(Memory(map["x" := 1001], map["x" := Pending(25, 1, 0)], 0), map[], 0, map[])

  /** A session that expires late is written and cached. */
  lemma LongSessionIsCached() returns (run: seq<Event>)
    ensures Legal(Boot(0), ROOMY, run) && After(Boot(0), ROOMY, run) == CACHED_LONG
  {
    var done := WriteDone("x", true, Cached(0, 1000, false));
    var a := Next(Boot(0), ROOMY, Begin("x", WriteChecking));
    var b := Next(a, ROOMY, Check("x"));
    var c := Next(b, ROOMY, done);
    assert c.cache == CACHED_LONG.cache && c.inflight == map[];
    Then(b, ROOMY, done, []);
    Then(a, ROOMY, Check("x"), [done]);
    Then(Boot(0), ROOMY, Begin("x", WriteChecking), [Check("x"), done]);
    run := [Begin("x", WriteChecking)] + [Check("x"), done];
  }

  /** Then it is logged out: it is refused until after its expiry. */
  lemma LogoutOfALongSession() returns (run: seq<Event>)
    ensures Legal(Boot(0), ROOMY, run) && After(Boot(0), ROOMY, run) == REMEMBERED_LONG
  {
    var write := LongSessionIsCached();
    DeleteRuns(CACHED_LONG, ROOMY, "x", Removed, []);
    ThenAll(Boot(0), ROOMY, write, Deleting("x", Removed, []));
    run := write + Deleting("x", Removed, []);
    assert After(Boot(0), ROOMY, run).memory.tombstones == map["x" := 1001];
    assert After(Boot(0), ROOMY, run).cache == map[];
  }

  /** The logout is repeated while the store fails: a debt with the default retention stands beside the tombstone. */
  lemma RepeatedLogoutIsOwed() returns (run: seq<Event>)
    ensures Legal(REMEMBERED_LONG, ROOMY, run) && After(REMEMBERED_LONG, ROOMY, run) == OWED_TOO
  {
    run := Deleting("x", DeleteFailed, []);
    DeleteRuns(REMEMBERED_LONG, ROOMY, "x", DeleteFailed, []);
    assert After(REMEMBERED_LONG, ROOMY, run).cache == map[];
  }

  const RETRYING := Sys(OWED_TOO.memory, map[], 2, map["x" := RetryRetrying(25)])

  lemma DebtIsRetried() returns (run: seq<Event>)
    ensures Legal(OWED_TOO, ROOMY, run) && After(OWED_TOO, ROOMY, run) == RETRYING
  {
    var a := Next(OWED_TOO, ROOMY, Tick(2));
    var b := Next(a, ROOMY, Begin("x", RetryStarting));
    Then(b, ROOMY, LookPending("x"), []);
    Then(a, ROOMY, Begin("x", RetryStarting), [LookPending("x")]);
    Then(OWED_TOO, ROOMY, Tick(2), [Begin("x", RetryStarting), LookPending("x")]);
    run := [Tick(2)] + [Begin("x", RetryStarting), LookPending("x")];
    assert Next(b, ROOMY, LookPending("x")).inflight == map["x" := RetryRetrying(25)];
  }

  lemma RetryPays() returns (run: seq<Event>)
    ensures Legal(RETRYING, ROOMY, run)
    ensures var end := After(RETRYING, ROOMY, run); end.memory == Memory(map["x" := 25], map[], 0) && end.now == 2
  {
    var order := ["x"];
    assert Enumerates(order, RETRYING.memory.tombstones.Keys);
    var paid := Next(RETRYING, ROOMY, RetryDone("x", true, order));
    assert paid.memory.tombstones == map["x" := 25];
    assert paid.memory.pending == map[];
    Then(RETRYING, ROOMY, RetryDone("x", true, order), []);
    run := [RetryDone("x", true, order)] + [];
  }

  /** The next request retries the delete, and it works: the debt's deadline replaces the tombstone's. */
  lemma RetryCutsShort() returns (run: seq<Event>)
    ensures Legal(OWED_TOO, ROOMY, run)
    ensures var end := After(OWED_TOO, ROOMY, run); end.memory == Memory(map["x" := 25], map[], 0) && end.now == 2
  {
    var retried := DebtIsRetried();
    var paid := RetryPays();
    ThenAll(OWED_TOO, ROOMY, retried, paid);
    run := retried + paid;
  }

  /**
   The early end is reached, with one record in the set and no cap near: a session that was to be refused at
   500 no longer is, after its logout was repeated against a failing store and then retried.
   */
  lemma PaidRetryEndsARefusalEarly() returns (run: seq<Event>, more: seq<Event>)
    ensures Legal(Boot(0), ROOMY, run) && Legal(After(Boot(0), ROOMY, run), ROOMY, more)
    ensures var mid := After(Boot(0), ROOMY, run);
            var end := After(mid, ROOMY, more);
      Revoked(mid.memory, 500, "x") && end.now <= 500 && !Revoked(end.memory, 500, "x") && |mid.memory.tombstones| == 1
  {
    run := LogoutOfALongSession();
    var again := RepeatedLogoutIsOwed();
    var retried := RetryCutsShort();
    ThenAll(REMEMBERED_LONG, ROOMY, again, retried);
    more := again + retried;
  }

  /** So does a logout that fails first, which owes the id until after its expiry, and is repeated and works. */
  lemma RepeatedRemovalEndsARefusalEarly() returns (run: seq<Event>, more: seq<Event>)
    ensures Legal(Boot(0), ROOMY, run) && Legal(After(Boot(0), ROOMY, run), ROOMY, more)
    ensures var mid := After(Boot(0), ROOMY, run);
            var end := After(mid, ROOMY, more);
      Revoked(mid.memory, 500, "x") && end.now <= 500 && !Revoked(end.memory, 500, "x")
  {
    var write := LongSessionIsCached();
    DeleteRuns(CACHED_LONG, ROOMY, "x", DeleteFailed, []);
    ThenAll(Boot(0), ROOMY, write, Deleting("x", DeleteFailed, []));
    run := write + Deleting("x", DeleteFailed, []);
    more := Deleting("x", Removed, []);
    DeleteRuns(After(Boot(0), ROOMY, run), ROOMY, "x", Removed, []);
  }

  const STALE := Sys(Memory(map[], map["x" := Pending(25, 1, 0)], 0), map[], 30, map[])

  /** A first delete that fails, and time until its debt has expired, with no sweep in between. */
  lemma DebtExpiresUnswept() returns (run: seq<Event>)
    ensures Legal(Boot(0), ROOMY, run) && After(Boot(0), ROOMY, run) == STALE
  {
    DeleteRuns(Boot(0), ROOMY, "x", DeleteFailed, []);
    var failed := After(Boot(0), ROOMY, Deleting("x", DeleteFailed, []));
    Then(failed, ROOMY, Tick(30), []);
    ThenAll(Boot(0), ROOMY, Deleting("x", DeleteFailed, []), [Tick(30)] + []);
    run := Deleting("x", DeleteFailed, []) + ([Tick(30)] + []);
    assert failed.cache == map[] && failed.memory.pending == map["x" := Pending(25, 1, 0)];
  }

  /** A second delete that fails then is not remembered at all: the id is not refused a moment after. */
  lemma FailedDeleteIsForgotten() returns (run: seq<Event>, more: seq<Event>)
    ensures Legal(Boot(0), ROOMY, run) && Legal(After(Boot(0), ROOMY, run), ROOMY, more)
    ensures more == Deleting("x", DeleteFailed, ["x"])
    ensures var end := After(After(Boot(0), ROOMY, run), ROOMY, more); !Revoked(end.memory, end.now, "x")
  {
    run := DebtExpiresUnswept();
    more := Deleting("x", DeleteFailed, ["x"]);
    assert Enumerates(["x"], STALE.memory.pending.Keys);
    DeleteRuns(STALE, ROOMY, "x", DeleteFailed, ["x"]);
  }
}
