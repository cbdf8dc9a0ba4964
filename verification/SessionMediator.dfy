/**
 One process's mediator between live sessions and the store: its cache, its memory of revoked ids,
 and the operations it runs, one at a time for each id.

 The class has a method for every critical section and for every operation run on its own. The
 step machine interleaves the critical sections of operations on different ids: between two of
 them, at a store call or a lock, anything another id's operation does may happen. That at most
 one operation per id is in flight is what KeyedMutex proves.
 */
module SessionMediator {
  import opened Options
  import opened RevocationMemory

  /** A cached session, seen from here: which object it is, when it expires, and whether that is still to be written. */
  datatype Cached = Cached(handle: nat, expiry: int, unwritten: bool)

  type Cache = map<string, Cached>

  const SESSION_ID_MAX_LENGTH: nat := 128

  predicate ValidSessionId(id: string) {
    id != "" && |id| <= SESSION_ID_MAX_LENGTH
  }

  /** How long to remember what is about to be done to `id`: past its own expiry, and never less than the default. */
  function RetentionFor(cache: Cache, cfg: Settings, now: int, id: string): (until: int)
    ensures until >= now + cfg.retention && (id in cache ==> until >= cache[id].expiry + cfg.margin)
    ensures until == now + cfg.retention || (id in cache && until == cache[id].expiry + cfg.margin)
  {
    var fallback := now + cfg.retention;
    if id in cache && cache[id].expiry + cfg.margin > fallback then cache[id].expiry + cfg.margin else fallback
  }

  function Unexpired(cache: Cache, now: int): Cache {
    map id | id in cache && cache[id].expiry >= now :: cache[id]
  }

  /** The session served for a row: the cached object when there is one, with the row's expiry unless it has its own to write. */
  function ServedFor(cache: Cache, id: string, row: Cached): (served: Cached)
    ensures id !in cache ==> served == row
    ensures id in cache ==> served.handle == cache[id].handle && served.unwritten == cache[id].unwritten
    ensures id in cache ==> served.expiry == (if cache[id].unwritten then cache[id].expiry else row.expiry)
  {
    if id !in cache then row
    else if cache[id].unwritten then cache[id]
    else cache[id].(expiry := row.expiry)
  }

  datatype Finding = FindFailed | NoRow | Row(row: Cached)
  datatype Answer = Refused | StoreError | Nobody | Served(session: Cached)

  class DbSessionMediator {
    const cfg: Settings
    var cache: Cache
    var tombstones: map<string, int>
    var pending: map<string, Pending>
    var lastTombstoneSweep: int

    function Remembers(): Memory
      reads this
    {
      Memory(tombstones, pending, lastTombstoneSweep)
    }

    constructor (cfg: Settings)
      ensures this.cfg == cfg && cache == map[] && Remembers() == Memory(map[], map[], 0)
    {
      this.cfg, cache, tombstones, pending, lastTombstoneSweep := cfg, map[], map[], map[], 0;
    }

    method IsRevoked(id: string, now: int) returns (revoked: bool)
      ensures revoked == Revoked(Remembers(), now, id)
    {
      if id in tombstones && tombstones[id] > now {
        return true;
      }
      return id in pending && pending[id].until > now;
    }

    method RevocationPending(id: string, now: int) returns (owed: bool)
      ensures owed == Owed(Remembers(), now, id)
    {
      return id in pending && pending[id].until > now;
    }

    method RevocationRetentionFor(id: string, now: int) returns (until: int)
      ensures until == RetentionFor(cache, cfg, now, id)
    {
      var fallback := now + cfg.retention;
      if id !in cache {
        return fallback;
      }
      var expiry := cache[id].expiry + cfg.margin;
      return if expiry > fallback then expiry else fallback;
    }

    method EvictSoonestPending(order: seq<string>)
      requires Enumerates(order, pending.Keys)
      requires "" !in pending
      modifies this`pending
      ensures pending == EvictPending(old(pending), order)
    {
      ghost var deadlines := Deadlines(pending);
      var soonestKey, soonest := "", 0;
      for i := 0 to |order|
        invariant soonestKey == Scan(deadlines, order[..i])
        invariant soonestKey != "" ==> soonestKey in pending && soonest == pending[soonestKey].until
      {
        var key := order[i];
        assert order[..i + 1][..i] == order[..i];
        if soonestKey == "" || pending[key].until < soonest {
          soonestKey, soonest := key, pending[key].until;
        }
      }
      assert order[..|order|] == order;
      if soonestKey != "" {
        pending := pending - {soonestKey};
      }
    }

    method RememberTombstone(id: string, until: int, order: seq<string>)
      requires Enumerates(order, tombstones.Keys)
      modifies this`tombstones
      ensures Remembers() == RevocationMemory.RememberTombstone(old(Remembers()), cfg, id, until, order)
    {
      tombstones := EvictOldest(tombstones, cfg.maxTombstones, order);
      tombstones := tombstones[id := until];
    }

    method RememberPending(id: string, until: int, now: int, order: seq<string>)
      requires Enumerates(order, pending.Keys) && "" !in pending
      modifies this`pending
      ensures Remembers() == RevocationMemory.RememberPending(old(Remembers()), cfg, id, until, now, order)
    {
      if id in pending {
        pending := pending[id := pending[id].(attempts := pending[id].attempts + 1, lastTry := now)];
        return;
      }
      if |pending| >= cfg.maxPending {
        EvictSoonestPending(order);
      }
      pending := pending[id := Pending(until, 1, now)];
    }

    method SweepTombstones(now: int)
      modifies this`tombstones, this`pending, this`lastTombstoneSweep
      ensures Remembers() == Sweep(old(Remembers()), cfg, now)
      ensures now - old(lastTombstoneSweep) < cfg.sweepEvery ==> Remembers() == old(Remembers())
      ensures now - old(lastTombstoneSweep) >= cfg.sweepEvery ==>
                && lastTombstoneSweep == now
                && (forall id :: id in tombstones <==> id in old(tombstones) && old(tombstones)[id] > now)
                && (forall id :: id in pending <==> id in old(pending) && old(pending)[id].until > now)
    {
      if now - lastTombstoneSweep < cfg.sweepEvery {
        return;
      }
      lastTombstoneSweep := now;
      ghost var buried, owed := tombstones, pending;

      var todo := tombstones.Keys;
      while todo != {}
        invariant todo <= tombstones.Keys && pending == owed && lastTombstoneSweep == now
        invariant tombstones == map id | id in buried && (id in todo || buried[id] > now) :: buried[id]
        decreases todo
      {
        var id :| id in todo;
        todo := todo - {id};
        if tombstones[id] <= now {
          tombstones := tombstones - {id};
        }
      }
      assert tombstones == LiveTombstones(buried, now);

      todo := pending.Keys;
      while todo != {}
        invariant todo <= pending.Keys && lastTombstoneSweep == now
        invariant tombstones == LiveTombstones(buried, now)
        invariant pending == map id | id in owed && (id in todo || owed[id].until > now) :: owed[id]
        decreases todo
      {
        var id :| id in todo;
        todo := todo - {id};
        if pending[id].until <= now {
          pending := pending - {id};
        }
      }
      assert pending == LivePending(owed, now);
    }

    /** The critical section that ends a delete: the cache forgets the id whatever the store said. */
    method FinishDelete(id: string, retain: int, now: int, outcome: DeleteOutcome, order: seq<string>)
      requires Enumerates(order, if outcome.DeleteFailed? then pending.Keys else tombstones.Keys)
      requires "" !in pending
      modifies this
      ensures cache == old(cache) - {id}
      ensures Remembers() == SettleDelete(old(Remembers()), cfg, id, retain, now, outcome, order)
    {
      cache := cache - {id};
      match outcome {
        case DeleteFailed => RememberPending(id, retain, now, order);
        case Removed =>
          RememberTombstone(id, retain, order);
          pending := pending - {id};
        case NothingThere =>
      }
      SweepTombstones(now);
    }

    /** The critical section that ends a retried delete. */
    method FinishRetry(id: string, until: int, now: int, ok: bool, order: seq<string>)
      requires Enumerates(order, tombstones.Keys)
      modifies this`tombstones, this`pending
      ensures Remembers() == if ok then SettleRetry(old(Remembers()), cfg, id, until, order)
                             else FailRetry(old(Remembers()), id, now)
    {
      if !ok {
        if id in pending {
          pending := pending[id := pending[id].(attempts := pending[id].attempts + 1, lastTry := now)];
        }
        return;
      }
      pending := pending - {id};
      assert Remembers() == old(Remembers()).(pending := old(pending) - {id});
      RememberTombstone(id, until, order);
    }

    method CacheRow(id: string, row: Cached) returns (served: Cached)
      modifies this`cache
      ensures served == ServedFor(old(cache), id, row) && cache == old(cache)[id := served]
    {
      if id !in cache {
        cache := cache[id := row];
        return row;
      }
      served := cache[id];
      if !served.unwritten {
        served := served.(expiry := row.expiry);
      }
      cache := cache[id := served];
    }

    /** Retries a revocation still owed, at most once every `retryAfter`. */
    method RetryPendingRevocation(id: string, now: int, ok: bool, order: seq<string>)
      requires Enumerates(order, tombstones.Keys)
      modifies this`tombstones, this`pending
      ensures Remembers() == AfterRetry(old(Remembers()), cfg, id, now, ok, order)
      ensures !(id in old(pending) && now - old(pending)[id].lastTry >= cfg.retryAfter) ==>
                Remembers() == old(Remembers())
      ensures id in old(pending) && now - old(pending)[id].lastTry >= cfg.retryAfter ==>
                if ok then id !in pending && id in tombstones && tombstones[id] == old(pending)[id].until
                else tombstones == old(tombstones) && id in pending
                     && pending[id].until == old(pending)[id].until && pending[id].lastTry == now
    {
      if id !in pending || now - pending[id].lastTry < cfg.retryAfter {
        return;
      }
      FinishRetry(id, pending[id].until, now, ok, order);
    }

    /**
     GetSession run on its own. `retryOk` and `found` are what the store answers to the retried
     delete and to the lookup, when they are made.
     */
    method GetSession(id: string, now: int, retryOk: bool, found: Finding, order: seq<string>) returns (answer: Answer)
      requires Enumerates(order, tombstones.Keys)
      modifies this
      ensures !ValidSessionId(id) ==> answer == Nobody && Remembers() == old(Remembers()) && cache == old(cache)
      ensures ValidSessionId(id) ==>
                && Remembers() == AfterRetry(old(Remembers()), cfg, id, now, retryOk, order)
                && (answer.Refused? <==> Revoked(Remembers(), now, id))
                && (answer.Refused? || found.FindFailed? ==> cache == old(cache))
                && (!answer.Refused? ==>
                      match found
                      case FindFailed => answer == StoreError
                      case NoRow => answer == Nobody && cache == old(cache) - {id}
                      case Row(row) =>
                        && answer == Served(ServedFor(old(cache), id, row))
                        && cache == old(cache)[id := answer.session])
    {
      if !ValidSessionId(id) {
        return Nobody;
      }
      RetryPendingRevocation(id, now, retryOk, order);
      var revoked := IsRevoked(id, now);
      if revoked {
        return Refused;
      }
      match found {
        case FindFailed => return StoreError;
        case NoRow =>
          cache := cache - {id};
          return Nobody;
        case Row(row) =>
          var session := CacheRow(id, row);
          return Served(session);
      }
    }

    /** UpdateSession run on its own: `landed` is what the write answered, when it was made. */
    method UpdateSession(id: string, session: Cached, now: int, landed: bool) returns (written: bool, noted: bool)
      modifies this`cache
      ensures written <==> 0 < |id| <= 128 && !Revoked(Remembers(), now, id) && landed
      ensures noted <==> !written
      ensures cache == if written then old(cache)[id := session] else old(cache)
    {
      if !ValidSessionId(id) {
        return false, true;
      }
      written := WriteSession(id, session, now, landed);
      noted := !written;
    }

    /** CreateSession differs in one thing: of an invalid id no failure is noted on the session. */
    method CreateSession(id: string, session: Cached, now: int, landed: bool) returns (written: bool, noted: bool)
      modifies this`cache
      ensures written <==> ValidSessionId(id) && !Revoked(Remembers(), now, id) && landed
      ensures noted <==> ValidSessionId(id) && !written
      ensures cache == if written then old(cache)[id := session] else old(cache)
    {
      if !ValidSessionId(id) {
        return false, false;
      }
      written := WriteSession(id, session, now, landed);
      noted := !written;
    }

    method WriteSession(id: string, session: Cached, now: int, landed: bool) returns (written: bool)
      modifies this`cache
      ensures written <==> !Revoked(Remembers(), now, id) && landed
      ensures cache == if written then old(cache)[id := session] else old(cache)
    {
      var revoked := IsRevoked(id, now);
      if revoked || !landed {
        return false;
      }
      cache := cache[id := session];
      return true;
    }

    method DeleteSession(id: string, asked: int, now: int, outcome: DeleteOutcome, order: seq<string>)
      returns (deleted: bool, failed: bool)
      requires Enumerates(order, if outcome.DeleteFailed? then pending.Keys else tombstones.Keys)
      requires "" !in pending
      modifies this
      ensures deleted <==> ValidSessionId(id) && outcome.Removed?
      ensures failed <==> ValidSessionId(id) && outcome.DeleteFailed?
      ensures !ValidSessionId(id) ==> cache == old(cache) && Remembers() == old(Remembers())
      ensures ValidSessionId(id) ==>
                && cache == old(cache) - {id}
                && Remembers() == SettleDelete(old(Remembers()), cfg, id,
                     RetentionFor(old(cache), cfg, asked, id), now, outcome, order)
    {
      if !ValidSessionId(id) {
        return false, false;
      }
      var retain := RevocationRetentionFor(id, asked);
      FinishDelete(id, retain, now, outcome, order);
      return outcome.Removed?, outcome.DeleteFailed?;
    }

    /** The critical section of ClearExpired. */
    method DropExpired(now: int)
      modifies this
      ensures cache == Unexpired(old(cache), now)
      ensures forall id :: id in cache <==> id in old(cache) && old(cache)[id].expiry >= now
      ensures Remembers() == Sweep(old(Remembers()), cfg, now)
    {
      ghost var before := cache;
      var todo := cache.Keys;
      while todo != {}
        invariant todo <= cache.Keys && Remembers() == old(Remembers())
        invariant cache == map id | id in before && (id in todo || before[id].expiry >= now) :: before[id]
        decreases todo
      {
        var id :| id in todo;
        todo := todo - {id};
        if cache[id].expiry < now {
          cache := cache - {id};
        }
      }
      SweepTombstones(now);
    }

    /** Retries everything still owed; `ok` is what the store answers to each id's delete. */
    method RetryPendingRevocations(now: int, ok: string -> bool) returns (stillOwed: nat)
      modifies this`tombstones, this`pending
      ensures pending == Retried(old(pending), cfg, now, ok, old(pending).Keys)
      ensures stillOwed == |OwedIds(pending, now)|
      ensures OnlyPaidBuried(old(tombstones), tombstones, old(pending), cfg, now, ok, old(pending).Keys)
    {
      ghost var start := Remembers();
      ghost var all := pending.Keys;
      var ids := pending.Keys;
      stillOwed := 0;
      while ids != {}
        invariant ids <= all
        invariant HalfRetried(start, Remembers(), cfg, now, ok, all - ids, stillOwed)
        decreases ids
      {
        var id :| id in ids;
        ghost var before, done := Remembers(), all - ids;
        DebtIsUntouched(start, before, cfg, now, ok, done, stillOwed, id);
        var owes := RetryOne(id, now, ok(id));
        OneMoreRetried(start, before, Remembers(), cfg, now, ok, done, stillOwed, id, owes);
        if owes {
          stillOwed := stillOwed + 1;
        }
        ids := ids - {id};
        assert all - ids == done + {id};
      }
      assert all - ids == all;
      assert OwedAmong(pending, now, all) == OwedIds(pending, now);
    }

    method RetryOne(id: string, now: int, ok: bool) returns (owes: bool)
      requires id in pending
      modifies this`tombstones, this`pending
      ensures pending == AfterOne(old(pending), cfg, now, ok, id)
      ensures Buries(old(tombstones), tombstones, id, DueAt(old(pending)[id], cfg, now) && ok, old(pending)[id].until)
      ensures owes <==> id in pending && pending[id].until > now
    {
      var order := Listing(tombstones.Keys);
      OnlyThisTombstone(Remembers(), cfg, id, now, ok, order);
      RetryPendingRevocation(id, now, ok, order);
      owes := RevocationPending(id, now);
    }

    /** The whole sweep: a delete that failed or a revocation still owed is reported, and both passes are made anyway. */
    method ClearExpired(deleteFailed: bool, now: int, ok: string -> bool) returns (failed: bool)
      modifies this
      ensures cache == Unexpired(old(cache), now)
      ensures var swept := Sweep(old(Remembers()), cfg, now);
        && pending == Retried(swept.pending, cfg, now, ok, swept.pending.Keys)
        && (failed <==> deleteFailed || OwedIds(pending, now) != {})
    {
      DropExpired(now);
      var stillOwed := RetryPendingRevocations(now, ok);
      failed := deleteFailed || stillOwed > 0;
    }
  }

  predicate DueAt(p: Pending, cfg: Settings, now: int) {
    now - p.lastTry >= cfg.retryAfter
  }

  /** The debts after the retries of `ids`: a due one is gone if its delete worked, and counted up if not. */
  function Retried(pending: map<string, Pending>, cfg: Settings, now: int, ok: string -> bool, ids: set<string>)
    : map<string, Pending>
  {
    map id | id in pending && !(id in ids && DueAt(pending[id], cfg, now) && ok(id)) ::
      if id in ids && DueAt(pending[id], cfg, now)
      then pending[id].(attempts := pending[id].attempts + 1, lastTry := now) else pending[id]
  }

  predicate PaidBy(pending: map<string, Pending>, cfg: Settings, now: int, ok: string -> bool, id: string) {
    id in pending && DueAt(pending[id], cfg, now) && ok(id)
  }

  function OwedAmong(pending: map<string, Pending>, now: int, ids: set<string>): set<string> {
    set id | id in ids && id in pending && pending[id].until > now
  }

  function OwedIds(pending: map<string, Pending>, now: int): set<string> {
    OwedAmong(pending, now, pending.Keys)
  }

  method Listing(keys: set<string>) returns (order: seq<string>)
    ensures Enumerates(order, keys)
  {
    order := [];
    var left := keys;
    while left != {}
      invariant left <= keys
      invariant forall key :: key in order <==> key in keys && key !in left
      decreases |left|
    {
      var key :| key in left;
      order := order + [key];
      left := left - {key};
    }
  }

  function AfterOne(pending: map<string, Pending>, cfg: Settings, now: int, ok: bool, id: string): map<string, Pending>
    requires id in pending
  {
    if !DueAt(pending[id], cfg, now) then pending
    else if ok then pending - {id}
    else pending[id := pending[id].(attempts := pending[id].attempts + 1, lastTry := now)]
  }

  /** The retries of `done` have been made, and `stillOwed` of those are owed. */
  ghost predicate HalfRetried(start: Memory, m: Memory, cfg: Settings, now: int, ok: string -> bool,
                              done: set<string>, stillOwed: nat)
  {
    && m.pending == Retried(start.pending, cfg, now, ok, done)
    && stillOwed == |OwedAmong(m.pending, now, done)|
    && OnlyPaidBuried(start.tombstones, m.tombstones, start.pending, cfg, now, ok, done)
  }

  lemma DebtIsUntouched(start: Memory, m: Memory, cfg: Settings, now: int, ok: string -> bool,
                        done: set<string>, stillOwed: nat, id: string)
    requires HalfRetried(start, m, cfg, now, ok, done, stillOwed) && id in start.pending && id !in done
    ensures id in m.pending && m.pending[id] == start.pending[id]
  {
  }

  lemma OneMoreRetried(start: Memory, before: Memory, m: Memory, cfg: Settings, now: int, ok: string -> bool,
                       done: set<string>, stillOwed: nat, id: string, owes: bool)
    requires HalfRetried(start, before, cfg, now, ok, done, stillOwed) && id in start.pending && id !in done
    requires id in before.pending && before.pending[id] == start.pending[id]
    requires m.pending == AfterOne(before.pending, cfg, now, ok(id), id)
    requires Buries(before.tombstones, m.tombstones, id, PaidBy(start.pending, cfg, now, ok, id), start.pending[id].until)
    requires owes <==> id in m.pending && m.pending[id].until > now
    ensures HalfRetried(start, m, cfg, now, ok, done + {id}, stillOwed + if owes then 1 else 0)
  {
    RetriedOneMore(start.pending, cfg, now, ok, done, id);
    OwedOneMore(before.pending, m.pending, now, done, id);
    BuriedOneMore(start.tombstones, before.tombstones, m.tombstones, start.pending, cfg, now, ok, done, id);
  }

  lemma RetriedOneMore(owed: map<string, Pending>, cfg: Settings, now: int, ok: string -> bool, done: set<string>, id: string)
    requires id in owed && id !in done
    ensures var m := Retried(owed, cfg, now, ok, done);
      && id in m && m[id] == owed[id]
      && Retried(owed, cfg, now, ok, done + {id}) ==
           AfterOne(m, cfg, now, ok(id), id)
  {
  }

  lemma OwedOneMore(before: map<string, Pending>, after: map<string, Pending>, now: int, done: set<string>, id: string)
    requires id !in done
    requires forall other :: other in done ==> (other in before <==> other in after)
    requires forall other :: other in done && other in before ==> before[other] == after[other]
    ensures |OwedAmong(after, now, done + {id})|
         == |OwedAmong(before, now, done)| + if id in after && after[id].until > now then 1 else 0
  {
    var owed := OwedAmong(before, now, done);
    assert OwedAmong(after, now, done + {id}) == if id in after && after[id].until > now then owed + {id} else owed;
  }

  /** At most one tombstone is new: the id's, with this deadline, if it was paid. */
  ghost predicate Buries(before: map<string, int>, after: map<string, int>, id: string, paid: bool, until: int) {
    forall other :: other in after ==>
      if other == id && paid then after[other] == until
      else other in before && after[other] == before[other]
  }

  ghost predicate OnlyPaidBuried(before: map<string, int>, after: map<string, int>, owed: map<string, Pending>,
                                 cfg: Settings, now: int, ok: string -> bool, ids: set<string>)
  {
    forall id :: id in after ==>
      if id in ids && PaidBy(owed, cfg, now, ok, id) then after[id] == owed[id].until
      else id in before && after[id] == before[id]
  }

  lemma BuriedOneMore(before: map<string, int>, mid: map<string, int>, after: map<string, int>, owed: map<string, Pending>,
                      cfg: Settings, now: int, ok: string -> bool, done: set<string>, id: string)
    requires OnlyPaidBuried(before, mid, owed, cfg, now, ok, done) && id in owed && id !in done
    requires Buries(mid, after, id, PaidBy(owed, cfg, now, ok, id), owed[id].until)
    ensures OnlyPaidBuried(before, after, owed, cfg, now, ok, done + {id})
  {
  }

  lemma OnlyThisTombstone(m: Memory, cfg: Settings, id: string, now: int, ok: bool, order: seq<string>)
    requires Enumerates(order, m.tombstones.Keys)
    ensures id in m.pending ==>
      Buries(m.tombstones, AfterRetry(m, cfg, id, now, ok, order).tombstones, id, Due(m, cfg, now, id) && ok, m.pending[id].until)
  {
  }

  function AfterRetry(m: Memory, cfg: Settings, id: string, now: int, ok: bool, order: seq<string>): Memory
    requires Enumerates(order, m.tombstones.Keys)
  {
    if !Due(m, cfg, now, id) then m
    else if ok then SettleRetry(m, cfg, id, m.pending[id].until, order)
    else FailRetry(m, id, now)
  }
}
