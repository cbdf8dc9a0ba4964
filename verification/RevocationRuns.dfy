/**
 Every interleaving of one mediator's operations.

 An operation holds its id's lock from its first step to its last, so `inflight` has at most one
 entry per id. Operations on different ids interleave at every lock and store call, time passes
 between any two steps, and the sweep and the cache purge hold no id's lock at all.
 */
module RevocationRuns {
  import opened Options
  import opened RevocationMemory
  import opened SessionMediator

  datatype Op =
    | GetStarting | GetRetrying(until: int) | GetChecking | GetFinding
    | WriteChecking | Writing
    | DeleteReading | Deleting(retain: int)
    | RetryStarting | RetryRetrying(until: int)

  datatype Sys = Sys(memory: Memory, cache: Cache, now: int, inflight: map<string, Op>)

  datatype Event =
    | Begin(id: string, op: Op)
    | LookPending(id: string)
    | RetryDone(id: string, ok: bool, order: seq<string>)
    | Check(id: string)
    | Find(id: string, finding: Finding)
    | StoreWrite(id: string)
    | WriteDone(id: string, landed: bool, session: Cached)
    | ReadRetention(id: string)
    | DeleteDone(id: string, outcome: DeleteOutcome, order: seq<string>)
    | DropExpired
    | ClearCache
    | Slide(id: string, expiry: int, unwritten: bool)
    | Tick(later: nat)

  predicate Starts(op: Op) {
    op.GetStarting? || op.WriteChecking? || op.DeleteReading? || op.RetryStarting?
  }

  predicate In(s: Sys, id: string) {
    id in s.inflight
  }

  predicate Enabled(s: Sys, ev: Event) {
    match ev
    case Begin(id, op) => !In(s, id) && ValidSessionId(id) && Starts(op)
    case LookPending(id) => In(s, id) && (s.inflight[id].GetStarting? || s.inflight[id].RetryStarting?)
    case RetryDone(id, ok, order) =>
      && In(s, id) && (s.inflight[id].GetRetrying? || s.inflight[id].RetryRetrying?)
      && Enumerates(order, s.memory.tombstones.Keys)
    case Check(id) => In(s, id) && (s.inflight[id].GetChecking? || s.inflight[id].WriteChecking?)
    case Find(id, _) => In(s, id) && s.inflight[id].GetFinding?
    case StoreWrite(id) => In(s, id) && s.inflight[id].Writing?
    case WriteDone(id, _, _) => In(s, id) && s.inflight[id].Writing?
    case ReadRetention(id) => In(s, id) && s.inflight[id].DeleteReading?
    case DeleteDone(id, outcome, order) =>
      && In(s, id) && s.inflight[id].Deleting?
      && Enumerates(order, if outcome.DeleteFailed? then s.memory.pending.Keys else s.memory.tombstones.Keys)
    case DropExpired => true
    case ClearCache => true
    case Slide(id, _, _) => id in s.cache
    case Tick(_) => true
  }

  function Goes(s: Sys, id: string, op: Op): Sys {
    s.(inflight := s.inflight[id := op])
  }

  function Finished(s: Sys, id: string): Sys {
    s.(inflight := s.inflight - {id})
  }

  function Next(s: Sys, cfg: Settings, ev: Event): Sys
    requires Enabled(s, ev)
  {
    match ev
    case Begin(id, op) => Goes(s, id, op)
    case LookPending(id) =>
      var getting := s.inflight[id].GetStarting?;
      if Due(s.memory, cfg, s.now, id) then
        var until := s.memory.pending[id].until;
        Goes(s, id, if getting then GetRetrying(until) else RetryRetrying(until))
      else if getting then Goes(s, id, GetChecking)
      else Finished(s, id)
    case RetryDone(id, ok, order) =>
      var memory := if ok then SettleRetry(s.memory, cfg, id, s.inflight[id].until, order)
                    else FailRetry(s.memory, id, s.now);
      if s.inflight[id].GetRetrying? then Goes(s.(memory := memory), id, GetChecking)
      else Finished(s.(memory := memory), id)
    case Check(id) =>
      if Revoked(s.memory, s.now, id) then Finished(s, id)
      else Goes(s, id, if s.inflight[id].GetChecking? then GetFinding else Writing)
    case Find(id, finding) =>
      var cache := match finding
        case FindFailed => s.cache
        case NoRow => s.cache - {id}
        case Row(row) => s.cache[id := ServedFor(s.cache, id, row)];
      Finished(s.(cache := cache), id)
    case StoreWrite(id) => s
    case WriteDone(id, landed, session) =>
      Finished(if landed then s.(cache := s.cache[id := session]) else s, id)
    case ReadRetention(id) => Goes(s, id, Deleting(RetentionFor(s.cache, cfg, s.now, id)))
    case DeleteDone(id, outcome, order) =>
      Finished(s.(cache := s.cache - {id},
                  memory := SettleDelete(s.memory, cfg, id, s.inflight[id].retain, s.now, outcome, order)), id)
    case DropExpired => s.(cache := Unexpired(s.cache, s.now), memory := Sweep(s.memory, cfg, s.now))
    case ClearCache => s.(cache := map[])
    case Slide(id, expiry, unwritten) =>
      s.(cache := s.cache[id := s.cache[id].(expiry := expiry, unwritten := unwritten)])
    case Tick(later) => s.(now := s.now + later)
  }

  // ---- The invariant ----

  /** What an id's own operation may rely on while it is between two steps. */
  predicate OpOk(s: Sys, id: string, op: Op) {
    && ValidSessionId(id)
    && (op.GetFinding? || op.Writing? ==> !Revoked(s.memory, s.now, id))
    && (op.GetRetrying? || op.RetryRetrying? ==>
          && (op.until > s.now ==> id !in s.cache)
          && (id in s.memory.pending ==> s.memory.pending[id].until == op.until))
  }

  ghost predicate Inv(s: Sys, cfg: Settings) {
    && WithinCaps(s.memory, cfg) && NamesOnly(s.memory)
    && (forall id :: Revoked(s.memory, s.now, id) ==> id !in s.cache)
    && (forall id :: id in s.inflight ==> OpOk(s, id, s.inflight[id]))
  }

  lemma InitialInv(cfg: Settings, now: int)
    ensures Inv(Sys(Memory(map[], map[], 0), map[], now, map[]), cfg)
  {
  }

  /** One id's records changed, and every other id's are as they were or gone. */
  ghost predicate OnlyAbout(before: Memory, after: Memory, id: string) {
    && (forall other :: other != id && other in after.tombstones ==>
          other in before.tombstones && after.tombstones[other] == before.tombstones[other])
    && (forall other :: other != id && other in after.pending ==>
          other in before.pending && after.pending[other].until == before.pending[other].until)
  }

  /** A step that ends one id's operation, changes its records only, and leaves it out of the cache if refused. */
  lemma SettlingKeeps(s: Sys, cfg: Settings, next: Sys, id: string)
    requires Inv(s, cfg) && next.now == s.now
    requires OnlyAbout(s.memory, next.memory, id) && WithinCaps(next.memory, cfg) && NamesOnly(next.memory)
    requires next.cache == s.cache || next.cache == s.cache - {id}
    requires Revoked(next.memory, s.now, id) ==> id !in next.cache
    requires next.inflight - {id} == s.inflight - {id}
    requires id in next.inflight ==> OpOk(next, id, next.inflight[id])
    ensures Inv(next, cfg)
  {
    forall other | other in next.inflight ensures OpOk(next, other, next.inflight[other]) {
      if other != id {
        assert other in next.inflight - {id} && other in s.inflight - {id};
        assert (next.inflight - {id})[other] == (s.inflight - {id})[other];
        assert OpOk(s, other, s.inflight[other]);
      }
    }
    forall other | Revoked(next.memory, next.now, other) ensures other !in next.cache {
      assert other != id ==> Revoked(s.memory, s.now, other);
    }
  }

  lemma RetryMemory(m: Memory, cfg: Settings, id: string, until: int, now: int, ok: bool, order: seq<string>)
    requires WithinCaps(m, cfg) && NamesOnly(m) && id != "" && Enumerates(order, m.tombstones.Keys)
    requires id in m.pending ==> m.pending[id].until == until
    ensures var after := if ok then SettleRetry(m, cfg, id, until, order) else FailRetry(m, id, now);
            && OnlyAbout(m, after, id) && WithinCaps(after, cfg) && NamesOnly(after)
            && (ok ==> id !in after.pending && id in after.tombstones && after.tombstones[id] == until)
            && (!ok ==> after.tombstones == m.tombstones && (id in after.pending <==> id in m.pending)
                        && (id in after.pending ==> after.pending[id].until == until))
  {
    if ok {
      PaidKeepsCaps(m, cfg, id);
      TombstoneKeepsCaps(m.(pending := m.pending - {id}), cfg, id, until, order);
    } else if id in m.pending {
      SizeAfterUpdate(m.pending, id, m.pending[id].(attempts := m.pending[id].attempts + 1, lastTry := now));
    }
  }

  lemma RetriedKeeps(s: Sys, cfg: Settings, id: string, ok: bool, next: Sys)
    requires Inv(s, cfg) && In(s, id) && (s.inflight[id].GetRetrying? || s.inflight[id].RetryRetrying?)
    requires OnlyAbout(s.memory, next.memory, id) && WithinCaps(next.memory, cfg) && NamesOnly(next.memory)
    requires ok ==> id !in next.memory.pending && id in next.memory.tombstones
                    && next.memory.tombstones[id] == s.inflight[id].until
    requires !ok ==> (Revoked(next.memory, s.now, id) ==> Revoked(s.memory, s.now, id))
    requires next == Goes(s.(memory := next.memory), id, GetChecking) || next == Finished(s.(memory := next.memory), id)
    ensures Inv(next, cfg)
  {
    assert OpOk(s, id, s.inflight[id]);
    SettlingKeeps(s, cfg, next, id);
  }

  lemma RetryDoneKeeps(s: Sys, cfg: Settings, id: string, ok: bool, order: seq<string>)
    requires Inv(s, cfg) && Enabled(s, RetryDone(id, ok, order))
    ensures Inv(Next(s, cfg, RetryDone(id, ok, order)), cfg)
  {
    var op := s.inflight[id];
    assert OpOk(s, id, op);
    RetryMemory(s.memory, cfg, id, op.until, s.now, ok, order);
    RetriedKeeps(s, cfg, id, ok, Next(s, cfg, RetryDone(id, ok, order)));
  }

  lemma NoteDeleteMemory(m: Memory, cfg: Settings, id: string, retain: int, now: int,
                         outcome: DeleteOutcome, order: seq<string>)
    requires WithinCaps(m, cfg) && NamesOnly(m) && id != ""
    requires Enumerates(order, if outcome.DeleteFailed? then m.pending.Keys else m.tombstones.Keys)
    ensures var after := NoteDelete(m, cfg, id, retain, now, outcome, order);
            OnlyAbout(m, after, id) && WithinCaps(after, cfg) && NamesOnly(after)
  {
    match outcome
    case DeleteFailed => PendingKeepsCaps(m, cfg, id, retain, now, order);
    case Removed =>
      TombstoneKeepsCaps(m, cfg, id, retain, order);
      PaidKeepsCaps(RevocationMemory.RememberTombstone(m, cfg, id, retain, order), cfg, id);
    case NothingThere =>
  }

  lemma SweptMemory(m: Memory, noted: Memory, cfg: Settings, id: string, now: int)
    requires OnlyAbout(m, noted, id) && WithinCaps(noted, cfg) && NamesOnly(noted)
    ensures var after := Sweep(noted, cfg, now);
            OnlyAbout(m, after, id) && WithinCaps(after, cfg) && NamesOnly(after)
  {
    SweepKeepsCaps(noted, cfg, now);
  }

  lemma DeleteDoneKeeps(s: Sys, cfg: Settings, id: string, outcome: DeleteOutcome, order: seq<string>)
    requires Inv(s, cfg) && Enabled(s, DeleteDone(id, outcome, order))
    ensures Inv(Next(s, cfg, DeleteDone(id, outcome, order)), cfg)
  {
    assert OpOk(s, id, s.inflight[id]);
    var retain := s.inflight[id].retain;
    NoteDeleteMemory(s.memory, cfg, id, retain, s.now, outcome, order);
    SweptMemory(s.memory, NoteDelete(s.memory, cfg, id, retain, s.now, outcome, order), cfg, id, s.now);
    SettlingKeeps(s, cfg, Next(s, cfg, DeleteDone(id, outcome, order)), id);
  }

  lemma DropExpiredKeeps(s: Sys, cfg: Settings)
    requires Inv(s, cfg)
    ensures Inv(Next(s, cfg, DropExpired), cfg)
  {
    var next := Next(s, cfg, DropExpired);
    SweepKeepsCaps(s.memory, cfg, s.now);
    forall id | id in next.inflight ensures OpOk(next, id, next.inflight[id]) {
      assert OpOk(s, id, s.inflight[id]);
    }
  }

  lemma TickKeeps(s: Sys, cfg: Settings, later: nat)
    requires Inv(s, cfg)
    ensures Inv(Next(s, cfg, Tick(later)), cfg)
  {
  }

  /** A step that only takes one id's operation further, with nothing about it remembered or cached anew. */
  lemma QuietStepKeeps(s: Sys, cfg: Settings, ev: Event)
    requires Inv(s, cfg) && Enabled(s, ev)
    requires ev.Begin? || ev.LookPending? || ev.Check? || ev.StoreWrite? || ev.ReadRetention?
    ensures Inv(Next(s, cfg, ev), cfg)
  {
    var next := Next(s, cfg, ev);
    forall id | id in next.inflight ensures OpOk(next, id, next.inflight[id]) {
      assert id in s.inflight ==> OpOk(s, id, s.inflight[id]);
      assert Revoked(s.memory, s.now, id) ==> id !in s.cache;
    }
  }

  /** A step that changes the cache, and at most adds an id it may use to it. */
  lemma CacheStepKeeps(s: Sys, cfg: Settings, ev: Event)
    requires Inv(s, cfg) && Enabled(s, ev)
    requires ev.Find? || ev.WriteDone? || ev.ClearCache? || ev.Slide?
    ensures Inv(Next(s, cfg, ev), cfg)
  {
    var next := Next(s, cfg, ev);
    forall id | id in next.inflight ensures OpOk(next, id, next.inflight[id]) {
      assert OpOk(s, id, s.inflight[id]);
    }
    forall id | Revoked(next.memory, next.now, id) ensures id !in next.cache {
      assert id in s.inflight ==> OpOk(s, id, s.inflight[id]);
    }
  }

  lemma StepKeepsInv(s: Sys, cfg: Settings, ev: Event)
    requires Inv(s, cfg) && Enabled(s, ev)
    ensures Inv(Next(s, cfg, ev), cfg)
  {
    match ev {
      case RetryDone(id, ok, order) => RetryDoneKeeps(s, cfg, id, ok, order);
      case DeleteDone(id, outcome, order) => DeleteDoneKeeps(s, cfg, id, outcome, order);
      case DropExpired => DropExpiredKeeps(s, cfg);
      case Tick(later) => TickKeeps(s, cfg, later);
      case Find(_, _) => CacheStepKeeps(s, cfg, ev);
      case WriteDone(_, _, _) => CacheStepKeeps(s, cfg, ev);
      case ClearCache => CacheStepKeeps(s, cfg, ev);
      case Slide(_, _, _) => CacheStepKeeps(s, cfg, ev);
      case _ => QuietStepKeeps(s, cfg, ev);
    }
  }

  // ---- What it gives ----

  /** A step that serves the id, writes it to the store, or puts it in the cache. */
  predicate UsesSession(ev: Event, id: string) {
    match ev
    case Find(other, finding) => other == id && finding.Row?
    case StoreWrite(other) => other == id
    case WriteDone(other, landed, _) => other == id && landed
    case _ => false
  }

  predicate Legal(s: Sys, cfg: Settings, run: seq<Event>)
    decreases |run|
  {
    run == [] || (Enabled(s, run[0]) && Legal(Next(s, cfg, run[0]), cfg, run[1..]))
  }

  function After(s: Sys, cfg: Settings, run: seq<Event>): Sys
    requires Legal(s, cfg, run)
    decreases |run|
  {
    if run == [] then s else After(Next(s, cfg, run[0]), cfg, run[1..])
  }

  lemma {:induction false} RunKeepsInv(s: Sys, cfg: Settings, run: seq<Event>)
    requires Inv(s, cfg) && Legal(s, cfg, run)
    ensures Inv(After(s, cfg, run), cfg)
    decreases |run|
  {
    if run != [] {
      StepKeepsInv(s, cfg, run[0]);
      RunKeepsInv(Next(s, cfg, run[0]), cfg, run[1..]);
    }
  }

  function Boot(now: int): Sys {
    Sys(Memory(map[], map[], 0), map[], now, map[])
  }

  /** In every run, an id whose revocation is remembered is not cached, not served and not written. */
  lemma RevokedIdIsNeverUsed(cfg: Settings, start: int, run: seq<Event>, id: string)
    requires Legal(Boot(start), cfg, run)
    requires Revoked(After(Boot(start), cfg, run).memory, After(Boot(start), cfg, run).now, id)
    ensures id !in After(Boot(start), cfg, run).cache
    ensures forall ev {:trigger UsesSession(ev, id)} :: UsesSession(ev, id) ==> !Enabled(After(Boot(start), cfg, run), ev)
  {
    InitialInv(cfg, start);
    RunKeepsInv(Boot(start), cfg, run);
    var s := After(Boot(start), cfg, run);
    assert id in s.inflight ==> OpOk(s, id, s.inflight[id]);
  }

  /** In every run both sets stay within caps of at least one. */
  lemma SetsStayWithinCaps(cfg: Settings, start: int, run: seq<Event>)
    requires Legal(Boot(start), cfg, run)
    ensures var m := After(Boot(start), cfg, run).memory;
            && (cfg.maxTombstones >= 1 ==> |m.tombstones| <= cfg.maxTombstones)
            && (cfg.maxPending >= 1 ==> |m.pending| <= cfg.maxPending)
  {
    InitialInv(cfg, start);
    RunKeepsInv(Boot(start), cfg, run);
  }

  /**
   Paying a debt leaves a tombstone with the debt's deadline, whatever tombstone the id had before.
   RefusalSpans says when that ends a refusal early.
   */
  lemma PaidDebtBecomesTombstone(s: Sys, cfg: Settings, id: string, order: seq<string>)
    requires Inv(s, cfg) && Enabled(s, RetryDone(id, true, order)) && id in s.memory.pending
    ensures var after := Next(s, cfg, RetryDone(id, true, order)).memory;
            && id !in after.pending
            && id in after.tombstones && after.tombstones[id] == s.memory.pending[id].until
  {
  }

  /** How long what a delete that failed leaves is good for: an older record of the same debt is not renewed. */
  function DebtDeadline(m: Memory, id: string, retain: int): int {
    if id in m.pending then m.pending[id].until else retain
  }

  lemma NoteDeleteRemembers(m: Memory, cfg: Settings, id: string, retain: int, now: int,
                            outcome: DeleteOutcome, order: seq<string>)
    requires WithinCaps(m, cfg) && NamesOnly(m) && id != "" && !outcome.NothingThere?
    requires Enumerates(order, if outcome.DeleteFailed? then m.pending.Keys else m.tombstones.Keys)
    ensures var after := NoteDelete(m, cfg, id, retain, now, outcome, order);
            if outcome.DeleteFailed? then Owed(after, now, id) <==> DebtDeadline(m, id, retain) > now
            else id !in after.pending && (Tombstoned(after, now, id) <==> retain > now)
  {
  }

  /**
   A revocation that removed the row is remembered from that moment on, unless the delete outlasted the
   retention. One whose delete failed is owed exactly when no record of an earlier failure, already past its
   deadline, stands in its place: such a record is counted up but keeps its deadline, and the id is not refused.
   */
  lemma RevocationIsRememberedExactly(s: Sys, cfg: Settings, id: string, outcome: DeleteOutcome, order: seq<string>)
    requires Inv(s, cfg) && Enabled(s, DeleteDone(id, outcome, order)) && !outcome.NothingThere?
    ensures var next := Next(s, cfg, DeleteDone(id, outcome, order));
            && id !in next.cache
            && (outcome.Removed? ==>
                  id !in next.memory.pending && (Tombstoned(next.memory, next.now, id) <==> s.inflight[id].retain > s.now))
            && (outcome.DeleteFailed? ==>
                  (Owed(next.memory, next.now, id) <==> DebtDeadline(s.memory, id, s.inflight[id].retain) > s.now))
  {
    assert OpOk(s, id, s.inflight[id]);
    var noted := NoteDelete(s.memory, cfg, id, s.inflight[id].retain, s.now, outcome, order);
    NoteDeleteRemembers(s.memory, cfg, id, s.inflight[id].retain, s.now, outcome, order);
    SweepKeepsRefusals(noted, cfg, s.now, id);
  }

  lemma SweepKeepsRefusals(m: Memory, cfg: Settings, now: int, id: string)
    ensures Tombstoned(Sweep(m, cfg, now), now, id) <==> Tombstoned(m, now, id)
    ensures Owed(Sweep(m, cfg, now), now, id) <==> Owed(m, now, id)
    ensures id !in m.pending ==> id !in Sweep(m, cfg, now).pending
  {
  }

  // ---- Retries are spaced ----

  /** The delete of the id has just been tried and has failed. */
  predicate TryFails(ev: Event, id: string) {
    (ev.RetryDone? && ev.id == id && !ev.ok) || (ev.DeleteDone? && ev.id == id && ev.outcome.DeleteFailed?)
  }

  /** Whatever is remembered of a debt of the id was last tried at `since` or later. */
  predicate Tried(m: Memory, id: string, since: int) {
    id in m.pending ==> m.pending[id].lastTry >= since
  }

  predicate TriedSince(s: Sys, id: string, since: int) {
    since <= s.now && Tried(s.memory, id, since)
  }

  lemma DeleteNotesTry(m: Memory, cfg: Settings, id: string, since: int, other: string, retain: int, now: int,
                       outcome: DeleteOutcome, order: seq<string>)
    requires Enumerates(order, if outcome.DeleteFailed? then m.pending.Keys else m.tombstones.Keys)
    requires Tried(m, id, since) && since <= now
    ensures Tried(SettleDelete(m, cfg, other, retain, now, outcome, order), id, since)
    ensures other == id && outcome.DeleteFailed? ==> Tried(SettleDelete(m, cfg, id, retain, now, outcome, order), id, now)
  {
  }

  lemma RetryNotesTry(m: Memory, cfg: Settings, id: string, since: int, other: string, until: int, now: int, order: seq<string>)
    requires Enumerates(order, m.tombstones.Keys) && Tried(m, id, since) && since <= now
    ensures Tried(SettleRetry(m, cfg, other, until, order), id, since) && Tried(FailRetry(m, other, now), id, since)
    ensures other == id ==> Tried(FailRetry(m, id, now), id, now)
  {
  }

  lemma TriedSinceKept(s: Sys, cfg: Settings, ev: Event, id: string, since: int)
    requires Enabled(s, ev) && TriedSince(s, id, since)
    ensures TriedSince(Next(s, cfg, ev), id, since)
    ensures TryFails(ev, id) ==> TriedSince(Next(s, cfg, ev), id, s.now)
  {
    match ev {
      case RetryDone(other, _, order) =>
        RetryNotesTry(s.memory, cfg, id, since, other, s.inflight[other].until, s.now, order);
      case DeleteDone(other, outcome, order) =>
        DeleteNotesTry(s.memory, cfg, id, since, other, s.inflight[other].retain, s.now, outcome, order);
      case _ =>
    }
  }

  lemma {:induction false} TriedSinceOverRun(s: Sys, cfg: Settings, run: seq<Event>, id: string, since: int)
    requires Legal(s, cfg, run) && TriedSince(s, id, since)
    ensures TriedSince(After(s, cfg, run), id, since)
    decreases |run|
  {
    if run != [] {
      TriedSinceKept(s, cfg, run[0], id, since);
      TriedSinceOverRun(Next(s, cfg, run[0]), cfg, run[1..], id, since);
    }
  }

  /** In every run a delete that failed is not tried again before the interval is over, whoever asks for the id. */
  lemma RetriesAreSpaced(s: Sys, cfg: Settings, ev: Event, run: seq<Event>, id: string)
    requires Enabled(s, ev) && TryFails(ev, id) && Legal(Next(s, cfg, ev), cfg, run)
    requires Enabled(After(Next(s, cfg, ev), cfg, run), LookPending(id))
    requires var looked := Next(After(Next(s, cfg, ev), cfg, run), cfg, LookPending(id));
      id in looked.inflight && (looked.inflight[id].GetRetrying? || looked.inflight[id].RetryRetrying?)
    ensures After(Next(s, cfg, ev), cfg, run).now >= s.now + cfg.retryAfter
  {
    var before := if id in s.memory.pending && s.memory.pending[id].lastTry < s.now then s.memory.pending[id].lastTry else s.now;
    TriedSinceKept(s, cfg, ev, id, before);
    TriedSinceOverRun(Next(s, cfg, ev), cfg, run, id, s.now);
  }

  // ---- What a debt counts ----

  predicate StaysOwed(s: Sys, cfg: Settings, run: seq<Event>, id: string)
    requires Legal(s, cfg, run)
    decreases |run|
  {
    id in s.memory.pending && (run == [] || StaysOwed(Next(s, cfg, run[0]), cfg, run[1..], id))
  }

  function Failures(run: seq<Event>, id: string): nat {
    if run == [] then 0 else Failures(run[1..], id) + if TryFails(run[0], id) then 1 else 0
  }

  /** The debt of the id is the one it was, tried so many times more. */
  predicate SameDebt(before: Memory, after: Memory, id: string, more: nat) {
    && id in before.pending && id in after.pending
    && after.pending[id].until == before.pending[id].until
    && after.pending[id].attempts == before.pending[id].attempts + more
  }

  lemma DeleteCounts(m: Memory, cfg: Settings, id: string, other: string, retain: int, now: int,
                     outcome: DeleteOutcome, order: seq<string>)
    requires Enumerates(order, if outcome.DeleteFailed? then m.pending.Keys else m.tombstones.Keys) && id in m.pending
    ensures var after := SettleDelete(m, cfg, other, retain, now, outcome, order);
      id in after.pending ==> SameDebt(m, after, id, if other == id && outcome.DeleteFailed? then 1 else 0)
  {
  }

  lemma RetryCounts(m: Memory, cfg: Settings, id: string, other: string, until: int, now: int, ok: bool, order: seq<string>)
    requires Enumerates(order, m.tombstones.Keys) && id in m.pending
    ensures var after := if ok then SettleRetry(m, cfg, other, until, order) else FailRetry(m, other, now);
      id in after.pending ==> SameDebt(m, after, id, if other == id && !ok then 1 else 0)
  {
  }

  lemma StepCounts(s: Sys, cfg: Settings, ev: Event, id: string)
    requires Enabled(s, ev) && id in s.memory.pending && id in Next(s, cfg, ev).memory.pending
    ensures SameDebt(s.memory, Next(s, cfg, ev).memory, id, if TryFails(ev, id) then 1 else 0)
  {
    match ev {
      case RetryDone(other, ok, order) =>
        RetryCounts(s.memory, cfg, id, other, s.inflight[other].until, s.now, ok, order);
      case DeleteDone(other, outcome, order) =>
        DeleteCounts(s.memory, cfg, id, other, s.inflight[other].retain, s.now, outcome, order);
      case _ =>
    }
  }

  /** As long as a debt is remembered it keeps its deadline and counts every delete of its id that fails. */
  lemma {:induction false} DebtCountsFailures(s: Sys, cfg: Settings, run: seq<Event>, id: string)
    requires Legal(s, cfg, run) && StaysOwed(s, cfg, run, id)
    ensures SameDebt(s.memory, After(s, cfg, run).memory, id, Failures(run, id))
    decreases |run|
  {
    if run != [] {
      StepCounts(s, cfg, run[0], id);
      DebtCountsFailures(Next(s, cfg, run[0]), cfg, run[1..], id);
    }
  }

  // ---- An operation nobody interferes with ----

  lemma Then(s: Sys, cfg: Settings, ev: Event, rest: seq<Event>)
    requires Enabled(s, ev) && Legal(Next(s, cfg, ev), cfg, rest)
    ensures Legal(s, cfg, [ev] + rest) && After(s, cfg, [ev] + rest) == After(Next(s, cfg, ev), cfg, rest)
  {
    assert ([ev] + rest)[1..] == rest;
  }

  /** The steps of a lookup from its check on. */
  function LookupSteps(s: Sys, id: string, finding: Finding): seq<Event> {
    if Revoked(s.memory, s.now, id) then [Check(id)] else [Check(id), Find(id, finding)]
  }

  /** What a lookup leaves of the cache. */
  function CacheAfter(s: Sys, id: string, finding: Finding): Cache {
    if Revoked(s.memory, s.now, id) || finding.FindFailed? then s.cache
    else if finding.NoRow? then s.cache - {id}
    else s.cache[id := ServedFor(s.cache, id, finding.row)]
  }

  lemma LookupAlone(s: Sys, cfg: Settings, id: string, finding: Finding)
    requires id in s.inflight && s.inflight[id] == GetChecking
    ensures Legal(s, cfg, LookupSteps(s, id, finding))
    ensures After(s, cfg, LookupSteps(s, id, finding))
         == s.(cache := CacheAfter(s, id, finding), inflight := s.inflight - {id})
  {
    var checked := Next(s, cfg, Check(id));
    if Revoked(s.memory, s.now, id) {
      Then(s, cfg, Check(id), []);
    } else {
      assert checked == Goes(s, id, GetFinding);
      Then(checked, cfg, Find(id, finding), []);
      Then(s, cfg, Check(id), [Find(id, finding)]);
    }
  }

  /** The steps of GetSession: a retried delete first, when one is due. */
  function GetSteps(s: Sys, cfg: Settings, id: string, ok: bool, finding: Finding, order: seq<string>): seq<Event>
    requires Enumerates(order, s.memory.tombstones.Keys)
  {
    var memory := AfterRetry(s.memory, cfg, id, s.now, ok, order);
    [Begin(id, GetStarting), LookPending(id)]
    + (if Due(s.memory, cfg, s.now, id) then [RetryDone(id, ok, order)] else [])
    + LookupSteps(s.(memory := memory), id, finding)
  }

  lemma LookAlone(s: Sys, cfg: Settings, id: string, ok: bool, order: seq<string>)
    requires id in s.inflight && s.inflight[id] == GetStarting && Enumerates(order, s.memory.tombstones.Keys)
    ensures Enabled(s, LookPending(id))
    ensures var looked := Next(s, cfg, LookPending(id));
      if Due(s.memory, cfg, s.now, id) then
        && Enabled(looked, RetryDone(id, ok, order))
        && Next(looked, cfg, RetryDone(id, ok, order))
           == Goes(s.(memory := AfterRetry(s.memory, cfg, id, s.now, ok, order)), id, GetChecking)
      else looked == Goes(s, id, GetChecking)
  {
  }

  /** Alone, the steps of a lookup do to memory and cache what the method does: the machine is the mediator's. */
  lemma GetSessionAlone(s: Sys, cfg: Settings, id: string, ok: bool, finding: Finding, order: seq<string>)
    requires ValidSessionId(id) && id !in s.inflight && Enumerates(order, s.memory.tombstones.Keys)
    ensures var steps := GetSteps(s, cfg, id, ok, finding, order);
      var retried := s.(memory := AfterRetry(s.memory, cfg, id, s.now, ok, order));
      && Legal(s, cfg, steps)
      && After(s, cfg, steps) == retried.(cache := CacheAfter(retried, id, finding))
  {
    var begun := Next(s, cfg, Begin(id, GetStarting));
    var retried := s.(memory := AfterRetry(s.memory, cfg, id, s.now, ok, order));
    var checking := Goes(retried, id, GetChecking);
    var lookup := LookupSteps(retried, id, finding);
    LookAlone(begun, cfg, id, ok, order);
    LookupAlone(checking, cfg, id, finding);
    assert LookupSteps(checking, id, finding) == lookup;
    assert checking.inflight - {id} == s.inflight;
    var looked := Next(begun, cfg, LookPending(id));
    assert Goes(begun.(memory := retried.memory), id, GetChecking) == checking;
    var rest := lookup;
    if Due(s.memory, cfg, s.now, id) {
      Then(looked, cfg, RetryDone(id, ok, order), lookup);
      rest := [RetryDone(id, ok, order)] + lookup;
    }
    Then(begun, cfg, LookPending(id), rest);
    Then(s, cfg, Begin(id, GetStarting), [LookPending(id)] + rest);
    assert GetSteps(s, cfg, id, ok, finding, order) == [Begin(id, GetStarting)] + ([LookPending(id)] + rest);
  }

  /** The steps of CreateSession and UpdateSession. */
  function WriteSteps(s: Sys, id: string, landed: bool, session: Cached): seq<Event> {
    [Begin(id, WriteChecking), Check(id)]
    + if Revoked(s.memory, s.now, id) then [] else [StoreWrite(id), WriteDone(id, landed, session)]
  }

  /** So do those of a write. */
  lemma WriteSessionAlone(s: Sys, cfg: Settings, id: string, landed: bool, session: Cached)
    requires ValidSessionId(id) && id !in s.inflight
    ensures var steps := WriteSteps(s, id, landed, session);
      && Legal(s, cfg, steps)
      && After(s, cfg, steps) ==
           s.(cache := if !Revoked(s.memory, s.now, id) && landed then s.cache[id := session] else s.cache)
  {
    var begun := Next(s, cfg, Begin(id, WriteChecking));
    var checked := Next(begun, cfg, Check(id));
    assert (s.inflight[id := Writing]) - {id} == s.inflight;
    assert begun.inflight - {id} == s.inflight;
    var rest := [];
    if !Revoked(s.memory, s.now, id) {
      assert checked == Goes(s, id, Writing);
      Then(checked, cfg, WriteDone(id, landed, session), []);
      Then(checked, cfg, StoreWrite(id), [WriteDone(id, landed, session)]);
      rest := [StoreWrite(id), WriteDone(id, landed, session)];
      assert rest == [StoreWrite(id)] + ([WriteDone(id, landed, session)] + []);
    }
    Then(begun, cfg, Check(id), rest);
    Then(s, cfg, Begin(id, WriteChecking), [Check(id)] + rest);
    assert WriteSteps(s, id, landed, session) == [Begin(id, WriteChecking)] + ([Check(id)] + rest);
  }

  function DeleteSteps(id: string, outcome: DeleteOutcome, order: seq<string>): seq<Event> {
    [Begin(id, DeleteReading), ReadRetention(id), DeleteDone(id, outcome, order)]
  }

  lemma DeletingAlone(s: Sys, cfg: Settings, id: string, retain: int, outcome: DeleteOutcome, order: seq<string>)
    requires id in s.inflight && s.inflight[id] == Deleting(retain)
    requires Enumerates(order, if outcome.DeleteFailed? then s.memory.pending.Keys else s.memory.tombstones.Keys)
    ensures Legal(s, cfg, [DeleteDone(id, outcome, order)])
    ensures After(s, cfg, [DeleteDone(id, outcome, order)]) ==
      s.(cache := s.cache - {id}, inflight := s.inflight - {id},
         memory := SettleDelete(s.memory, cfg, id, retain, s.now, outcome, order))
  {
    Then(s, cfg, DeleteDone(id, outcome, order), []);
  }

  /** So do those of a delete. */
  lemma DeleteSessionAlone(s: Sys, cfg: Settings, id: string, outcome: DeleteOutcome, order: seq<string>)
    requires ValidSessionId(id) && id !in s.inflight
    requires Enumerates(order, if outcome.DeleteFailed? then s.memory.pending.Keys else s.memory.tombstones.Keys)
    ensures Legal(s, cfg, DeleteSteps(id, outcome, order))
    ensures After(s, cfg, DeleteSteps(id, outcome, order)) == s.(cache := s.cache - {id},
           memory := SettleDelete(s.memory, cfg, id, RetentionFor(s.cache, cfg, s.now, id), s.now, outcome, order))
  {
    var retain := RetentionFor(s.cache, cfg, s.now, id);
    var begun := Next(s, cfg, Begin(id, DeleteReading));
    var deleting := Goes(s, id, Deleting(retain));
    assert Next(begun, cfg, ReadRetention(id)) == deleting;
    assert deleting.inflight - {id} == s.inflight;
    DeletingAlone(deleting, cfg, id, retain, outcome, order);
    Then(begun, cfg, ReadRetention(id), [DeleteDone(id, outcome, order)]);
    Then(s, cfg, Begin(id, DeleteReading), [ReadRetention(id), DeleteDone(id, outcome, order)]);
    assert DeleteSteps(id, outcome, order)
        == [Begin(id, DeleteReading)] + ([ReadRetention(id)] + [DeleteDone(id, outcome, order)]);
  }
}
