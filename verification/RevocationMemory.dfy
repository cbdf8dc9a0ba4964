/**
 What one process remembers about the ids it revoked.

 A tombstone says the row is gone; a pending record says it should be and is not. Both refuse the
 id until a deadline, and both sets are capped: a full set drops the entry expiring soonest. A Go
 map is walked in no particular order, so every walk here takes its order as a parameter.
 */
module RevocationMemory {
  import opened Options

  datatype Pending = Pending(until: int, attempts: nat, lastTry: int)

  /** The package's settings; durations and instants share one unit. */
  datatype Settings = Settings(maxTombstones: int, maxPending: int, retention: int, margin: int,
                               retryAfter: int, sweepEvery: int)

  datatype Memory = Memory(tombstones: map<string, int>, pending: map<string, Pending>, lastSweep: int)

  predicate Enumerates(order: seq<string>, keys: set<string>) {
    && (forall i :: 0 <= i < |order| ==> order[i] in keys)
    && (forall key :: key in keys ==> key in order)
  }

  function Deadlines(pending: map<string, Pending>): map<string, int> {
    map id | id in pending :: pending[id].until
  }

  predicate Soonest(deadlines: map<string, int>, key: string) {
    key in deadlines && forall other :: other in deadlines ==> deadlines[key] <= deadlines[other]
  }

  /** The scan for the entry expiring soonest; the empty string stands for "none yet". */
  function Scan(deadlines: map<string, int>, order: seq<string>): string
    requires forall i :: 0 <= i < |order| ==> order[i] in deadlines
  {
    if order == [] then ""
    else
      var best := Scan(deadlines, order[..|order| - 1]);
      var key := order[|order| - 1];
      if best == "" || (best in deadlines && deadlines[key] < deadlines[best]) then key else best
  }

  lemma {:induction false} ScanFindsSoonest(deadlines: map<string, int>, order: seq<string>)
    requires "" !in deadlines
    requires forall i :: 0 <= i < |order| ==> order[i] in deadlines
    ensures order != [] ==> Scan(deadlines, order) in order
    ensures forall i :: 0 <= i < |order| ==> deadlines[Scan(deadlines, order)] <= deadlines[order[i]]
  {
    if order != [] {
      ScanFindsSoonest(deadlines, order[..|order| - 1]);
    }
  }

  /** Whatever the keys, the scan of a set that is not empty ends on one of its keys. */
  lemma {:induction false} ScanFindsAKey(deadlines: map<string, int>, order: seq<string>)
    requires order != [] && forall i :: 0 <= i < |order| ==> order[i] in deadlines
    ensures Scan(deadlines, order) in deadlines
  {
    if |order| > 1 {
      ScanFindsAKey(deadlines, order[..|order| - 1]);
    }
  }

  function EvictTombstone(tombstones: map<string, int>, limit: int, order: seq<string>): map<string, int>
    requires Enumerates(order, tombstones.Keys)
  {
    if limit <= 0 || |tombstones| < limit then tombstones
    else tombstones - {Scan(tombstones, order)}
  }

  method EvictOldest(entries: map<string, int>, limit: int, order: seq<string>) returns (kept: map<string, int>)
    requires Enumerates(order, entries.Keys)
    ensures kept == EvictTombstone(entries, limit, order)
  {
    if limit <= 0 || |entries| < limit {
      return entries;
    }
    var oldestKey, oldest := "", 0;
    for i := 0 to |order|
      invariant oldestKey == Scan(entries, order[..i])
      invariant oldestKey in entries || oldestKey == ""
      invariant oldestKey != "" ==> oldestKey in entries && oldest == entries[oldestKey]
    {
      var key := order[i];
      assert order[..i + 1][..i] == order[..i];
      if oldestKey == "" || entries[key] < oldest {
        oldestKey, oldest := key, entries[key];
      }
    }
    assert order[..|order|] == order;
    kept := entries - {oldestKey};
  }

  function EvictPending(pending: map<string, Pending>, order: seq<string>): map<string, Pending>
    requires Enumerates(order, pending.Keys)
  {
    pending - {Scan(Deadlines(pending), order)}
  }

  function RememberTombstone(m: Memory, cfg: Settings, id: string, until: int, order: seq<string>): Memory
    requires Enumerates(order, m.tombstones.Keys)
  {
    m.(tombstones := EvictTombstone(m.tombstones, cfg.maxTombstones, order)[id := until])
  }

  function RememberPending(m: Memory, cfg: Settings, id: string, until: int, now: int, order: seq<string>): Memory
    requires Enumerates(order, m.pending.Keys)
  {
    if id in m.pending then
      m.(pending := m.pending[id := m.pending[id].(attempts := m.pending[id].attempts + 1, lastTry := now)])
    else
      var room := if |m.pending| >= cfg.maxPending then EvictPending(m.pending, order) else m.pending;
      m.(pending := room[id := Pending(until, 1, now)])
  }

  predicate Tombstoned(m: Memory, now: int, id: string) {
    id in m.tombstones && m.tombstones[id] > now
  }

  predicate Owed(m: Memory, now: int, id: string) {
    id in m.pending && m.pending[id].until > now
  }

  predicate Revoked(m: Memory, now: int, id: string) {
    Tombstoned(m, now, id) || Owed(m, now, id)
  }

  function LiveTombstones(tombstones: map<string, int>, now: int): map<string, int> {
    map id | id in tombstones && tombstones[id] > now :: tombstones[id]
  }

  function LivePending(pending: map<string, Pending>, now: int): map<string, Pending> {
    map id | id in pending && pending[id].until > now :: pending[id]
  }

  function Sweep(m: Memory, cfg: Settings, now: int): Memory {
    if now - m.lastSweep < cfg.sweepEvery then m
    else Memory(LiveTombstones(m.tombstones, now), LivePending(m.pending, now), now)
  }

  function Due(m: Memory, cfg: Settings, now: int, id: string): bool {
    id in m.pending && now - m.pending[id].lastTry >= cfg.retryAfter
  }

  /** A retried delete that went through: the debt is paid and the id stays refused until its old deadline. */
  function SettleRetry(m: Memory, cfg: Settings, id: string, until: int, order: seq<string>): Memory
    requires Enumerates(order, m.tombstones.Keys)
  {
    RememberTombstone(m.(pending := m.pending - {id}), cfg, id, until, order)
  }

  function FailRetry(m: Memory, id: string, now: int): Memory {
    if id in m.pending then
      m.(pending := m.pending[id := m.pending[id].(attempts := m.pending[id].attempts + 1, lastTry := now)])
    else m
  }

  datatype DeleteOutcome = DeleteFailed | Removed | NothingThere

  function SettleDelete(m: Memory, cfg: Settings, id: string, retain: int, now: int,
                        outcome: DeleteOutcome, order: seq<string>): Memory
    requires Enumerates(order, if outcome.DeleteFailed? then m.pending.Keys else m.tombstones.Keys)
  {
    Sweep(NoteDelete(m, cfg, id, retain, now, outcome, order), cfg, now)
  }

  function NoteDelete(m: Memory, cfg: Settings, id: string, retain: int, now: int,
                      outcome: DeleteOutcome, order: seq<string>): Memory
    requires Enumerates(order, if outcome.DeleteFailed? then m.pending.Keys else m.tombstones.Keys)
  {
    match outcome
    case DeleteFailed => RememberPending(m, cfg, id, retain, now, order)
    case Removed =>
      var buried := RememberTombstone(m, cfg, id, retain, order);
      buried.(pending := buried.pending - {id})
    case NothingThere => m
  }

  // ---- What the sets promise ----

  /** Both sets within their caps; a tombstone cap of zero or less means no cap. */
  predicate WithinCaps(m: Memory, cfg: Settings) {
    && (cfg.maxTombstones >= 1 ==> |m.tombstones| <= cfg.maxTombstones)
    && (cfg.maxPending >= 1 ==> |m.pending| <= cfg.maxPending)
  }

  /** No key is the empty string, which the eviction scan could not tell from "none yet". */
  predicate NamesOnly(m: Memory) {
    "" !in m.tombstones && "" !in m.pending
  }

  lemma SizeAfterUpdate<V>(m: map<string, V>, key: string, value: V)
    ensures |m[key := value]| == if key in m then |m| else |m| + 1
  {
  }

  lemma SizeAfterRemoval<V>(m: map<string, V>, key: string)
    ensures |m - {key}| == if key in m then |m| - 1 else |m|
  {
  }

  lemma SizeOfPart<V>(part: map<string, V>, whole: map<string, V>)
    requires part.Keys <= whole.Keys
    ensures |part| <= |whole|
  {
    assert |part| == |part.Keys| && |whole| == |whole.Keys|;
    SubsetSize(part.Keys, whole.Keys);
  }

  lemma {:induction false} SubsetSize<T>(a: set<T>, b: set<T>)
    requires a <= b
    ensures |a| <= |b|
  {
    if a != {} {
      var x :| x in a;
      SubsetSize(a - {x}, b - {x});
    }
  }

  /** Remembering a tombstone keeps the caps and says nothing new about any other id. */
  lemma TombstoneKeepsCaps(m: Memory, cfg: Settings, id: string, until: int, order: seq<string>)
    requires WithinCaps(m, cfg) && NamesOnly(m) && id != ""
    requires Enumerates(order, m.tombstones.Keys)
    ensures var after := RememberTombstone(m, cfg, id, until, order);
            && WithinCaps(after, cfg) && NamesOnly(after)
            && id in after.tombstones && after.tombstones[id] == until
            && after.pending == m.pending
            && forall other :: other != id && other in after.tombstones ==>
                 other in m.tombstones && after.tombstones[other] == m.tombstones[other]
  {
    var kept := EvictTombstone(m.tombstones, cfg.maxTombstones, order);
    ScanFindsSoonest(m.tombstones, order);
    SizeAfterRemoval(m.tombstones, Scan(m.tombstones, order));
    SizeAfterUpdate(kept, id, until);
    if |m.tombstones| > 0 {
      assert m.tombstones.Keys != {};
    }
  }

  /** The tombstone a full set drops is one expiring soonest; no other is lost. */
  lemma TombstoneDropsSoonest(m: Memory, cfg: Settings, id: string, until: int, order: seq<string>, other: string)
    requires WithinCaps(m, cfg) && NamesOnly(m)
    requires Enumerates(order, m.tombstones.Keys) && other in m.tombstones && other != id
    requires other !in RememberTombstone(m, cfg, id, until, order).tombstones
    ensures Soonest(m.tombstones, other) && |m.tombstones| == cfg.maxTombstones
  {
    ScanFindsSoonest(m.tombstones, order);
  }

  lemma PendingKeepsCaps(m: Memory, cfg: Settings, id: string, until: int, now: int, order: seq<string>)
    requires WithinCaps(m, cfg) && NamesOnly(m) && id != ""
    requires Enumerates(order, m.pending.Keys)
    ensures var after := RememberPending(m, cfg, id, until, now, order);
            && WithinCaps(after, cfg) && NamesOnly(after)
            && id in after.pending
            && after.pending[id].until == (if id in m.pending then m.pending[id].until else until)
            && after.tombstones == m.tombstones
            && forall other :: other != id && other in after.pending ==>
                 other in m.pending && after.pending[other] == m.pending[other]
  {
    if id in m.pending {
      SizeAfterUpdate(m.pending, id, m.pending[id].(attempts := m.pending[id].attempts + 1, lastTry := now));
    } else {
      var kept := EvictPending(m.pending, order);
      ScanFindsSoonest(Deadlines(m.pending), order);
      SizeAfterRemoval(m.pending, Scan(Deadlines(m.pending), order));
      SizeAfterUpdate(kept, id, Pending(until, 1, now));
      SizeAfterUpdate(m.pending, id, Pending(until, 1, now));
      if |m.pending| > 0 {
        assert m.pending.Keys != {};
      }
    }
  }

  lemma PendingDropsSoonest(m: Memory, cfg: Settings, id: string, until: int, now: int,
                            order: seq<string>, other: string)
    requires NamesOnly(m)
    requires Enumerates(order, m.pending.Keys) && other in m.pending && other != id
    requires other !in RememberPending(m, cfg, id, until, now, order).pending
    ensures Soonest(Deadlines(m.pending), other) && |m.pending| >= cfg.maxPending
  {
    ScanFindsSoonest(Deadlines(m.pending), order);
  }

  /** Removing a debt keeps the caps. */
  lemma PaidKeepsCaps(m: Memory, cfg: Settings, id: string)
    requires WithinCaps(m, cfg) && NamesOnly(m)
    ensures WithinCaps(m.(pending := m.pending - {id}), cfg) && NamesOnly(m.(pending := m.pending - {id}))
  {
  }

  lemma SweepKeepsCaps(m: Memory, cfg: Settings, now: int)
    requires WithinCaps(m, cfg) && NamesOnly(m)
    ensures WithinCaps(Sweep(m, cfg, now), cfg) && NamesOnly(Sweep(m, cfg, now))
    ensures forall id, t {:trigger Revoked(m, t, id)} ::
              t >= now ==> (Revoked(Sweep(m, cfg, now), t, id) <==> Revoked(m, t, id))
  {
    var after := Sweep(m, cfg, now);
    SizeOfPart(after.tombstones, m.tombstones);
    SizeOfPart(after.pending, m.pending);
  }

  // ---- When the scan is misled ----

  /** Every other entry expires later. */
  predicate OnlySoonest(deadlines: map<string, int>, key: string) {
    key in deadlines && forall other :: other in deadlines && other != key ==> deadlines[key] < deadlines[other]
  }

  /** What the scan has to go by when some other entry expires no later than that of the empty string. */
  lemma {:induction false} ScanSoFar(deadlines: map<string, int>, order: seq<string>)
    requires forall i :: 0 <= i < |order| ==> order[i] in deadlines
    ensures var best := Scan(deadlines, order);
      && (best != "" ==> best in deadlines)
      && forall key :: key in order && key != "" ==>
           || (best != "" && deadlines[best] <= deadlines[key])
           || ("" in deadlines && deadlines[""] < deadlines[key])
  {
    if order != [] {
      ScanSoFar(deadlines, order[..|order| - 1]);
      assert forall key :: key in order ==> key == order[|order| - 1] || key in order[..|order| - 1];
    }
  }

  /** Unless the entry of the empty string is the only soonest, every order ends on a soonest entry. */
  lemma ScanIsRight(deadlines: map<string, int>, order: seq<string>)
    requires Enumerates(order, deadlines.Keys) && deadlines.Keys != {}
    requires OnlySoonest(deadlines, "") ==> deadlines.Keys == {""}
    ensures Soonest(deadlines, Scan(deadlines, order))
  {
    ScanSoFar(deadlines, order);
    var best := Scan(deadlines, order);
    if deadlines.Keys == {""} {
      assert forall key :: key in deadlines ==> key == "";
      assert order != [] by {
        assert "" in deadlines.Keys;
      }
      ScanFindsAKey(deadlines, order);
    } else {
      var some :| some in deadlines;
      if "" in deadlines {
        var x :| x in deadlines && x != "" && deadlines[x] <= deadlines[""];
        assert x in order;
        assert best != "" && deadlines[best] <= deadlines[x];
      } else {
        assert some in order && some != "";
      }
    }
  }

  predicate NoneTwice(order: seq<string>) {
    forall i, j :: 0 <= i < j < |order| ==> order[i] != order[j]
  }

  /** Some order in which a walk may meet each key once ends on an entry that is not a soonest one. */
  ghost predicate SomeOrderMisleads(deadlines: map<string, int>) {
    exists order :: Enumerates(order, deadlines.Keys) && NoneTwice(order) && !Soonest(deadlines, Scan(deadlines, order))
  }

  /**
   Eviction may drop an entry that is not soonest exactly when the empty string is a key, is the only soonest
   one, and is not alone.
   */
  lemma ScanMisledExactly(deadlines: map<string, int>)
    requires deadlines.Keys != {}
    ensures SomeOrderMisleads(deadlines) <==> OnlySoonest(deadlines, "") && deadlines.Keys != {""}
  {
    if OnlySoonest(deadlines, "") && deadlines.Keys != {""} {
      var rest := InSomeOrder(deadlines.Keys - {""});
      var order := [""] + rest;
      StartsOver(deadlines, rest);
      assert Enumerates(order, deadlines.Keys);
      assert NoneTwice(order);
      assert deadlines.Keys == {""} + (deadlines.Keys - {""});
      var x :| x in deadlines.Keys - {""};
      assert x in rest;
      ScanFindsAKey(deadlines, rest);
      ScanFindsSoonest(deadlines - {""}, rest);
      SameScan(deadlines, rest);
      assert !Soonest(deadlines, Scan(deadlines, order));
    } else {
      forall order | Enumerates(order, deadlines.Keys) ensures Soonest(deadlines, Scan(deadlines, order)) {
        ScanIsRight(deadlines, order);
      }
    }
  }

  /** A walk that begins with the empty string goes on as if it had not met it. */
  lemma {:induction false} StartsOver(deadlines: map<string, int>, rest: seq<string>)
    requires "" in deadlines && forall i :: 0 <= i < |rest| ==> rest[i] in deadlines
    ensures Scan(deadlines, [""] + rest) == Scan(deadlines, rest)
  {
    if rest == [] {
      assert [""] + rest == [""];
      assert [""][..0] == [];
    } else {
      var n := |rest| - 1;
      StartsOver(deadlines, rest[..n]);
      assert ([""] + rest)[..|[""] + rest| - 1] == [""] + rest[..n];
    }
  }

  lemma {:induction false} SameScan(deadlines: map<string, int>, order: seq<string>)
    requires forall i :: 0 <= i < |order| ==> order[i] in deadlines && order[i] != ""
    ensures Scan(deadlines - {""}, order) == Scan(deadlines, order)
    ensures order != [] ==> Scan(deadlines, order) in order
  {
    if order != [] {
      SameScan(deadlines, order[..|order| - 1]);
    }
  }

  lemma InSomeOrder(keys: set<string>) returns (order: seq<string>)
    ensures Enumerates(order, keys) && NoneTwice(order)
  {
    if keys == {} {
      order := [];
    } else {
      var key :| key in keys;
      var rest := InSomeOrder(keys - {key});
      order := [key] + rest;
    }
  }
}
