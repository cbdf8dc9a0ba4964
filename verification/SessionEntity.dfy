/**
 One live session object: its copy of the row, the columns it still has to write, and the log
 of its attribute mutations.

 The functions give each operation's meaning on values. The class updates its fields in place,
 as the source does, and every method is proved against the function of the same purpose.
 */
module SessionEntity {
  import opened AttributeLog
  import opened Options

  datatype Column = UserID | Expiry | CreatedAt | LastActivity | Attributes | Version

  /** The columns an authorization decision can turn on. A write of one of them is guarded. */
  const STATE_COLUMNS: set<Column> := {UserID, Attributes}

  /** What MarkAllDirty asks for: every column but the key and the version. */
  const ALL_COLUMNS: set<Column> := {UserID, Expiry, CreatedAt, LastActivity, Attributes}

  datatype Row = Row(userId: string, expiry: int, createdAt: int, lastActivity: int,
                     attributes: Bag, version: int)

  datatype Entity = Entity(columns: Row, loaded: bool, dirty: set<Column>,
                           log: seq<AttributeOp>, pendingErr: bool)

  /** The detached copy handed to the store: `written` names the SET list, empty meaning all. */
  datatype SessionSnapshot = SessionSnapshot(columns: Row, loaded: bool, written: set<Column>, guard: Option<int>)

  datatype SaveResult = Done(row: Row) | Conflict | Gone | Duplicate

  datatype Setter =
    | SetUserId(id: string)
    | SetExpiry(expiry: int)
    | SetLastActivity(activity: int)
    | Mutate(op: AttributeOp)

  // ---- Meaning ----

  function Fresh(userId: string, expiry: int, now: int): Entity {
    Entity(Row(userId, expiry, now, now, map[], 0), false, {}, [], false)
  }

  function Loaded(row: Row): Entity {
    Entity(row, true, {}, [], false)
  }

  function ColumnOf(s: Setter): Column {
    match s
    case SetUserId(_) => UserID
    case SetExpiry(_) => Expiry
    case SetLastActivity(_) => LastActivity
    case Mutate(_) => Attributes
  }

  function ApplySetter(e: Entity, s: Setter): Entity {
    var columns := match s
      case SetUserId(id) => e.columns.(userId := id)
      case SetExpiry(t) => e.columns.(expiry := t)
      case SetLastActivity(t) => e.columns.(lastActivity := t)
      case Mutate(op) => e.columns.(attributes := ApplyOp(e.columns.attributes, op));
    e.(columns := columns,
       dirty := e.dirty + {ColumnOf(s)},
       log := if s.Mutate? then Record(e.log, s.op) else e.log)
  }

  function MarkAll(e: Entity): Entity {
    e.(dirty := ALL_COLUMNS)
  }

  predicate Guarded(dirty: set<Column>) {
    dirty * STATE_COLUMNS != {}
  }

  function TakeSnapshot(e: Entity): SessionSnapshot {
    if Guarded(e.dirty) then
      SessionSnapshot(e.columns.(version := e.columns.version + 1), e.loaded,
               e.dirty + {Version}, Some(e.columns.version))
    else
      SessionSnapshot(e.columns, e.loaded, e.dirty, None)
  }

  /** What a save leaves on the snapshot: the row now exists. */
  function AfterSave(snapshot: SessionSnapshot): SessionSnapshot {
    snapshot.(loaded := true)
  }

  function Adopt(e: Entity, row: Row): Entity {
    e.(columns := Row(
         if UserID in e.dirty then e.columns.userId else row.userId,
         if Expiry in e.dirty then e.columns.expiry else row.expiry,
         row.createdAt,
         if LastActivity in e.dirty then e.columns.lastActivity else row.lastActivity,
         Replay(row.attributes, e.log),
         row.version),
       loaded := true)
  }

  function Settle(e: Entity, snapshot: SessionSnapshot): Entity {
    e.(columns := e.columns.(version := snapshot.columns.version),
       loaded := snapshot.loaded,
       dirty := if snapshot.written == {} then {} else e.dirty - snapshot.written,
       log := if snapshot.written == {} || Attributes in snapshot.written then [] else e.log)
  }

  /** The row after an UPDATE whose SET list is `written`, the empty list meaning every column. */
  function WriteColumns(row: Row, from: Row, written: set<Column>): Row {
    if written == {} then from
    else Row(
        if UserID in written then from.userId else row.userId,
        if Expiry in written then from.expiry else row.expiry,
        if CreatedAt in written then from.createdAt else row.createdAt,
        if LastActivity in written then from.lastActivity else row.lastActivity,
        if Attributes in written then from.attributes else row.attributes,
        if Version in written then from.version else row.version)
  }

  /** The row store's save: an unloaded session is inserted, a loaded one updated under its guard. */
  function SaveRow(stored: Option<Row>, snapshot: SessionSnapshot): SaveResult {
    if !snapshot.loaded then
      if stored.Some? then Duplicate else Done(snapshot.columns)
    else if stored.None? then Gone
    else if snapshot.guard.Some? && snapshot.guard.value != stored.value.version then Conflict
    else Done(WriteColumns(stored.value, snapshot.columns, snapshot.written))
  }

  /** What every operation keeps: a log is always waiting to be written, the version never is. */
  predicate Tidy(e: Entity) {
    && (e.log != [] ==> Attributes in e.dirty)
    && Version !in e.dirty
  }

  predicate SameState(a: Row, b: Row) {
    a.userId == b.userId && a.attributes == b.attributes
  }

  // ---- What the operations promise ----

  /** A heartbeat, however stale its copy, leaves user, attributes and version alone. */
  lemma HeartbeatLeavesState(e: Entity, stored: Row)
    requires e.loaded && Tidy(e) && e.dirty != {} && !Guarded(e.dirty)
    ensures var saved := SaveRow(Some(stored), TakeSnapshot(e));
            && saved.Done?
            && SameState(saved.row, stored)
            && saved.row.version == stored.version
            && Settle(e, AfterSave(TakeSnapshot(e))).columns == e.columns
  {
    assert UserID in e.dirty ==> UserID in e.dirty * STATE_COLUMNS;
    assert Attributes in e.dirty ==> Attributes in e.dirty * STATE_COLUMNS;
  }

  /** A write of state lands only on the version it was made from, and raises it by one. */
  lemma GuardedWriteExactly(e: Entity, stored: Row)
    requires e.loaded && Guarded(e.dirty)
    ensures var saved := SaveRow(Some(stored), TakeSnapshot(e));
            && (saved.Done? <==> stored.version == e.columns.version)
            && (!saved.Done? ==> saved == Conflict)
            && (saved.Done? ==>
                  && saved.row.version == stored.version + 1
                  && saved.row.userId == (if UserID in e.dirty then e.columns.userId else stored.userId)
                  && saved.row.attributes ==
                     (if Attributes in e.dirty then e.columns.attributes else stored.attributes))
  {
  }

  /** A write that keeps the version keeps the state, and one that changes the version adds one. */
  predicate Honest(before: Row, saved: SaveResult) {
    saved.Done? ==>
      || (saved.row.version == before.version && SameState(saved.row, before))
      || saved.row.version == before.version + 1
  }

  ghost predicate HonestOnEveryRow(e: Entity) {
    forall stored: Row :: Honest(stored, SaveRow(Some(stored), TakeSnapshot(e)))
  }

  /**
   The guard protects a loaded session's writes exactly when something is marked dirty. With
   nothing marked, the snapshot asks for an unguarded write of the whole stale copy.
   */
  lemma SafeToWriteExactly(e: Entity)
    requires e.loaded && Tidy(e)
    ensures HonestOnEveryRow(e) <==> e.dirty != {}
  {
    if e.dirty == {} {
      var newer := e.columns.(version := e.columns.version + 7);
      assert SaveRow(Some(newer), TakeSnapshot(e)) == Done(e.columns);
      assert !Honest(newer, SaveRow(Some(newer), TakeSnapshot(e)));
    } else {
      forall stored: Row ensures Honest(stored, SaveRow(Some(stored), TakeSnapshot(e))) {
        if Guarded(e.dirty) {
          GuardedWriteExactly(e, stored);
        } else {
          HeartbeatLeavesState(e, stored);
        }
      }
    }
  }

  /** A conflict is only ever reported to a writer that still has state to write. */
  lemma ConflictLeavesWorkPending(e: Entity, stored: Option<Row>, reread: Row)
    requires SaveRow(stored, TakeSnapshot(e)).Conflict?
    ensures e.loaded && Guarded(e.dirty) && stored.Some? && stored.value.version != e.columns.version
    ensures Guarded(Adopt(e, reread).dirty) && Adopt(e, reread).dirty != {}
  {
  }

  /** Retrying on the row just re-read lands, and leaves both writers' changes in it. */
  lemma RetryLandsOnRereadRow(e: Entity, stored: Row)
    requires Guarded(e.dirty)
    ensures var saved := SaveRow(Some(stored), TakeSnapshot(Adopt(e, stored)));
            && saved.Done?
            && saved.row.version == stored.version + 1
            && saved.row.attributes ==
               (if Attributes in e.dirty then Replay(stored.attributes, e.log) else stored.attributes)
            && saved.row.userId == (if UserID in e.dirty then e.columns.userId else stored.userId)
  {
  }

  /** Reading the same row twice is reading it once. */
  lemma AdoptIdempotent(e: Entity, row: Row)
    ensures Adopt(Adopt(e, row), row) == Adopt(e, row)
  {
  }

  function SetAll(e: Entity, setters: seq<Setter>): Entity {
    if setters == [] then e else ApplySetter(SetAll(e, setters[..|setters| - 1]), setters[|setters| - 1])
  }

  lemma AdoptThenSet(e: Entity, row: Row, s: Setter)
    ensures Adopt(ApplySetter(e, s), row) == ApplySetter(Adopt(e, row), s)
  {
    if s.Mutate? {
      RecordKeepsEffect(row.attributes, e.log, s.op);
    }
  }

  /**
   Adopting a re-read row rebases the session: whatever was set on the copy of an older row, the result is
   that of setting it on the row just read.
   */
  lemma {:induction false} AdoptRebases(older: Row, row: Row, setters: seq<Setter>)
    ensures Adopt(SetAll(Loaded(older), setters), row) == SetAll(Loaded(row), setters)
  {
    if setters != [] {
      AdoptRebases(older, row, setters[..|setters| - 1]);
      AdoptThenSet(SetAll(Loaded(older), setters[..|setters| - 1]), row, setters[|setters| - 1]);
    }
  }

  /** A successful write leaves nothing to write: it carried all that was left behind before it, and nothing else. */
  lemma SuccessfulWriteCarriesEverything(e: Entity, stored: Option<Row>)
    requires Tidy(e) && SaveRow(stored, TakeSnapshot(e)).Done?
    ensures var settled := Settle(e, AfterSave(TakeSnapshot(e)));
            && settled.dirty == {} && settled.log == [] && settled.loaded
            && settled.columns.version == TakeSnapshot(e).columns.version
    ensures var row := SaveRow(stored, TakeSnapshot(e)).row;
            && (UserID in e.dirty ==> row.userId == e.columns.userId)
            && (Expiry in e.dirty ==> row.expiry == e.columns.expiry)
            && (LastActivity in e.dirty ==> row.lastActivity == e.columns.lastActivity)
            && (Attributes in e.dirty ==> row.attributes == e.columns.attributes)
            && (CreatedAt in e.dirty ==> row.createdAt == e.columns.createdAt)
    ensures var row := SaveRow(stored, TakeSnapshot(e)).row;
            e.loaded && e.dirty != {} ==>
              && stored.Some?
              && (UserID !in e.dirty ==> row.userId == stored.value.userId)
              && (Expiry !in e.dirty ==> row.expiry == stored.value.expiry)
              && (LastActivity !in e.dirty ==> row.lastActivity == stored.value.lastActivity)
              && (Attributes !in e.dirty ==> row.attributes == stored.value.attributes)
              && (CreatedAt !in e.dirty ==> row.createdAt == stored.value.createdAt)
  {
  }

  /**
   A setter that lands between the snapshot and the settling of its write is still going to be
   written exactly when the snapshot named some column and not this one. Otherwise its mark is
   erased by a write that never carried it.
   */
  lemma LateSetterSurvivesExactly(e: Entity, s: Setter)
    requires Tidy(e)
    ensures var late := Settle(ApplySetter(e, s), AfterSave(TakeSnapshot(e)));
            (ColumnOf(s) in late.dirty <==> e.dirty != {} && ColumnOf(s) !in e.dirty)
    ensures var late := Settle(ApplySetter(e, s), AfterSave(TakeSnapshot(e)));
            s.Mutate? && Attributes in late.dirty ==> late.log == [s.op]
  {
  }

  lemma TidyKept(e: Entity, s: Setter, row: Row)
    requires Tidy(e)
    ensures Tidy(ApplySetter(e, s)) && Tidy(MarkAll(e)) && Tidy(Adopt(e, row))
    ensures Tidy(Settle(e, AfterSave(TakeSnapshot(e))))
  {
  }

  // ---- The object ----

  class DbSessionEntity {
    var userId: string
    var expiry: int
    var createdAt: int
    var lastActivity: int
    var attributes: Bag
    var version: int
    var isLoaded: bool
    var dirty: set<Column>
    var attrOps: seq<AttributeOp>
    var pendingErr: bool

    function View(): Entity
      reads this
    {
      Entity(Row(userId, expiry, createdAt, lastActivity, attributes, version),
             isLoaded, dirty, attrOps, pendingErr)
    }

    constructor Minted(userId: string, expiry: int, now: int)
      ensures View() == Fresh(userId, expiry, now)
      ensures version == 0 && createdAt == lastActivity == now && !isLoaded && dirty == {} && attributes == map[]
    {
      this.userId, this.expiry, createdAt, lastActivity := userId, expiry, now, now;
      attributes, version, isLoaded := map[], 0, false;
      dirty, attrOps, pendingErr := {}, [], false;
    }

    constructor FromRow(row: Row)
      ensures View() == Loaded(row)
    {
      userId, expiry, createdAt, lastActivity := row.userId, row.expiry, row.createdAt, row.lastActivity;
      attributes, version, isLoaded := row.attributes, row.version, true;
      dirty, attrOps, pendingErr := {}, [], false;
    }

    method NotePersistFailure()
      modifies this`pendingErr
      ensures View() == old(View()).(pendingErr := true)
    {
      pendingErr := true;
    }

    method NotePersistSuccess()
      modifies this`pendingErr
      ensures View() == old(View()).(pendingErr := false)
    {
      pendingErr := false;
    }

    method MarkDirty(column: Column)
      modifies this`dirty
      ensures View() == old(View()).(dirty := old(dirty) + {column})
    {
      dirty := dirty + {column};
    }

    method RecordAttributeOp(op: AttributeOp)
      modifies this`dirty, this`attrOps
      ensures View() == old(View()).(dirty := old(dirty) + {Attributes}, log := Record(old(attrOps), op))
    {
      MarkDirty(Attributes);
      if op.OpClearAll? {
        attrOps := [];
      }
      attrOps := attrOps + [op];
    }

    method SetUserId(id: string)
      modifies this
      ensures View() == ApplySetter(old(View()), Setter.SetUserId(id))
    {
      userId := id;
      MarkDirty(UserID);
    }

    method SetExpiry(t: int)
      modifies this
      ensures View() == ApplySetter(old(View()), Setter.SetExpiry(t))
    {
      expiry := t;
      MarkDirty(Expiry);
    }

    method SetLastActivity(t: int)
      modifies this
      ensures View() == ApplySetter(old(View()), Setter.SetLastActivity(t))
    {
      lastActivity := t;
      MarkDirty(LastActivity);
    }

    method SetItem(key: string, value: string)
      modifies this
      ensures View() == ApplySetter(old(View()), Mutate(OpSet(key, value)))
    {
      attributes := attributes[key := value];
      RecordAttributeOp(OpSet(key, value));
    }

    method GetItem(key: string) returns (value: string)
      ensures value == match Lookup(attributes, key) case Present(v) => v case _ => ""
    {
      if key in attributes {
        return attributes[key];
      }
      return "";
    }

    method ClearItem(key: string)
      modifies this
      ensures View() == ApplySetter(old(View()), Mutate(OpClear(key)))
    {
      attributes := attributes - {key};
      RecordAttributeOp(OpClear(key));
    }

    method ClearItems()
      modifies this
      ensures View() == ApplySetter(old(View()), Mutate(OpClearAll))
    {
      attributes := map[];
      RecordAttributeOp(OpClearAll);
    }

    method MarkAllDirty()
      modifies this`dirty
      ensures View() == MarkAll(old(View()))
    {
      dirty := {UserID, Expiry, CreatedAt, LastActivity, Attributes};
    }

    method HasPendingWrite() returns (pending: bool)
      ensures pending <==> View().dirty != {}
    {
      pending := dirty != {};
    }

    /** The copy to write: only the marked columns, under a guard when one of them is state. */
    method Snapshot() returns (snapshot: SessionSnapshot)
      ensures snapshot == TakeSnapshot(View())
    {
      var columns := Row(userId, expiry, createdAt, lastActivity, attributes, version);
      var written: set<Column> := {};
      var guarded := false;
      var todo := dirty;
      while todo != {}
        invariant todo <= dirty && written == dirty - todo
        invariant guarded <==> Guarded(written)
        decreases todo
      {
        var column :| column in todo;
        todo := todo - {column};
        assert (written + {column}) * STATE_COLUMNS == written * STATE_COLUMNS + {column} * STATE_COLUMNS;
        written := written + {column};
        if column in STATE_COLUMNS {
          assert column in written * STATE_COLUMNS;
          guarded := true;
        } else {
          assert {column} * STATE_COLUMNS == {};
        }
      }
      var guard: Option<int> := None;
      if guarded {
        columns := columns.(version := version + 1);
        written := written + {Version};
        guard := Some(version);
      }
      return SessionSnapshot(columns, isLoaded, written, guard);
    }

    method ReplayAttributeOps()
      modifies this`attributes
      ensures View() == old(View()).(columns := old(View()).columns.(
                attributes := Replay(old(attributes), attrOps)))
    {
      var i, ops := 0, attrOps;
      while i < |ops|
        invariant 0 <= i <= |ops|
        invariant attributes == Replay(old(attributes), ops[..i])
      {
        assert ops[..i + 1][..i] == ops[..i];
        match ops[i] {
          case OpSet(key, value) => attributes := attributes[key := value];
          case OpClear(key) => attributes := attributes - {key};
          case OpClearAll => attributes := map[];
        }
        i := i + 1;
      }
      assert ops[..i] == ops;
    }

    method AdoptPersistedState(row: DbSessionEntity?)
      modifies this
      ensures row == null ==> View() == old(View())
      ensures row != null ==> View() == Adopt(old(View()), old(row.View().columns))
    {
      if row == null {
        return;
      }
      var columns := row.View().columns;
      if UserID !in dirty {
        userId := columns.userId;
      }
      if Expiry !in dirty {
        expiry := columns.expiry;
      }
      if LastActivity !in dirty {
        lastActivity := columns.lastActivity;
      }
      createdAt := columns.createdAt;
      version := columns.version;
      isLoaded := true;
      attributes := columns.attributes;
      ReplayAttributeOps();
    }

    method AdoptPersistedMeta(snapshot: SessionSnapshot)
      modifies this
      ensures View() == Settle(old(View()), snapshot)
    {
      isLoaded := snapshot.loaded;
      version := snapshot.columns.version;
      if snapshot.written == {} {
        dirty := {};
        attrOps := [];
        return;
      }
      var todo := snapshot.written;
      while todo != {}
        invariant todo <= snapshot.written
        invariant dirty == old(dirty) - (snapshot.written - todo)
        invariant View() == old(View()).(dirty := dirty, loaded := snapshot.loaded,
                    columns := old(View()).columns.(version := snapshot.columns.version))
        decreases todo
      {
        var column :| column in todo;
        todo := todo - {column};
        dirty := dirty - {column};
      }
      if Attributes in snapshot.written {
        attrOps := [];
      }
    }
  }
}
