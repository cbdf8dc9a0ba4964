/**
 Any number of live session objects, in any number of processes, over one stored row.

 A step is one thing a process does between two points where another may interleave: a setter,
 taking a snapshot, the store's save, copying the outcome back, reading the row, adopting it.
 Two hypotheses are built into the steps, and SessionEntity.LateSetterSurvivesExactly and
 SafeToWriteExactly say what happens without them: no setter lands between the snapshot and the
 settling of its own object's write, and a loaded object is written only when something is marked.
 The id is fresh, so one object is minted under it. A store call may fail, with no effect.
 */
module SessionProtocol {
  import opened AttributeLog
  import opened Options
  import opened SessionEntity

  datatype State = State(userId: string, attributes: Bag)

  function StateOf(row: Row): State {
    State(row.userId, row.attributes)
  }

  datatype Phase = Idle | Saving(snapshot: SessionSnapshot) | Saved(snapshot: SessionSnapshot) | HaveRow(row: Row)

  /** `issued` are the attribute mutations made on this object and not yet committed, all of them. */
  datatype Actor = Actor(entity: Entity, phase: Phase, issued: seq<AttributeOp>)

  /** What an observer of the row writes down: every state it has held, the first under `base`. */
  datatype Book = Book(base: int, history: seq<State>, inserts: nat, minter: Option<nat>)

  datatype Sys = Sys(row: Option<Row>, removed: bool, actors: map<nat, Actor>, book: Book,
                     committed: seq<AttributeOp>)

  datatype Event =
    | Mint(a: nat, userId: string, expiry: int, now: int)
    | Load(a: nat)
    | Set(a: nat, setter: Setter)
    | MarkEverything(a: nat)
    | Snap(a: nat)
    | Save(a: nat)
    | SaveFails(a: nat)
    | Copyback(a: nat)
    | Read(a: nat)
    | AdoptRow(a: nat)
    | Drop(a: nat)
    | Delete

  const INITIAL := Sys(None, false, map[], Book(0, [], 0, None), [])

  predicate Enabled(s: Sys, ev: Event) {
    match ev
    case Mint(a, _, _, _) => a !in s.actors && s.book.minter.None?
    case Load(a) => a !in s.actors && s.row.Some?
    case Set(a, _) => a in s.actors && (s.actors[a].phase.Idle? || s.actors[a].phase.HaveRow?)
    case MarkEverything(a) => a in s.actors && s.actors[a].phase.Idle?
    case Snap(a) =>
      && a in s.actors && s.actors[a].phase.Idle?
      && (s.actors[a].entity.loaded ==> s.actors[a].entity.dirty != {})
    case Save(a) => a in s.actors && s.actors[a].phase.Saving?
    case SaveFails(a) => a in s.actors && s.actors[a].phase.Saving?
    case Copyback(a) => a in s.actors && s.actors[a].phase.Saved?
    case Read(a) => a in s.actors && s.actors[a].phase.Idle? && s.actors[a].entity.loaded && s.row.Some?
    case AdoptRow(a) => a in s.actors && s.actors[a].phase.HaveRow?
    case Drop(a) => a in s.actors
    case Delete => true
  }

  function With(s: Sys, a: nat, actor: Actor): Sys {
    s.(actors := s.actors[a := actor])
  }

  function NextSave(s: Sys, a: nat): Sys
    requires Enabled(s, Save(a))
  {
    var actor := s.actors[a];
    var snapshot := actor.phase.snapshot;
    match SaveRow(s.row, snapshot)
    case Done(row) =>
      var ops := if snapshot.loaded && Attributes in snapshot.written then actor.issued else [];
      Sys(Some(row), s.removed,
          s.actors[a := Actor(actor.entity, Saved(AfterSave(snapshot)), [])],
          WriteDown(s.book, s.row, row),
          s.committed + ops)
    case _ => With(s, a, actor.(phase := Idle))
  }

  /** An insert starts the history; an update that changes the state or the version extends it. */
  function WriteDown(book: Book, before: Option<Row>, after: Row): Book {
    if before.None? then
      book.(base := after.version, history := [StateOf(after)], inserts := book.inserts + 1)
    else if before.value.version == after.version && SameState(before.value, after) then book
    else book.(history := book.history + [StateOf(after)])
  }

  function Next(s: Sys, ev: Event): Sys
    requires Enabled(s, ev)
  {
    match ev
    case Mint(a, userId, expiry, now) =>
      With(s, a, Actor(Fresh(userId, expiry, now), Idle, [])).(book := s.book.(minter := Some(a)))
    case Load(a) => With(s, a, Actor(Loaded(s.row.value), Idle, []))
    case Set(a, setter) =>
      var actor := s.actors[a];
      With(s, a, actor.(entity := ApplySetter(actor.entity, setter),
                        issued := if setter.Mutate? then actor.issued + [setter.op] else actor.issued))
    case MarkEverything(a) => With(s, a, s.actors[a].(entity := MarkAll(s.actors[a].entity)))
    case Snap(a) => With(s, a, s.actors[a].(phase := Saving(TakeSnapshot(s.actors[a].entity))))
    case Save(a) => NextSave(s, a)
    case SaveFails(a) => With(s, a, s.actors[a].(phase := Idle))
    case Copyback(a) =>
      var actor := s.actors[a];
      With(s, a, actor.(entity := Settle(actor.entity, actor.phase.snapshot), phase := Idle))
    case Read(a) => With(s, a, s.actors[a].(phase := HaveRow(s.row.value)))
    case AdoptRow(a) =>
      var actor := s.actors[a];
      With(s, a, actor.(entity := Adopt(actor.entity, actor.phase.row), phase := Idle))
    case Drop(a) => s.(actors := s.actors - {a})
    case Delete => s.(row := None, removed := s.removed || s.row.Some?)
  }

  // ---- The invariant ----

  predicate Knows(book: Book, version: int) {
    book.base <= version < book.base + |book.history|
  }

  function At(book: Book, version: int): State
    requires Knows(book, version)
  {
    book.history[version - book.base]
  }

  /** The object holds its log replayed on the state of the version it believes it holds. */
  ghost predicate EntityOk(book: Book, e: Entity) {
    && Tidy(e)
    && (e.loaded ==>
          && Knows(book, e.columns.version)
          && e.columns.attributes == Replay(At(book, e.columns.version).attributes, e.log)
          && (UserID !in e.dirty ==> e.columns.userId == At(book, e.columns.version).userId))
  }

  ghost predicate LogOk(actor: Actor) {
    && SameEffect(actor.entity.log, actor.issued)
    && (Attributes !in actor.entity.dirty ==> actor.issued == [])
  }

  ghost predicate PhaseOk(book: Book, actor: Actor) {
    match actor.phase
    case Idle => LogOk(actor)
    case Saving(snapshot) =>
      && LogOk(actor)
      && snapshot == TakeSnapshot(actor.entity)
      && (actor.entity.loaded ==> actor.entity.dirty != {})
    case Saved(snapshot) =>
      && actor.issued == []
      && snapshot == AfterSave(TakeSnapshot(actor.entity))
      && Knows(book, snapshot.columns.version)
      && StateOf(snapshot.columns) == At(book, snapshot.columns.version)
    case HaveRow(row) =>
      && LogOk(actor)
      && Knows(book, row.version)
      && StateOf(row) == At(book, row.version)
  }

  ghost predicate ActorOk(book: Book, a: nat, actor: Actor) {
    && EntityOk(book, actor.entity)
    && PhaseOk(book, actor)
    && (!actor.entity.loaded ==>
          && book.minter == Some(a)
          && (book.inserts > 0 ==> actor.phase.Saved?))
  }

  predicate BookOk(book: Book) {
    && book.inserts <= 1
    && (book.inserts == 1 <==> book.history != [])
    && (book.inserts == 1 ==> book.minter.Some?)
  }

  /** The row is the last state written down, under its version, and is the first with every commit replayed. */
  predicate RowOk(s: Sys) {
    && (s.book.inserts == 0 ==> s.row.None? && s.committed == [])
    && (s.removed ==> s.row.None? && s.book.inserts == 1)
    && (s.row.None? && s.book.inserts == 1 ==> s.removed)
    && (s.row.Some? ==>
          && s.book.history != []
          && s.row.value.version == s.book.base + |s.book.history| - 1
          && StateOf(s.row.value) == s.book.history[|s.book.history| - 1]
          && s.row.value.attributes == Replay(s.book.history[0].attributes, s.committed))
  }

  ghost predicate Inv(s: Sys) {
    && BookOk(s.book)
    && RowOk(s)
    && forall a :: a in s.actors ==> ActorOk(s.book, a, s.actors[a])
  }

  lemma InitialInv()
    ensures Inv(INITIAL)
  {
  }

  /** Writing more history down takes nothing away from an object that was right before. */
  lemma ActorOkExtends(before: Book, after: Book, a: nat, actor: Actor)
    requires ActorOk(before, a, actor) && before.base == after.base
    requires before.history <= after.history && before.inserts == after.inserts && before.minter == after.minter
    ensures ActorOk(after, a, actor)
  {
  }

  // ---- Every step keeps it ----

  /** Recording one more mutation keeps the log equivalent to everything issued. */
  lemma MutationKeepsEffect(log: seq<AttributeOp>, issued: seq<AttributeOp>, op: AttributeOp)
    requires SameEffect(log, issued)
    ensures SameEffect(AttributeLog.Record(log, op), issued + [op])
  {
  }

  lemma SetterKeepsEntity(book: Book, e: Entity, setter: Setter)
    requires EntityOk(book, e)
    ensures EntityOk(book, ApplySetter(e, setter))
  {
  }

  lemma SetKeeps(s: Sys, a: nat, setter: Setter)
    requires Inv(s) && Enabled(s, Set(a, setter))
    ensures Inv(Next(s, Set(a, setter)))
  {
    var actor := s.actors[a];
    assert ActorOk(s.book, a, actor);
    var next := Next(s, Set(a, setter)).actors[a];
    SetterKeepsEntity(s.book, actor.entity, setter);
    if setter.Mutate? {
      MutationKeepsEffect(actor.entity.log, actor.issued, setter.op);
    }
    assert LogOk(next);
    assert ActorOk(s.book, a, next);
  }

  /** Before the insert, the minted object is alone. */
  lemma AloneBeforeInsert(s: Sys)
    requires Inv(s) && s.book.inserts == 0
    ensures forall b :: b in s.actors ==> s.book.minter == Some(b) && !s.actors[b].entity.loaded
  {
  }

  lemma SaveKeeps(s: Sys, a: nat)
    requires Inv(s) && Enabled(s, Save(a))
    ensures Inv(Next(s, Save(a)))
  {
    var actor := s.actors[a];
    var snapshot := actor.phase.snapshot;
    var next := Next(s, Save(a));
    if SaveRow(s.row, snapshot).Done? {
      assert ActorOk(s.book, a, actor);
      if snapshot.loaded {
        LoadedSaveKeeps(s, a);
        forall b | b in s.actors && b != a ensures ActorOk(next.book, b, s.actors[b]) {
          ActorOkExtends(s.book, next.book, b, s.actors[b]);
        }
      } else {
        AloneBeforeInsert(s);
        assert s.actors.Keys == {a};
        assert ActorOk(next.book, a, next.actors[a]);
      }
    }
  }

  /** A state write lands on the last state written down, and adds the one after it. */
  lemma GuardedSaveKeeps(s: Sys, a: nat)
    requires Inv(s) && Enabled(s, Save(a)) && Guarded(s.actors[a].entity.dirty)
    requires s.actors[a].phase.snapshot.loaded && SaveRow(s.row, s.actors[a].phase.snapshot).Done?
    ensures var next := Next(s, Save(a));
            && next.row.Some?
            && next.row.value.version == s.row.value.version + 1
            && StateOf(next.row.value) == StateOf(s.actors[a].phase.snapshot.columns)
            && next.row.value.attributes == Replay(s.book.history[0].attributes, next.committed)
            && next.book == s.book.(history := s.book.history + [StateOf(next.row.value)])
  {
    var actor := s.actors[a];
    var e, row := actor.entity, s.row.value;
    assert ActorOk(s.book, a, actor);
    GuardedWriteExactly(e, row);
    assert Replay(row.attributes, e.log) == Replay(row.attributes, actor.issued);
    ReplayConcat(s.book.history[0].attributes, s.committed, actor.issued);
    assert s.committed + [] == s.committed;
  }

  lemma HeartbeatSaveKeeps(s: Sys, a: nat)
    requires Inv(s) && Enabled(s, Save(a)) && !Guarded(s.actors[a].entity.dirty)
    requires s.actors[a].phase.snapshot.loaded && SaveRow(s.row, s.actors[a].phase.snapshot).Done?
    ensures var next := Next(s, Save(a));
            && next.row.Some?
            && next.row.value.version == s.row.value.version
            && StateOf(next.row.value) == StateOf(s.row.value)
            && next.committed == s.committed && next.book == s.book
    ensures Knows(s.book, s.actors[a].entity.columns.version)
    ensures StateOf(s.actors[a].entity.columns) == At(s.book, s.actors[a].entity.columns.version)
  {
    var e := s.actors[a].entity;
    assert ActorOk(s.book, a, s.actors[a]);
    HeartbeatLeavesState(e, s.row.value);
    assert Attributes in e.dirty ==> Attributes in e.dirty * STATE_COLUMNS;
    assert UserID in e.dirty ==> UserID in e.dirty * STATE_COLUMNS;
    assert s.committed + [] == s.committed;
  }

  lemma LoadedSaveKeeps(s: Sys, a: nat)
    requires Inv(s) && Enabled(s, Save(a))
    requires s.actors[a].phase.snapshot.loaded && SaveRow(s.row, s.actors[a].phase.snapshot).Done?
    ensures var next := Next(s, Save(a));
            && BookOk(next.book) && RowOk(next)
            && ActorOk(next.book, a, next.actors[a])
            && s.book.history <= next.book.history
            && next.book == s.book.(history := next.book.history)
  {
    assert ActorOk(s.book, a, s.actors[a]);
    if Guarded(s.actors[a].entity.dirty) {
      GuardedSaveKeeps(s, a);
      var next := Next(s, Save(a));
      assert EntityOk(next.book, s.actors[a].entity);
    } else {
      HeartbeatSaveKeeps(s, a);
    }
  }

  lemma CopybackKeeps(s: Sys, a: nat)
    requires Inv(s) && Enabled(s, Copyback(a))
    ensures Inv(Next(s, Copyback(a)))
  {
    var e := s.actors[a].entity;
    TidyKept(e, SetExpiry(0), e.columns);
    var settled := Settle(e, AfterSave(TakeSnapshot(e)));
    assert settled.dirty == {} && settled.log == [] by {
      assert e.dirty - TakeSnapshot(e).written == {};
    }
    assert SameEffect([], []);
    assert ActorOk(s.book, a, Next(s, Copyback(a)).actors[a]);
  }

  lemma AdoptKeeps(s: Sys, a: nat)
    requires Inv(s) && Enabled(s, AdoptRow(a))
    ensures Inv(Next(s, AdoptRow(a)))
  {
    TidyKept(s.actors[a].entity, SetExpiry(0), s.actors[a].phase.row);
    assert ActorOk(s.book, a, Next(s, AdoptRow(a)).actors[a]);
  }

  lemma NewObjectKeeps(s: Sys, ev: Event)
    requires Inv(s) && Enabled(s, ev) && (ev.Load? || ev.Mint?)
    ensures Inv(Next(s, ev))
  {
  }

  lemma StepKeepsInv(s: Sys, ev: Event)
    requires Inv(s) && Enabled(s, ev)
    ensures Inv(Next(s, ev))
  {
    match ev
    case Mint(_, _, _, _) => NewObjectKeeps(s, ev);
    case Load(_) => NewObjectKeeps(s, ev);
    case Set(a, setter) => SetKeeps(s, a, setter);
    case Save(a) => SaveKeeps(s, a);
    case Copyback(a) => CopybackKeeps(s, a);
    case AdoptRow(a) => AdoptKeeps(s, a);
    case MarkEverything(a) => assert ActorOk(s.book, a, Next(s, ev).actors[a]);
    case _ =>
  }

  // ---- What one step does to the row ----

  /**
   A step that changes the stored user id or attributes is a store write, and raises the version
   by exactly one; a step that leaves the version alone leaves both alone.
   */
  lemma StateChangesRaiseVersion(s: Sys, ev: Event)
    requires Inv(s) && Enabled(s, ev)
    ensures var next := Next(s, ev);
            s.row.Some? && next.row.Some? ==>
              && (StateOf(next.row.value) != StateOf(s.row.value) ==>
                    ev.Save? && next.row.value.version == s.row.value.version + 1)
              && (next.row.value.version != s.row.value.version ==>
                    next.row.value.version == s.row.value.version + 1)
  {
    if ev.Save? && s.row.Some? && Next(s, ev).row.Some? {
      var actor := s.actors[ev.a];
      assert ActorOk(s.book, ev.a, actor);
      if SaveRow(s.row, actor.phase.snapshot).Done? {
        if Guarded(actor.entity.dirty) {
          GuardedSaveKeeps(s, ev.a);
        } else {
          HeartbeatSaveKeeps(s, ev.a);
        }
      }
    }
  }

  /** A save that lands replays exactly its writer's uncommitted mutations onto the stored bag. */
  lemma CommitReplaysTheWritersLog(s: Sys, a: nat)
    requires Inv(s) && Enabled(s, Save(a)) && s.row.Some?
    requires SaveRow(s.row, s.actors[a].phase.snapshot).Done?
    ensures var next := Next(s, Save(a));
            && next.row.Some?
            && next.row.value.attributes == Replay(s.row.value.attributes, s.actors[a].issued)
            && next.committed == s.committed + s.actors[a].issued
            && next.actors[a].issued == []
  {
    var actor := s.actors[a];
    assert ActorOk(s.book, a, actor);
    assert Replay(s.row.value.attributes, actor.entity.log) == Replay(s.row.value.attributes, actor.issued);
    if Guarded(actor.entity.dirty) {
      GuardedWriteExactly(actor.entity, s.row.value);
    } else {
      HeartbeatLeavesState(actor.entity, s.row.value);
      assert Attributes in actor.entity.dirty ==> Attributes in actor.entity.dirty * STATE_COLUMNS;
    }
  }

  /** A stale writer of state is refused, however it came to be stale. */
  lemma StaleWriterRefused(s: Sys, a: nat)
    requires Inv(s) && Enabled(s, Save(a)) && s.actors[a].entity.loaded
    requires Guarded(s.actors[a].entity.dirty)
    requires s.row.Some? ==> s.row.value.version != s.actors[a].entity.columns.version
    ensures Next(s, Save(a)).row == s.row
    ensures SaveRow(s.row, s.actors[a].phase.snapshot) == (if s.row.Some? then Conflict else Gone)
  {
  }

  // ---- Whole runs ----

  predicate Legal(s: Sys, run: seq<Event>)
    decreases |run|
  {
    run == [] || (Enabled(s, run[0]) && Legal(Next(s, run[0]), run[1..]))
  }

  function After(s: Sys, run: seq<Event>): Sys
    requires Legal(s, run)
    decreases |run|
  {
    if run == [] then s else After(Next(s, run[0]), run[1..])
  }

  /** What a later state of a run keeps of an earlier one. */
  predicate Later(s: Sys, t: Sys) {
    && s.committed <= t.committed
    && (s.removed ==> t.removed)
    && (s.book.inserts == 1 ==>
          t.book.inserts == 1 && t.book.base == s.book.base && s.book.history <= t.book.history)
  }

  lemma StepIsLater(s: Sys, ev: Event)
    requires Inv(s) && Enabled(s, ev)
    ensures Later(s, Next(s, ev))
  {
    if ev.Save? {
      assert ActorOk(s.book, ev.a, s.actors[ev.a]);
    }
  }

  lemma {:induction false} RunKeepsInv(s: Sys, run: seq<Event>)
    requires Inv(s) && Legal(s, run)
    ensures Inv(After(s, run)) && Later(s, After(s, run))
    decreases |run|
  {
    if run != [] {
      StepKeepsInv(s, run[0]);
      StepIsLater(s, run[0]);
      RunKeepsInv(Next(s, run[0]), run[1..]);
    }
  }

  /**
   In every run, the stored bag is the bag of the insert with every committed writer's mutations
   replayed in commit order, and each key holds what the last committed mutation of it said.
   */
  lemma StoredBagIsCommitsInOrder(run: seq<Event>, key: string)
    requires Legal(INITIAL, run) && After(INITIAL, run).row.Some?
    ensures var s := After(INITIAL, run);
            && s.book.history != []
            && var first := s.book.history[0].attributes;
            && s.row.value.attributes == Replay(first, s.committed)
            && Lookup(s.row.value.attributes, key) ==
               if LastWord(s.committed, key).Untouched? then Lookup(first, key) else LastWord(s.committed, key)
  {
    InitialInv();
    RunKeepsInv(INITIAL, run);
    var s := After(INITIAL, run);
    ReplayLookup(s.book.history[0].attributes, s.committed, key);
  }

  lemma {:induction false} LastWordConcat(first: seq<AttributeOp>, second: seq<AttributeOp>, key: string)
    ensures LastWord(first + second, key) ==
            if LastWord(second, key).Untouched? then LastWord(first, key) else LastWord(second, key)
  {
    if second == [] {
      assert first + second == first;
    } else {
      var init := second[..|second| - 1];
      assert (first + second)[..|first + second| - 1] == first + init;
      LastWordConcat(first, init, key);
    }
  }

  /** The mutations committed between two states of a run. */
  function CommittedSince(s: Sys, t: Sys): seq<AttributeOp> {
    if |s.committed| <= |t.committed| then t.committed[|s.committed|..] else []
  }

  /** A key a committed writer cleared stays out of the row until a later commit sets it. */
  lemma ClearedKeyStaysCleared(run: seq<Event>, more: seq<Event>, key: string)
    requires Legal(INITIAL, run) && Legal(After(INITIAL, run), more)
    requires var s, t := After(INITIAL, run), After(After(INITIAL, run), more);
             && LastWord(s.committed, key) == Absent
             && t.row.Some?
             && !LastWord(CommittedSince(s, t), key).Present?
    ensures key !in After(After(INITIAL, run), more).row.value.attributes
  {
    InitialInv();
    RunKeepsInv(INITIAL, run);
    var s, t := After(INITIAL, run), After(After(INITIAL, run), more);
    RunKeepsInv(s, more);
    assert t.committed == s.committed + CommittedSince(s, t);
    LastWordConcat(s.committed, CommittedSince(s, t), key);
    ReplayLookup(t.book.history[0].attributes, t.committed, key);
  }

  /** Over a whole run, a version names one user id and one bag, and versions only go up. */
  lemma VersionNamesOneState(run: seq<Event>, more: seq<Event>)
    requires Legal(INITIAL, run) && Legal(After(INITIAL, run), more)
    requires After(INITIAL, run).row.Some? && After(After(INITIAL, run), more).row.Some?
    ensures var early, late := After(INITIAL, run).row.value, After(After(INITIAL, run), more).row.value;
            && early.version <= late.version
            && (early.version == late.version ==> StateOf(early) == StateOf(late))
  {
    InitialInv();
    RunKeepsInv(INITIAL, run);
    RunKeepsInv(After(INITIAL, run), more);
  }

  /** Every object in every run holds its own log replayed on the state of the version it holds. */
  lemma ObjectsHoldTheirVersion(run: seq<Event>, a: nat)
    requires Legal(INITIAL, run) && a in After(INITIAL, run).actors
    requires After(INITIAL, run).actors[a].entity.loaded
    ensures var s := After(INITIAL, run);
            var e := s.actors[a].entity;
            && Knows(s.book, e.columns.version)
            && e.columns.attributes == Replay(At(s.book, e.columns.version).attributes, e.log)
            && (UserID !in e.dirty ==> e.columns.userId == At(s.book, e.columns.version).userId)
  {
    InitialInv();
    RunKeepsInv(INITIAL, run);
    assert ActorOk(After(INITIAL, run).book, a, After(INITIAL, run).actors[a]);
  }

  /** Once anybody has deleted the row, nothing any object does ever puts it back. */
  lemma DeletedRowNeverReturns(run: seq<Event>, more: seq<Event>)
    requires Legal(INITIAL, run) && Legal(After(INITIAL, run), more)
    requires After(INITIAL, run).removed
    ensures After(After(INITIAL, run), more).row.None?
    ensures After(After(INITIAL, run), more).book.inserts == 1
  {
    InitialInv();
    RunKeepsInv(INITIAL, run);
    RunKeepsInv(After(INITIAL, run), more);
  }

  /** Only the minted object's first write can make a row where there was none. */
  lemma OnlyTheFirstWriteInserts(run: seq<Event>, ev: Event)
    requires Legal(INITIAL, run) && Enabled(After(INITIAL, run), ev)
    requires After(INITIAL, run).row.None? && Next(After(INITIAL, run), ev).row.Some?
    ensures var s := After(INITIAL, run);
            && ev.Save?
            && s.book.minter == Some(ev.a)
            && !s.actors[ev.a].entity.loaded
            && s.book.inserts == 0 && !s.removed
  {
    InitialInv();
    RunKeepsInv(INITIAL, run);
    var s := After(INITIAL, run);
    if ev.Save? {
      assert ActorOk(s.book, ev.a, s.actors[ev.a]);
    }
  }

  /**
   The hypothesis on setters is needed: on this object the setter lands between the snapshot of a
   first mutation and its settling, and the row's bag is then not what the object holds although
   the object has nothing left to write.
   */
  lemma LateSetterIsLost(e: Entity, row: Row)
    requires e == ApplySetter(Loaded(row), Mutate(OpSet("cart", "1")))
    ensures var late := Settle(ApplySetter(e, Mutate(OpSet("mfa", "1"))), AfterSave(TakeSnapshot(e)));
            var saved := SaveRow(Some(row), TakeSnapshot(e));
            && saved.Done?
            && late.columns.version == saved.row.version
            && late.dirty == {} && late.log == []
            && ("mfa" !in row.attributes ==> late.columns.attributes != saved.row.attributes)
  {
    var late := Settle(ApplySetter(e, Mutate(OpSet("mfa", "1"))), AfterSave(TakeSnapshot(e)));
    assert "mfa" != "cart" by { assert "mfa"[0] != "cart"[0]; }
    assert "mfa" in late.columns.attributes;
    assert late.dirty == {};
  }

  // ---- A writer nobody interferes with ----

  lemma Then(s: Sys, ev: Event, rest: seq<Event>)
    requires Enabled(s, ev) && Legal(Next(s, ev), rest)
    ensures Legal(s, [ev] + rest) && After(s, [ev] + rest) == After(Next(s, ev), rest)
  {
    assert ([ev] + rest)[1..] == rest;
  }

  lemma Nothing(s: Sys, a: nat)
    requires a in s.actors
    ensures With(s, a, s.actors[a]) == s
  {
    assert s.actors[a := s.actors[a]] == s.actors;
  }

  /** A write that is refused, and one whose call fails, leave everything as it was, the object included. */
  lemma RefusedChangesNothing(s: Sys, a: nat)
    requires Enabled(s, Snap(a))
    ensures Legal(s, [Snap(a), SaveFails(a)]) && After(s, [Snap(a), SaveFails(a)]) == s
    ensures !SaveRow(s.row, TakeSnapshot(s.actors[a].entity)).Done? ==>
      Legal(s, [Snap(a), Save(a)]) && After(s, [Snap(a), Save(a)]) == s
  {
    var snapped := Next(s, Snap(a));
    Nothing(s, a);
    assert snapped.actors[a := s.actors[a]] == s.actors;
    assert Next(snapped, SaveFails(a)) == s;
    Then(snapped, SaveFails(a), []);
    Then(s, Snap(a), [SaveFails(a)]);
    if !SaveRow(s.row, TakeSnapshot(s.actors[a].entity)).Done? {
      assert Next(snapped, Save(a)) == s;
      Then(snapped, Save(a), []);
      Then(s, Snap(a), [Save(a)]);
    }
  }

  function RetrySteps(a: nat): seq<Event> {
    [Read(a), AdoptRow(a), Snap(a), Save(a), Copyback(a)]
  }

  lemma SaveAlone(s: Sys, a: nat, row: Row)
    requires Enabled(s, Snap(a)) && SaveRow(s.row, TakeSnapshot(s.actors[a].entity)) == Done(row)
    ensures Legal(s, [Snap(a), Save(a), Copyback(a)])
    ensures var end := After(s, [Snap(a), Save(a), Copyback(a)]);
      && end.row == Some(row)
      && end.actors == s.actors[a :=
           Actor(Settle(s.actors[a].entity, AfterSave(TakeSnapshot(s.actors[a].entity))), Idle, [])]
      && (s.actors[a].entity.loaded && Attributes in s.actors[a].entity.dirty ==>
            end.committed == s.committed + s.actors[a].issued)
  {
    var e := s.actors[a].entity;
    var snapped := Next(s, Snap(a));
    assert snapped == With(s, a, s.actors[a].(phase := Saving(TakeSnapshot(e))));
    var saved := Next(snapped, Save(a));
    assert saved.row == Some(row)
        && saved.actors == s.actors[a := Actor(e, Saved(AfterSave(TakeSnapshot(e))), [])];
    Then(saved, Copyback(a), []);
    Then(snapped, Save(a), [Copyback(a)]);
    Then(s, Snap(a), [Save(a), Copyback(a)]);
  }

  /** What writing an object rebased on the row leaves in the row and in the object. */
  lemma RebasedWrite(actor: Actor, row: Row)
    requires Tidy(actor.entity) && Guarded(actor.entity.dirty) && LogOk(actor)
    ensures var e := Adopt(actor.entity, row);
            var saved := SaveRow(Some(row), TakeSnapshot(e));
            var settled := Settle(e, AfterSave(TakeSnapshot(e)));
      && e.loaded && e.dirty != {} && saved.Done?
      && saved.row.version == row.version + 1
      && saved.row.attributes == Replay(row.attributes, actor.issued)
      && saved.row.userId == (if UserID in actor.entity.dirty then actor.entity.columns.userId else row.userId)
      && settled.dirty == {} && settled.log == []
  {
    RetryLandsOnRereadRow(actor.entity, row);
    TidyKept(actor.entity, SetExpiry(0), row);
    SuccessfulWriteCarriesEverything(Adopt(actor.entity, row), Some(row));
    assert Replay(row.attributes, actor.entity.log) == Replay(row.attributes, actor.issued);
  }

  lemma AdoptAlone(s: Sys, a: nat, rest: seq<Event>)
    requires Enabled(s, Read(a))
    requires Legal(With(s, a, s.actors[a].(entity := Adopt(s.actors[a].entity, s.row.value))), rest)
    ensures Legal(s, [Read(a), AdoptRow(a)] + rest)
    ensures After(s, [Read(a), AdoptRow(a)] + rest)
         == After(With(s, a, s.actors[a].(entity := Adopt(s.actors[a].entity, s.row.value))), rest)
  {
    var adopted := s.actors[a].(entity := Adopt(s.actors[a].entity, s.row.value));
    var read := Next(s, Read(a));
    assert read.actors[a := adopted] == s.actors[a := adopted];
    assert Next(read, AdoptRow(a)) == With(s, a, adopted);
    Then(read, AdoptRow(a), rest);
    Then(s, Read(a), [AdoptRow(a)] + rest);
    assert [Read(a), AdoptRow(a)] + rest == [Read(a)] + ([AdoptRow(a)] + rest);
  }

  /**
   However stale an object is, in any state a run leads to: re-reading, adopting and writing again, with nobody else
   in between, lands. The row then holds what it held with all the object's uncommitted mutations replayed, under the
   next version, the object's user id if it set one, and the object has nothing left to write.
   */
  lemma RetryAloneLands(run: seq<Event>, a: nat)
    requires Legal(INITIAL, run) && CanRetry(After(INITIAL, run), a)
    ensures Legal(After(INITIAL, run), RetrySteps(a))
    ensures var s := After(INITIAL, run);
            var (e, end) := (s.actors[a].entity, After(s, RetrySteps(a)));
      && end.row.Some? && end.row.value.version == s.row.value.version + 1
      && end.row.value.attributes == Replay(s.row.value.attributes, s.actors[a].issued)
      && end.row.value.userId == (if UserID in e.dirty then e.columns.userId else s.row.value.userId)
      && a in end.actors && end.actors[a].phase.Idle? && end.actors[a].issued == []
      && end.actors[a].entity.dirty == {} && end.actors[a].entity.log == []
  {
    InitialInv();
    RunKeepsInv(INITIAL, run);
    var s := After(INITIAL, run);
    var actor := s.actors[a];
    assert ActorOk(s.book, a, actor);
    RebasedWrite(actor, s.row.value);
    var e := Adopt(actor.entity, s.row.value);
    SaveAlone(With(s, a, actor.(entity := e)), a, SaveRow(s.row, TakeSnapshot(e)).row);
    AdoptAlone(s, a, [Snap(a), Save(a), Copyback(a)]);
    assert RetrySteps(a) == [Read(a), AdoptRow(a)] + [Snap(a), Save(a), Copyback(a)];
  }

  predicate CanRetry(s: Sys, a: nat) {
    && s.row.Some? && a in s.actors && s.actors[a].phase.Idle? && s.actors[a].entity.loaded
    && Guarded(s.actors[a].entity.dirty)
  }
}
