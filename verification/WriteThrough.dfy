/**
 A mediator-backed session: every setter writes through, a write that fails is remembered, and the next
 one that lands carries what was left behind. The row, the others' moves on it and failing calls are
 those of SessionReconcile.
 */
module WriteThrough {
  import opened Options
  import opened AttributeLog
  import opened SessionEntity
  import opened SessionReconcile

  /** Why a write may be refused before it reaches the store. */
  datatype Refusal = NotRefused | InvalidId | RevokedId

  /**
   One operation on the session: a setter with its write, the whole session confirmed by AddSession, its first
   write, or a re-read.
   */
  datatype Unit = Write(setter: Setter, refused: bool) | Confirm(refused: bool) | Create(refusal: Refusal) | Reread

  function Noted(at: Standing, failed: bool): Standing {
    at.(view := at.view.(pendingErr := failed))
  }

  /** A write and its note; whether it landed. */
  function Updated(at: Standing, around: Schedule, retries: nat, refused: bool): (bool, Standing) {
    if refused then (false, Noted(at, true))
    else
      var end := Reconcile(at, around, retries);
      (end.outcome.Written?, Noted(end.after, !end.outcome.Written?))
  }

  method UpdateSession(repo: SessionRepository, session: DbSessionEntity, retries: int, refused: bool)
    returns (landed: bool)
    modifies repo, session
    ensures (landed, Standing(repo.stored, session.View(), repo.calls))
         == Updated(Standing(old(repo.stored), old(session.View()), old(repo.calls)),
                    repo.around, AtLeastZero(retries), refused)
  {
    if refused {
      session.NotePersistFailure();
      return false;
    }
    var outcome, _ := PersistReconciling(repo, session, retries);
    if !outcome.Written? {
      session.NotePersistFailure();
      return false;
    }
    session.NotePersistSuccess();
    return true;
  }

  /** A first write: one save, and a conflict is a failure. Of an invalid id nothing is noted. */
  function Created(at: Standing, around: Schedule, refusal: Refusal): (bool, Standing) {
    if refusal.InvalidId? then (false, at) else Updated(at, around, 0, refusal.RevokedId?)
  }

  method CreateSession(repo: SessionRepository, session: DbSessionEntity, refusal: Refusal) returns (landed: bool)
    modifies repo, session
    ensures (landed, Standing(repo.stored, session.View(), repo.calls))
         == Created(Standing(old(repo.stored), old(session.View()), old(repo.calls)), repo.around, refusal)
  {
    if refusal.InvalidId? {
      return false;
    }
    if refusal.RevokedId? {
      session.NotePersistFailure();
      return false;
    }
    var answer := Persist(repo, session);
    if !(answer.Answered? && answer.value.Done?) {
      session.NotePersistFailure();
      return false;
    }
    session.NotePersistSuccess();
    return true;
  }

  /**
   What AddSession's look into the store found, which may be out of date by the time it writes. The look goes
   through the mediator: when the session is the cached object, it has adopted the row that was found.
   */
  datatype StoreLook = LookFailed | NotStored | IsStored(adopted: Option<Row>)

  function Seen(view: Entity, look: StoreLook): Entity {
    if look.IsStored? && look.adopted.Some? then Adopt(view, look.adopted.value) else view
  }

  function Added(at: Standing, around: Schedule, retries: nat, refusal: Refusal, look: StoreLook): (bool, Standing) {
    match look
    case LookFailed => (false, at)
    case NotStored => if at.view.loaded then (false, at) else Created(at, around, refusal)
    case IsStored(_) => Updated(at.(view := MarkAll(Seen(at.view, look))), around, retries, !refusal.NotRefused?)
  }

  method AddSession(repo: SessionRepository, session: DbSessionEntity, retries: int, refusal: Refusal, look: StoreLook)
    returns (added: bool)
    modifies repo, session
    ensures (added, Standing(repo.stored, session.View(), repo.calls))
         == Added(Standing(old(repo.stored), old(session.View()), old(repo.calls)),
                  repo.around, AtLeastZero(retries), refusal, look)
  {
    if look.LookFailed? {
      return false;
    }
    if look.NotStored? {
      if session.isLoaded {
        return false;
      }
      added := CreateSession(repo, session, refusal);
      return;
    }
    if look.adopted.Some? {
      var row := new DbSessionEntity.FromRow(look.adopted.value);
      session.AdoptPersistedState(row);
    }
    session.MarkAllDirty();
    added := UpdateSession(repo, session, retries, !refusal.NotRefused?);
  }

  lemma {:induction false} GoneStaysGone(at: Standing, around: Schedule, retries: nat)
    requires at.view.loaded && at.stored.None?
    ensures var end := Reconcile(at, around, retries); end.after.stored.None? && !end.outcome.Written?
  {
    NoMoveBringsBack(around(at.calls).moves);
  }

  lemma {:induction false} NoMoveBringsBack(moves: seq<Move>)
    ensures ApplyMoves(None, moves).None?
  {
    if moves != [] {
      NoMoveBringsBack(moves[..|moves| - 1]);
    }
  }

  /**
   However out of date its look into the store was, adding a session that once had a row never puts a deleted
   row back, and never reports that it did.
   */
  lemma AddNeverBringsBack(at: Standing, around: Schedule, retries: nat, refusal: Refusal, look: StoreLook)
    requires at.stored.None? && at.view.loaded
    ensures var (added, after) := Added(at, around, retries, refusal, look); !added && after.stored.None?
  {
    GoneStaysGone(at.(view := MarkAll(Seen(at.view, look))), around, retries);
  }

  /**
   What adding a stored session leaves in the row is the whole of it, however little was marked before: everything
   it had still to write, and for the rest what the look adopted, when it adopted a row, and not its own older copy.
   Its bag is the adopted one, or its own, with its log replayed when the first save lands, and after a conflict the
   bag the row had with the log replayed on it.
   */
  lemma AddCarriesTheWholeSession(at: Standing, around: Schedule, retries: nat, look: StoreLook)
    requires Sane(at.view) && look.IsStored? && Added(at, around, retries, NotRefused, look).0
    ensures var row := Added(at, around, retries, NotRefused, look).1.stored;
            var own, from := at.view, if look.adopted.Some? then look.adopted.value else at.view.columns;
            var end := Reconcile(at.(view := MarkAll(Seen(own, look))), around, retries);
      && row.Some? && Carries(own, row.value)
      && row.value.userId == (if UserID in own.dirty then own.columns.userId else from.userId)
      && row.value.expiry == (if Expiry in own.dirty then own.columns.expiry else from.expiry)
      && row.value.lastActivity == (if LastActivity in own.dirty then own.columns.lastActivity else from.lastActivity)
      && (end.saves == 1 ==> row.value.attributes == Replay(from.attributes, own.log))
      && (end.saves > 1 ==>
            end.arriving.Some? && row.value.attributes == Replay(end.arriving.value.attributes, at.view.log))
  {
    if look.adopted.Some? {
      AdoptKeepsSane(at.view, look.adopted.value);
    }
    var marked := at.(view := MarkAll(Seen(at.view, look)));
    LandedCarriesAll(marked, around, retries);
    LandedAttributes(marked, around, retries);
  }

  predicate Lands(at: Standing, around: Schedule, retries: nat, look: StoreLook) {
    match look
    case LookFailed => false
    case NotStored =>
      !at.view.loaded && !around(at.calls).fails && ApplyMoves(at.stored, around(at.calls).moves).None?
    case IsStored(_) => Reconcile(at.(view := MarkAll(Seen(at.view, look))), around, retries).outcome.Written?
  }

  /**
   When a session is added: one the look found when the reconciling write of all of it lands, one it did not find
   when it never had a row and its first save, to a row still absent, does not fail; and never one that is refused.
   Otherwise the row is left to the others.
   */
  lemma AddedExactly(at: Standing, around: Schedule, retries: nat, refusal: Refusal, look: StoreLook)
    ensures Added(at, around, retries, refusal, look).0 <==> refusal.NotRefused? && Lands(at, around, retries, look)
    ensures var (added, after) := Added(at, around, retries, refusal, look);
      && (!added ==>
            at.calls <= after.calls && after.stored == Drift(at.stored, around, at.calls, after.calls - at.calls))
      && (added && look.NotStored? ==> after.stored == Some(TakeSnapshot(at.view).columns))
  {
    var ready := if look.IsStored? then at.(view := MarkAll(Seen(at.view, look))) else at;
    var allowed := if look.IsStored? then retries else 0;
    OutcomeSaysWhy(ready, around, allowed);
    if !Reconcile(ready, around, allowed).outcome.Written? {
      FailureLosesNothing(ready, around, allowed);
    }
  }

  function Prepared(view: Entity, u: Unit): Entity {
    match u
    case Write(setter, _) => ApplySetter(view, setter)
    case Confirm(_) => MarkAll(view)
    case Create(_) => view
    case Reread => view
  }

  function Step(at: Standing, around: Schedule, retries: nat, u: Unit): (r: (bool, Standing)) {
    var ready := at.(view := Prepared(at.view, u));
    match u
    case Reread => (false, AfterReread(ready, around))
    case Create(refusal) => Created(ready, around, refusal)
    case Write(_, refused) => Updated(ready, around, retries, refused)
    case Confirm(refused) => Updated(ready, around, retries, refused)
  }

  function AfterUnits(at: Standing, around: Schedule, retries: nat, us: seq<Unit>): Standing {
    if us == [] then at
    else Step(AfterUnits(at, around, retries, us[..|us| - 1]), around, retries, us[|us| - 1]).1
  }

  // ---- No pending error means nothing is pending ----

  /** The session's bag already holds what its log asks for. */
  predicate SelfReplayed(e: Entity) {
    Replay(e.columns.attributes, e.log) == e.columns.attributes
  }

  predicate Sane(e: Entity) {
    Tidy(e) && SelfReplayed(e)
  }

  predicate Reported(e: Entity) {
    !e.pendingErr ==> e.dirty == {} && e.log == []
  }

  lemma SetterKeepsSane(e: Entity, s: Setter)
    requires Sane(e)
    ensures Sane(ApplySetter(e, s))
  {
    if s.Mutate? {
      RecordedIsReplayed(e.columns.attributes, e.log, s.op);
    }
  }

  /** A bag that holds what its log asks for still does when both take one more mutation. */
  lemma RecordedIsReplayed(bag: Bag, log: seq<AttributeOp>, op: AttributeOp)
    requires Replay(bag, log) == bag
    ensures Replay(ApplyOp(bag, op), Record(log, op)) == ApplyOp(bag, op)
  {
    var after := ApplyOp(bag, op);
    RecordKeepsEffect(after, log, op);
    forall key ensures Lookup(ApplyOp(Replay(after, log), op), key) == Lookup(after, key) {
      OneMoreLookup(after, log, op, key);
      ReplayLookup(bag, log, key);
      OneLookup(bag, op, key);
    }
    SameLookups(ApplyOp(Replay(after, log), op), after);
  }

  lemma OneLookup(bag: Bag, op: AttributeOp, key: string)
    ensures Lookup(ApplyOp(bag, op), key) ==
      if OpVerdict(op, key).Untouched? then Lookup(bag, key) else OpVerdict(op, key)
  {
  }

  lemma OneMoreLookup(bag: Bag, log: seq<AttributeOp>, op: AttributeOp, key: string)
    ensures Lookup(ApplyOp(Replay(bag, log), op), key) ==
      if !OpVerdict(op, key).Untouched? then OpVerdict(op, key)
      else if !LastWord(log, key).Untouched? then LastWord(log, key)
      else Lookup(bag, key)
  {
  }

  lemma AdoptKeepsSane(e: Entity, row: Row)
    requires Tidy(e)
    ensures Sane(Adopt(e, row))
  {
    ReplayIdempotent(row.attributes, e.log);
  }

  /** What the row must hold after a write of this session. */
  predicate Carries(e: Entity, row: Row) {
    && (UserID in e.dirty ==> row.userId == e.columns.userId)
    && (Expiry in e.dirty ==> row.expiry == e.columns.expiry)
    && (LastActivity in e.dirty ==> row.lastActivity == e.columns.lastActivity)
    && Replay(row.attributes, e.log) == row.attributes
  }

  /** A write that lands, in whichever round, carries everything and leaves nothing pending. */
  lemma {:induction false} LandedCarriesAll(at: Standing, around: Schedule, retries: nat)
    requires Sane(at.view) && Reconcile(at, around, retries).outcome.Written?
    ensures var end := Reconcile(at, around, retries).after;
      && end.view.dirty == {} && end.view.log == [] && Sane(end.view)
      && end.stored.Some? && Carries(at.view, end.stored.value)
    decreases retries
  {
    if Attempt(at, around) == Answered(Conflict) {
      var reread := AfterReread(AfterAttempt(at, around), around);
      AdoptKeepsSane(at.view, reread.stored.value);
      LandedCarriesAll(reread, around, retries - 1);
    } else {
      SuccessfulWriteCarriesEverything(at.view, ApplyMoves(at.stored, around(at.calls).moves));
    }
  }

  /** Its bag, when it was marked: the session's own by the first save, rebased on the row's after a conflict. */
  lemma {:induction false} LandedAttributes(at: Standing, around: Schedule, retries: nat)
    requires Sane(at.view) && Attributes in at.view.dirty && Reconcile(at, around, retries).outcome.Written?
    ensures var end := Reconcile(at, around, retries);
      && end.after.stored.Some? && (at.view.loaded ==> end.arriving.Some?)
      && (end.saves == 1 ==> end.after.stored.value.attributes == at.view.columns.attributes)
      && (end.saves > 1 ==>
            end.arriving.Some? && end.after.stored.value.attributes == Replay(end.arriving.value.attributes, at.view.log))
    decreases retries
  {
    var moves := around(at.calls).moves;
    if Attempt(at, around) == Answered(Conflict) {
      var reread := AfterReread(AfterAttempt(at, around), around);
      AdoptKeepsSane(at.view, reread.stored.value);
      LandedAttributes(reread, around, retries - 1);
      if Reconcile(reread, around, retries - 1).saves == 1 {
        LandedMetWhatItRead(reread, around, retries - 1);
      }
    } else {
      SuccessfulWriteCarriesEverything(at.view, ApplyMoves(at.stored, moves));
    }
  }

  /** A save from the row just read lands only if that row's state is still there. */
  lemma LandedMetWhatItRead(at: Standing, around: Schedule, retries: nat)
    requires JustRead(at) && at.view.loaded && Attributes in at.view.dirty
    requires Reconcile(at, around, retries).outcome.Written? && Reconcile(at, around, retries).saves == 1
    ensures var met := Reconcile(at, around, retries).arriving;
      met.Some? && met.value.attributes == at.stored.value.attributes
  {
    var moves := around(at.calls).moves;
    ReconcileUnfolds(at, around, retries);
    if retries > 0 {
      ReconcileIsBounded(AfterReread(AfterAttempt(at, around), around), around, retries - 1);
    }
    assert Attributes in at.view.dirty * STATE_COLUMNS;
    GuardedWriteExactly(at.view, ApplyMoves(at.stored, moves).value);
    MovesRaiseVersion(at.stored, moves);
    MovesWithoutCommitsKeepState(at.stored, moves);
  }

  /** A session's claims survive a write that fails: the same columns and log pending, with the same values. */
  predicate StillOwes(before: Entity, after: Entity) {
    && after.dirty == before.dirty && after.log == before.log
    && (UserID in before.dirty ==> after.columns.userId == before.columns.userId)
    && (Expiry in before.dirty ==> after.columns.expiry == before.columns.expiry)
    && (LastActivity in before.dirty ==> after.columns.lastActivity == before.columns.lastActivity)
  }

  lemma {:induction false} FailedStillOwes(at: Standing, around: Schedule, retries: nat)
    requires Sane(at.view) && !Reconcile(at, around, retries).outcome.Written?
    ensures Sane(Reconcile(at, around, retries).after.view)
    ensures StillOwes(at.view, Reconcile(at, around, retries).after.view)
    decreases retries
  {
    if Attempt(at, around) == Answered(Conflict) && retries > 0 {
      var tried := AfterAttempt(at, around);
      var reread := AfterReread(tried, around);
      if !around(tried.calls).fails && reread.stored.Some? {
        AdoptKeepsSane(at.view, reread.stored.value);
        FailedStillOwes(reread, around, retries - 1);
      }
    }
  }

  lemma StepKeepsReported(at: Standing, around: Schedule, retries: nat, u: Unit)
    requires Sane(at.view) && Reported(at.view)
    ensures Sane(Step(at, around, retries, u).1.view) && Reported(Step(at, around, retries, u).1.view)
  {
    var ready := at.(view := Prepared(at.view, u));
    if u.Write? {
      SetterKeepsSane(at.view, u.setter);
    }
    match u {
      case Reread =>
        var arriving := ApplyMoves(at.stored, around(at.calls).moves);
        AdoptKeepsSane(at.view, if arriving.Some? then arriving.value else at.view.columns);
      case Create(refusal) => UpdateKeepsReported(ready, around, 0);
      case _ => UpdateKeepsReported(ready, around, retries);
    }
  }

  lemma UpdateKeepsReported(ready: Standing, around: Schedule, retries: nat)
    requires Sane(ready.view)
    ensures forall refused :: var e := Updated(ready, around, retries, refused).1.view; Sane(e) && Reported(e)
  {
    if Reconcile(ready, around, retries).outcome.Written? {
      LandedCarriesAll(ready, around, retries);
    } else {
      FailedStillOwes(ready, around, retries);
    }
  }

  /** Between operations, whatever the others do and whichever calls fail: no pending error, nothing pending. */
  lemma {:induction false} NoPendingErrorMeansAllWritten(at: Standing, around: Schedule, retries: nat, us: seq<Unit>)
    requires Sane(at.view) && Reported(at.view)
    ensures var e := AfterUnits(at, around, retries, us).view;
      Sane(e) && (!e.pendingErr ==> e.dirty == {} && e.log == [])
    decreases |us|
  {
    if us != [] {
      NoPendingErrorMeansAllWritten(at, around, retries, us[..|us| - 1]);
      StepKeepsReported(AfterUnits(at, around, retries, us[..|us| - 1]), around, retries, us[|us| - 1]);
    }
  }

  // ---- What failures leave behind is carried ----

  /** The last value each setter was given, and every attribute mutation in order. */
  datatype Wants = Wants(user: Option<string>, expiry: Option<int>, activity: Option<int>, ops: seq<AttributeOp>)

  function Wanting(w: Wants, s: Setter): Wants {
    match s
    case SetUserId(id) => w.(user := Some(id))
    case SetExpiry(t) => w.(expiry := Some(t))
    case SetLastActivity(t) => w.(activity := Some(t))
    case Mutate(op) => w.(ops := w.ops + [op])
  }

  function WantsOf(us: seq<Unit>): Wants {
    if us == [] then Wants(None, None, None, [])
    else
      var before := WantsOf(us[..|us| - 1]);
      if us[|us| - 1].Write? then Wanting(before, us[|us| - 1].setter) else before
  }

  predicate Owes(e: Entity, w: Wants) {
    && (w.user.Some? ==> UserID in e.dirty && e.columns.userId == w.user.value)
    && (w.expiry.Some? ==> Expiry in e.dirty && e.columns.expiry == w.expiry.value)
    && (w.activity.Some? ==> LastActivity in e.dirty && e.columns.lastActivity == w.activity.value)
    && e.log == RecordAll(w.ops)
  }

  predicate Holds(row: Row, w: Wants) {
    && (w.user.Some? ==> row.userId == w.user.value)
    && (w.expiry.Some? ==> row.expiry == w.expiry.value)
    && (w.activity.Some? ==> row.lastActivity == w.activity.value)
    && Replay(row.attributes, w.ops) == row.attributes
  }

  predicate NoneLanded(at: Standing, around: Schedule, retries: nat, us: seq<Unit>)
    decreases |us|
  {
    us == [] || (
      var init := us[..|us| - 1];
      NoneLanded(at, around, retries, init)
      && !Step(AfterUnits(at, around, retries, init), around, retries, us[|us| - 1]).0)
  }

  lemma PreparedOwes(e: Entity, w: Wants, u: Unit)
    requires Sane(e) && Owes(e, w)
    ensures Sane(Prepared(e, u)) && Owes(Prepared(e, u), if u.Write? then Wanting(w, u.setter) else w)
  {
    if u.Write? {
      SetterKeepsSane(e, u.setter);
      SetterIsOwed(e, w, u.setter);
    }
  }

  lemma SetterIsOwed(e: Entity, w: Wants, s: Setter)
    requires Owes(e, w)
    ensures Owes(ApplySetter(e, s), Wanting(w, s))
  {
  }

  lemma {:induction false} FailuresPileUp(at: Standing, around: Schedule, retries: nat, us: seq<Unit>)
    requires Sane(at.view) && at.view.log == [] && NoneLanded(at, around, retries, us)
    ensures Sane(AfterUnits(at, around, retries, us).view)
    ensures Owes(AfterUnits(at, around, retries, us).view, WantsOf(us))
    decreases |us|
  {
    if us != [] {
      var init, u := us[..|us| - 1], us[|us| - 1];
      FailuresPileUp(at, around, retries, init);
      var mid := AfterUnits(at, around, retries, init);
      var ready := mid.(view := Prepared(mid.view, u));
      PreparedOwes(mid.view, WantsOf(init), u);
      match u {
        case Reread =>
          var arriving := ApplyMoves(mid.stored, around(mid.calls).moves);
          AdoptKeepsSane(mid.view, if arriving.Some? then arriving.value else mid.view.columns);
        case Create(refusal) =>
          if refusal.NotRefused? {
            FailedStillOwes(ready, around, 0);
          }
        case _ =>
          if !u.refused {
            FailedStillOwes(ready, around, retries);
          }
      }
    }
  }

  /**
   After any number of operations none of which reached the row, the next write that lands leaves in it the
   last value of every setter among them, its own included, and every attribute mutation.
   */
  lemma SuccessCarriesFailures(at: Standing, around: Schedule, retries: nat, us: seq<Unit>, u: Unit)
    requires Sane(at.view) && at.view.log == [] && NoneLanded(at, around, retries, us)
    requires Step(AfterUnits(at, around, retries, us), around, retries, u).0
    ensures var end := Step(AfterUnits(at, around, retries, us), around, retries, u).1;
      && end.stored.Some? && Holds(end.stored.value, WantsOf(us + [u]))
      && end.view.dirty == {} && end.view.log == [] && !end.view.pendingErr
  {
    FailuresPileUp(at, around, retries, us);
    var mid := AfterUnits(at, around, retries, us);
    var ready := mid.(view := Prepared(mid.view, u));
    PreparedOwes(mid.view, WantsOf(us), u);
    var allowed := if u.Create? then 0 else retries;
    LandedCarriesAll(ready, around, allowed);
    assert (us + [u])[..|us|] == us;
    var row := Reconcile(ready, around, allowed).after.stored.value;
    RecordAllKeepsEffect(row.attributes, WantsOf(us + [u]).ops);
  }

  // ---- A write with nothing marked ----

  /** One foreign commit lands before the second call to the store. */
  function CommitInBetween(userId: string, attributes: Bag): Schedule {
    i => if i == 1 then Weather([ForeignCommit(userId, attributes)], false) else Weather([], false)
  }

  /**
   The unguarded write of a whole stale row is reached, from any row and any two setters. Both mark the one
   cached object before either writes; the first write settles both marks. Another replica commits. The second
   write then has nothing marked: it lands, reports success, and puts the row back to what it was before that
   commit, the version with it.
   */
  lemma SecondWriteUndoesACommit(row: Row, first: Setter, second: Setter, retries: nat, userId: string, attributes: Bag)
    ensures var around := CommitInBetween(userId, attributes);
            var marked := Standing(Some(row), ApplySetter(ApplySetter(Loaded(row), first), second), 0);
            var (landed, mid) := Updated(marked, around, retries, false);
            var (again, end) := Updated(mid, around, retries, false);
            var committed := ApplyMoves(mid.stored, around(mid.calls).moves);
      && landed && mid.stored.Some? && mid.view.dirty == {} && mid.calls == 1
      && committed == Some(mid.stored.value.(userId := userId, attributes := attributes,
                                             version := mid.stored.value.version + 1))
      && again && end.stored == mid.stored && !end.view.pendingErr
  {
    var around := CommitInBetween(userId, attributes);
    var view := ApplySetter(ApplySetter(Loaded(row), first), second);
    var marked := Standing(Some(row), view, 0);
    FirstWriteLands(row, first, second);
    assert [ForeignCommit(userId, attributes)][..0] == [];
    ReconcileUnfolds(marked, around, retries);
    ReconcileUnfolds(Updated(marked, around, retries, false).1, around, retries);
  }

  lemma FirstWriteLands(row: Row, first: Setter, second: Setter)
    ensures var view := ApplySetter(ApplySetter(Loaded(row), first), second);
            var saved := SaveRow(Some(row), TakeSnapshot(view));
            var settled := Settle(view, AfterSave(TakeSnapshot(view)));
      && saved.Done? && settled.dirty == {} && settled.columns == saved.row && settled.loaded
  {
    var view := ApplySetter(ApplySetter(Loaded(row), first), second);
    TidyKept(Loaded(row), first, row);
    TidyKept(ApplySetter(Loaded(row), first), second, row);
    SuccessfulWriteCarriesEverything(view, Some(row));
  }
}
