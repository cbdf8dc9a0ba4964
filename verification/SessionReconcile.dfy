/**
 The write that loses a version race: re-read, adopt, replay, try again.

 Other replicas are part of the picture, so the repository carries a schedule: what they do to
 the row just before each of this process's store calls, and whether that call fails. A foreign
 writer raises the version with every state change, which SessionProtocol proves of all of them.
 */
module SessionReconcile {
  import opened Options
  import opened AttributeLog
  import opened SessionEntity

  datatype Move =
    | ForeignCommit(userId: string, attributes: Bag)
    | ForeignHeartbeat(expiry: int, lastActivity: int)
    | ForeignDelete

  /** What goes on around one store call: the others' moves before it, and whether it fails. */
  datatype Weather = Weather(moves: seq<Move>, fails: bool)

  type Schedule = nat -> Weather

  function ApplyMove(stored: Option<Row>, move: Move): Option<Row> {
    if stored.None? then None
    else
      match move
      case ForeignCommit(userId, attributes) =>
        Some(stored.value.(userId := userId, attributes := attributes, version := stored.value.version + 1))
      case ForeignHeartbeat(expiry, lastActivity) =>
        Some(stored.value.(expiry := expiry, lastActivity := lastActivity))
      case ForeignDelete => None
  }

  function ApplyMoves(stored: Option<Row>, moves: seq<Move>): Option<Row> {
    if moves == [] then stored
    else ApplyMove(ApplyMoves(stored, moves[..|moves| - 1]), moves[|moves| - 1])
  }

  function CommitsIn(moves: seq<Move>): nat {
    if moves == [] then 0
    else CommitsIn(moves[..|moves| - 1]) + (if moves[|moves| - 1].ForeignCommit? then 1 else 0)
  }

  /** The row the others alone leave after the moves before `calls` store calls, the first being `from`. */
  function Drift(stored: Option<Row>, around: Schedule, from: nat, calls: nat): Option<Row>
    decreases calls
  {
    if calls == 0 then stored
    else Drift(ApplyMoves(stored, around(from).moves), around, from + 1, calls - 1)
  }

  function CommitsDuring(around: Schedule, from: nat, calls: nat): nat
    decreases calls
  {
    if calls == 0 then 0
    else CommitsIn(around(from).moves) + CommitsDuring(around, from + 1, calls - 1)
  }

  /** No call of these fails, and nobody else commits around them. */
  ghost predicate Calm(around: Schedule, from: nat, to: nat) {
    forall i :: from <= i < to ==> !around(i).fails && CommitsIn(around(i).moves) == 0
  }

  /** A row that survives the others' moves carries one version more for each of their commits. */
  lemma {:induction false} MovesRaiseVersion(stored: Option<Row>, moves: seq<Move>)
    requires ApplyMoves(stored, moves).Some?
    ensures stored.Some?
    ensures ApplyMoves(stored, moves).value.version == stored.value.version + CommitsIn(moves)
  {
    if moves != [] {
      MovesRaiseVersion(stored, moves[..|moves| - 1]);
    }
  }

  /** Moves without a commit leave a surviving row's state and version alone. */
  lemma {:induction false} MovesWithoutCommitsKeepState(stored: Option<Row>, moves: seq<Move>)
    requires ApplyMoves(stored, moves).Some? && CommitsIn(moves) == 0
    ensures stored.Some? && SameState(ApplyMoves(stored, moves).value, stored.value)
  {
    if moves != [] {
      MovesWithoutCommitsKeepState(stored, moves[..|moves| - 1]);
    }
  }

  datatype Answer<T> = Answered(value: T) | Failed

  class SessionRepository {
    const around: Schedule
    var stored: Option<Row>
    var calls: nat

    constructor (stored: Option<Row>, around: Schedule)
      ensures this.stored == stored && this.around == around && calls == 0
    {
      this.stored, this.around, calls := stored, around, 0;
    }

    /** What the row is when the next call reaches the store. */
    function Arriving(): Option<Row>
      reads this
    {
      ApplyMoves(stored, around(calls).moves)
    }

    method Save(snapshot: SessionSnapshot) returns (answer: Answer<SaveResult>)
      modifies this
      ensures calls == old(calls) + 1
      ensures around(old(calls)).fails ==> answer == Failed
      ensures !around(old(calls)).fails ==> answer == Answered(SaveRow(old(Arriving()), snapshot))
      ensures stored == if answer.Answered? && answer.value.Done? then Some(answer.value.row) else old(Arriving())
    {
      stored := ApplyMoves(stored, around(calls).moves);
      calls := calls + 1;
      if around(calls - 1).fails {
        return Failed;
      }
      var result := SaveRow(stored, snapshot);
      if result.Done? {
        stored := Some(result.row);
      }
      return Answered(result);
    }

    method FindById() returns (answer: Answer<Option<Row>>)
      modifies this
      ensures calls == old(calls) + 1 && stored == old(Arriving())
      ensures answer == if around(old(calls)).fails then Failed else Answered(stored)
    {
      stored := ApplyMoves(stored, around(calls).moves);
      calls := calls + 1;
      return if around(calls - 1).fails then Failed else Answered(stored);
    }

    method DeleteById() returns (answer: Answer<bool>)
      modifies this
      ensures calls == old(calls) + 1
      ensures around(old(calls)).fails ==> answer == Failed && stored == old(Arriving())
      ensures !around(old(calls)).fails ==> answer == Answered(old(Arriving()).Some?) && stored == None
    {
      stored := ApplyMoves(stored, around(calls).moves);
      calls := calls + 1;
      if around(calls - 1).fails {
        return Failed;
      }
      answer := Answered(stored.Some?);
      stored := None;
    }
  }

  datatype Outcome = Written | StoreFailed | RowGone | DuplicateId | Exhausted

  /** Where a reconciling write stands after a round: the row, the session, the calls made so far. */
  datatype Standing = Standing(stored: Option<Row>, view: Entity, calls: nat)

  /** How it ends: `arriving` is the row the last attempt met. */
  datatype Ending = Ending(outcome: Outcome, saves: nat, after: Standing, arriving: Option<Row>)

  function Attempt(at: Standing, around: Schedule): Answer<SaveResult> {
    if around(at.calls).fails then Failed
    else Answered(SaveRow(ApplyMoves(at.stored, around(at.calls).moves), TakeSnapshot(at.view)))
  }

  function AfterAttempt(at: Standing, around: Schedule): Standing {
    var answer := Attempt(at, around);
    if answer.Answered? && answer.value.Done? then
      Standing(Some(answer.value.row), Settle(at.view, AfterSave(TakeSnapshot(at.view))), at.calls + 1)
    else Standing(ApplyMoves(at.stored, around(at.calls).moves), at.view, at.calls + 1)
  }

  function AfterReread(at: Standing, around: Schedule): Standing {
    var stored := ApplyMoves(at.stored, around(at.calls).moves);
    Standing(stored,
             if !around(at.calls).fails && stored.Some? then Adopt(at.view, stored.value) else at.view,
             at.calls + 1)
  }

  function OutcomeOf(answer: Answer<SaveResult>): Outcome {
    if answer.Failed? then StoreFailed
    else
      match answer.value
      case Done(_) => Written
      case Gone => RowGone
      case Duplicate => DuplicateId
      case Conflict => Exhausted
  }

  /** One attempt and, after a conflict, the re-read; with how it ended the write, if it did. */
  function RoundOf(at: Standing, around: Schedule, mayRetry: bool): (Option<Outcome>, Standing) {
    var answer := Attempt(at, around);
    var tried := AfterAttempt(at, around);
    if !(answer.Answered? && answer.value.Conflict?) || !mayRetry then (Some(OutcomeOf(answer)), tried)
    else
      var reread := AfterReread(tried, around);
      if around(tried.calls).fails then (Some(StoreFailed), reread)
      else if reread.stored.None? then (Some(RowGone), reread)
      else (None, reread)
  }

  /** Write; on a conflict re-read, adopt, and start over, at most `retries` times. */
  function Reconcile(at: Standing, around: Schedule, retries: nat): Ending
    decreases retries
  {
    var (ended, now) := RoundOf(at, around, retries > 0);
    if ended.Some? then Ending(ended.value, 1, now, ApplyMoves(at.stored, around(at.calls).moves))
    else
      var rest := Reconcile(now, around, retries - 1);
      rest.(saves := rest.saves + 1)
  }

  function AtLeastZero(n: int): (r: nat)
    ensures r >= n && (r == n || r == 0)
  {
    if n < 0 then 0 else n
  }

  function Later(end: Ending, saves: nat): Ending {
    end.(saves := end.saves + saves)
  }

  lemma ReconcileUnfolds(at: Standing, around: Schedule, retries: nat)
    ensures var (ended, now) := RoundOf(at, around, retries > 0);
      && (ended.Some? ==> var end := Reconcile(at, around, retries);
            end.outcome == ended.value && end.saves == 1 && end.after == now)
      && (ended.None? ==> retries > 0 && Reconcile(at, around, retries) == Later(Reconcile(now, around, retries - 1), 1))
  {
  }

  method Persist(repo: SessionRepository, session: DbSessionEntity) returns (answer: Answer<SaveResult>)
    modifies repo, session
    ensures repo.calls == old(repo.calls) + 1
    ensures repo.around(old(repo.calls)).fails ==> answer == Failed
    ensures !repo.around(old(repo.calls)).fails ==>
              answer == Answered(SaveRow(old(repo.Arriving()), TakeSnapshot(old(session.View()))))
    ensures answer.Answered? && answer.value.Done? ==>
              && repo.stored == Some(answer.value.row)
              && session.View() == Settle(old(session.View()), AfterSave(TakeSnapshot(old(session.View()))))
    ensures !(answer.Answered? && answer.value.Done?) ==>
              repo.stored == old(repo.Arriving()) && session.View() == old(session.View())
  {
    var snapshot := session.Snapshot();
    answer := repo.Save(snapshot);
    if answer.Answered? && answer.value.Done? {
      session.AdoptPersistedMeta(AfterSave(snapshot));
    }
  }

  method Reread(repo: SessionRepository, session: DbSessionEntity) returns (answer: Answer<Option<Row>>)
    modifies repo, session
    ensures repo.calls == old(repo.calls) + 1 && repo.stored == old(repo.Arriving())
    ensures answer == if repo.around(old(repo.calls)).fails then Failed else Answered(repo.stored)
    ensures session.View() ==
            if answer.Answered? && answer.value.Some? then Adopt(old(session.View()), answer.value.value)
            else old(session.View())
  {
    answer := repo.FindById();
    if answer.Answered? && answer.value.Some? {
      var row := new DbSessionEntity.FromRow(answer.value.value);
      session.AdoptPersistedState(row);
    }
  }

  method Round(repo: SessionRepository, session: DbSessionEntity, mayRetry: bool)
    returns (ended: Option<Outcome>)
    modifies repo, session
    ensures (ended, Standing(repo.stored, session.View(), repo.calls))
         == RoundOf(Standing(old(repo.stored), old(session.View()), old(repo.calls)), repo.around, mayRetry)
  {
    ghost var at := Standing(repo.stored, session.View(), repo.calls);
    var answer := Persist(repo, session);
    if !(answer.Answered? && answer.value.Conflict?) || !mayRetry {
      return Some(OutcomeOf(answer));
    }
    var reread := Reread(repo, session);
    if reread.Failed? {
      return Some(StoreFailed);
    }
    if reread.value.None? {
      return Some(RowGone);
    }
    ConflictLeavesWorkPending(at.view, ApplyMoves(at.stored, repo.around(at.calls).moves), reread.value.value);
    var pending := session.HasPendingWrite();
    if !pending {
      assert false;
    }
    return None;
  }

  /** Writes the session, reconciling with other writers. `saves` counts the attempts. */
  method PersistReconciling(repo: SessionRepository, session: DbSessionEntity, retries: int)
    returns (outcome: Outcome, saves: nat)
    modifies repo, session
    ensures var end := Reconcile(Standing(old(repo.stored), old(session.View()), old(repo.calls)),
                                 repo.around, AtLeastZero(retries));
            && outcome == end.outcome && saves == end.saves
            && Standing(repo.stored, session.View(), repo.calls) == end.after
  {
    ghost var at := Standing(repo.stored, session.View(), repo.calls);
    ghost var goal := Reconcile(at, repo.around, AtLeastZero(retries));
    saves := 0;
    while true
      invariant saves <= AtLeastZero(retries)
      invariant at == Standing(repo.stored, session.View(), repo.calls)
      invariant goal == Later(Reconcile(at, repo.around, AtLeastZero(retries) - saves), saves)
      decreases AtLeastZero(retries) - saves
    {
      var ended := Round(repo, session, saves < retries);
      ReconcileUnfolds(at, repo.around, AtLeastZero(retries) - saves);
      at := Standing(repo.stored, session.View(), repo.calls);
      saves := saves + 1;
      if ended.Some? {
        return ended.value, saves;
      }
    }
  }

  // ---- What it promises ----

  /** It makes at most one attempt more than it is allowed retries. */
  lemma {:induction false} ReconcileIsBounded(at: Standing, around: Schedule, retries: nat)
    ensures 1 <= Reconcile(at, around, retries).saves <= retries + 1
    decreases retries
  {
    if retries > 0 {
      ReconcileIsBounded(AfterReread(AfterAttempt(at, around), around), around, retries - 1);
    }
  }

  /** After a re-read the session holds the row's version, so only a commit since can refuse it. */
  predicate JustRead(at: Standing) {
    at.stored.Some? && at.view.columns.version == at.stored.value.version
  }

  lemma RefusedMeansCommitted(at: Standing, around: Schedule)
    requires JustRead(at) && Attempt(at, around) == Answered(Conflict)
    ensures CommitsIn(around(at.calls).moves) >= 1
  {
    MovesRaiseVersion(at.stored, around(at.calls).moves);
  }

  /** The commits around two more calls, of which those before the first are counted. */
  lemma RoundAddsUp(around: Schedule, from: nat, to: nat)
    requires from + 2 < to
    ensures CommitsDuring(around, from, to - from)
         >= CommitsIn(around(from).moves) + CommitsDuring(around, from + 2, to - (from + 2))
  {
    assert CommitsDuring(around, from, to - from)
        == CommitsIn(around(from).moves) + CommitsIn(around(from + 1).moves) + CommitsDuring(around, from + 2, to - from - 2);
  }

  /** Giving up takes a foreign commit for every attempt but the first. */
  lemma {:induction false} ExhaustionMeansForeignCommits(at: Standing, around: Schedule, retries: nat)
    requires Reconcile(at, around, retries).outcome.Exhausted?
    ensures var end := Reconcile(at, around, retries);
            && end.saves == retries + 1
            && at.calls < end.after.calls
            && CommitsDuring(around, at.calls, end.after.calls - at.calls)
               >= (if JustRead(at) then retries + 1 else retries)
    decreases retries
  {
    if retries > 0 {
      ExhaustedOneRoundIn(at, around, retries);
      var reread := AfterReread(AfterAttempt(at, around), around);
      ExhaustionMeansForeignCommits(reread, around, retries - 1);
      RoundAddsUp(around, at.calls, Reconcile(reread, around, retries - 1).after.calls);
    } else {
      ExhaustedAtOnce(at, around);
    }
    if JustRead(at) {
      RefusedMeansCommitted(at, around);
    }
  }

  /** With no retry allowed it is exhausted by its one attempt. */
  lemma ExhaustedAtOnce(at: Standing, around: Schedule)
    requires Reconcile(at, around, 0).outcome.Exhausted?
    ensures Attempt(at, around) == Answered(Conflict)
    ensures Reconcile(at, around, 0).saves == 1 && Reconcile(at, around, 0).after.calls == at.calls + 1
    ensures CommitsDuring(around, at.calls, 1) == CommitsIn(around(at.calls).moves)
  {
  }

  /** A write that is to be exhausted goes on, after its first round, from a row it has just read. */
  lemma ExhaustedOneRoundIn(at: Standing, around: Schedule, retries: nat)
    requires retries > 0 && Reconcile(at, around, retries).outcome.Exhausted?
    ensures Attempt(at, around) == Answered(Conflict)
    ensures var reread := AfterReread(AfterAttempt(at, around), around);
      && JustRead(reread) && reread.calls == at.calls + 2
      && Reconcile(at, around, retries) == Later(Reconcile(reread, around, retries - 1), 1)
  {
  }

  /**
   Each outcome says why: a duplicate is an unloaded session that met a row at its only attempt, a failure is the
   last call's, and a row that is gone is gone from the store. A loaded session's conflict is never answered as such
   while there is a retry left.
   */
  lemma {:induction false} OutcomeSaysWhy(at: Standing, around: Schedule, retries: nat)
    ensures var end := Reconcile(at, around, retries);
            && at.calls < end.after.calls <= at.calls + 2 * retries + 1
            && (end.outcome.DuplicateId? <==>
                  !at.view.loaded && !around(at.calls).fails && ApplyMoves(at.stored, around(at.calls).moves).Some?)
            && (!at.view.loaded ==> end.saves == 1)
            && (end.outcome.StoreFailed? <==> around(end.after.calls - 1).fails)
            && (end.outcome.RowGone? <==>
                  at.view.loaded && !around(end.after.calls - 1).fails && end.after.stored.None?)
            && (end.outcome.Exhausted? ==> end.saves == retries + 1 && end.after.calls == at.calls + 2 * retries + 1)
    decreases retries
  {
    if retries > 0 && Attempt(at, around) == Answered(Conflict) {
      var reread := AfterReread(AfterAttempt(at, around), around);
      if !around(at.calls + 1).fails && reread.stored.Some? {
        OutcomeSaysWhy(reread, around, retries - 1);
      }
    }
  }

  ghost predicate NoCallFails(around: Schedule, from: nat, calls: nat) {
    forall i :: from <= i < from + calls ==> !around(i).fails
  }

  lemma {:induction false} GoneStaysGone(around: Schedule, from: nat, calls: nat)
    ensures Drift(None, around, from, calls).None?
    decreases calls
  {
    if calls > 0 {
      MovesRaiseNobody(around(from).moves);
      GoneStaysGone(around, from + 1, calls - 1);
    }
  }

  lemma {:induction false} MovesRaiseNobody(moves: seq<Move>)
    ensures ApplyMoves(None, moves).None?
    decreases |moves|
  {
    if moves != [] {
      MovesRaiseNobody(moves[..|moves| - 1]);
    }
  }

  /**
   A write of a loaded session whose row survives, with no call failing, lands whenever fewer foreign commits come
   between its calls than it has attempts, or one fewer still when its copy may be stale to begin with.
   */
  lemma {:induction false} FewerCommitsThanAttemptsWrite(at: Standing, around: Schedule, retries: nat)
    requires at.view.loaded && NoCallFails(around, at.calls, 2 * retries + 1)
    requires Drift(at.stored, around, at.calls, 2 * retries + 1).Some?
    requires CommitsDuring(around, at.calls, 2 * retries + 1) < if JustRead(at) then retries + 1 else retries
    ensures Reconcile(at, around, retries).outcome.Written?
  {
    var end := Reconcile(at, around, retries);
    OutcomeSaysWhy(at, around, retries);
    if end.outcome.Exhausted? {
      ExhaustionMeansForeignCommits(at, around, retries);
    }
    if end.outcome.RowGone? {
      FailureLosesNothing(at, around, retries);
      var used := end.after.calls - at.calls;
      DriftOn(at.stored, around, at.calls, used, 2 * retries + 1 - used);
      GoneStaysGone(around, end.after.calls, 2 * retries + 1 - used);
    }
  }

  lemma {:induction false} DriftOn(stored: Option<Row>, around: Schedule, from: nat, calls: nat, more: nat)
    ensures Drift(stored, around, from, calls + more)
         == Drift(Drift(stored, around, from, calls), around, from + calls, more)
    decreases calls
  {
    if calls > 0 {
      DriftOn(ApplyMoves(stored, around(from).moves), around, from + 1, calls - 1, more);
    }
  }

  /** With nobody else committing and no call failing, two attempts are always enough. */
  lemma {:induction false} CalmNeedsTwoAttempts(at: Standing, around: Schedule, retries: nat)
    requires Calm(around, at.calls, Reconcile(at, around, retries).after.calls)
    ensures var end := Reconcile(at, around, retries);
            && end.saves <= (if JustRead(at) then 1 else 2)
            && (end.outcome.Exhausted? ==> retries == 0 && !JustRead(at))
            && !end.outcome.StoreFailed?
            && (at.view.loaded && end.after.stored.Some? && (retries > 0 || JustRead(at)) ==> end.outcome.Written?)
    decreases retries
  {
    CallsGrow(at, around, retries);
    if JustRead(at) && Attempt(at, around) == Answered(Conflict) {
      RefusedMeansCommitted(at, around);
    } else if retries > 0 && Attempt(at, around) == Answered(Conflict) {
      var reread := AfterReread(AfterAttempt(at, around), around);
      if !around(at.calls + 1).fails && reread.stored.Some? {
        CallsGrow(reread, around, retries - 1);
        CalmNeedsTwoAttempts(reread, around, retries - 1);
      }
    }
  }

  lemma {:induction false} CallsGrow(at: Standing, around: Schedule, retries: nat)
    ensures at.calls < Reconcile(at, around, retries).after.calls
    decreases retries
  {
    if retries > 0 {
      CallsGrow(AfterReread(AfterAttempt(at, around), around), around, retries - 1);
    }
  }

  /** A write that did not land leaves the row to the others and all of its own work pending. */
  lemma {:induction false} FailureLosesNothing(at: Standing, around: Schedule, retries: nat)
    requires !Reconcile(at, around, retries).outcome.Written?
    ensures var end := Reconcile(at, around, retries);
            && at.calls <= end.after.calls
            && end.after.stored == Drift(at.stored, around, at.calls, end.after.calls - at.calls)
            && end.after.view.dirty == at.view.dirty && end.after.view.log == at.view.log
            && end.after.view.pendingErr == at.view.pendingErr
            && (end.outcome.RowGone? ==> end.after.stored.None?)
    decreases retries
  {
    var tried := AfterAttempt(at, around);
    var answer := Attempt(at, around);
    if retries > 0 && answer == Answered(Conflict) {
      var reread := AfterReread(tried, around);
      assert Drift(at.stored, around, at.calls, 2) == reread.stored;
      if !around(tried.calls).fails && reread.stored.Some? {
        FailureLosesNothing(reread, around, retries - 1);
        var n := Reconcile(at, around, retries).after.calls - at.calls;
        assert Drift(at.stored, around, at.calls, n) == Drift(reread.stored, around, reread.calls, n - 2);
      }
    }
  }

  lemma AdoptLastWins(e: Entity, first: Row, second: Row)
    ensures Adopt(Adopt(e, first), second) == Adopt(e, second)
  {
  }

  /** What a landed write makes of the row it met, when it was written from `view`. */
  predicate BothSurvive(view: Entity, met: Row, left: Row) {
    && left.version == met.version + 1
    && left.userId == (if UserID in view.dirty then view.columns.userId else met.userId)
    && left.attributes == (if Attributes in view.dirty then Replay(met.attributes, view.log) else met.attributes)
  }

  /**
   A reconciled write of state leaves both writers' changes in the row: the one it met, with this
   session's own mutations replayed on it.
   */
  lemma {:induction false} ReconciledWriteKeepsBoth(at: Standing, around: Schedule, retries: nat)
    requires Guarded(at.view.dirty) && Tidy(at.view) && at.view.loaded
    requires Reconcile(at, around, retries).outcome.Written?
    requires JustRead(at) ==> at.view == Adopt(at.view, at.stored.value)
    ensures var end := Reconcile(at, around, retries);
            && end.arriving.Some? && end.after.stored.Some?
            && (end.saves > 1 || JustRead(at) ==>
                  BothSurvive(at.view, end.arriving.value, end.after.stored.value))
            && end.after.view.dirty == {} && end.after.view.log == []
    decreases retries
  {
    var answer := Attempt(at, around);
    var moves := around(at.calls).moves;
    if answer == Answered(Conflict) {
      var reread := AfterReread(AfterAttempt(at, around), around);
      AdoptLastWins(at.view, reread.stored.value, reread.stored.value);
      ReconciledWriteKeepsBoth(reread, around, retries - 1);
    } else {
      var arriving := ApplyMoves(at.stored, moves);
      GuardedWriteExactly(at.view, arriving.value);
      SuccessfulWriteCarriesEverything(at.view, arriving);
      if JustRead(at) {
        MovesRaiseVersion(at.stored, moves);
        MovesWithoutCommitsKeepState(at.stored, moves);
      }
    }
  }
}
