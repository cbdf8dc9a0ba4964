/**
 Rotations, logins and logouts interleaved, of any sessions on any replicas.

 Each rotation or login is an agent that takes one store call at a time; logouts, sweeps and the
 other agents act between them. A minted id is fresh, and the store says truthfully whether a
 delete removed a row. A setter's write-through may fail unnoticed, AddSession may not.
 */
module AuthRuns {
  import opened Options
  import AuthStrategy

  datatype Stage =
    | Revoking            // about to delete the presented session
    | Minting             // about to insert the new one
    | Carrying            // the new row exists; its setters write through
    | Confirming          // about to AddSession the rotated session
    | Authenticating      // a login setting its user
    | ConfirmingLogin     // about to AddSession the authenticated session
    | Issuing             // everything is stored; about to write the cookie
    | RollingBack         // a failed login about to revoke its own session
    | Issued
    | Abandoned

  /**
   `presented` is the session it was given, `carries` the user id it read off it, `source` the
   session it removed, `minted` the one it made, `login` the user to authenticate, if any.
   */
  datatype Agent = Agent(login: Option<string>, presented: Option<string>, carries: string,
                         source: Option<string>, minted: Option<string>, stage: Stage)

  datatype Remover = ByAgent(a: nat) | ByLogout

  /** `rows` maps a session to its user; `removed` says who deleted it; `held` is every pair ever stored. */
  datatype Sys = Sys(rows: map<string, string>, used: set<string>, removed: map<string, Remover>,
                     held: set<(string, string)>, agents: map<nat, Agent>, cookies: set<string>)

  datatype Event =
    | Login(a: nat, userId: string, presented: Option<string>, sees: string)
    | Rotate(a: nat, session: string, sees: string)
    | Revoke(a: nat)
    | Mint(a: nat, id: string)
    | WriteThrough(a: nat, lands: bool)
    | Confirm(a: nat)
    | SetUser(a: nat, lands: bool)
    | ConfirmLogin(a: nat)
    | Issue(a: nat)
    | RollBack(a: nat)
    | GiveUp(a: nat)
    | Logout(id: string)

  predicate InStage(s: Sys, a: nat, stage: Stage) {
    && a in s.agents && s.agents[a].stage == stage
    && (stage.Revoking? ==> s.agents[a].presented.Some?)
    && (stage != Revoking && stage != Minting ==> s.agents[a].minted.Some?)
    && (stage == Authenticating || stage == ConfirmingLogin ==> s.agents[a].login.Some?)
  }

  predicate Enabled(s: Sys, ev: Event) {
    match ev
    case Login(a, _, _, _) => a !in s.agents
    case Rotate(a, _, _) => a !in s.agents
    case Revoke(a) => InStage(s, a, Revoking)
    case Mint(a, id) => InStage(s, a, Minting) && id !in s.used
    case WriteThrough(a, _) => InStage(s, a, Carrying)
    case Confirm(a) => InStage(s, a, Confirming)
    case SetUser(a, _) => InStage(s, a, Authenticating)
    case ConfirmLogin(a) => InStage(s, a, ConfirmingLogin)
    case Issue(a) => InStage(s, a, Issuing)
    case RollBack(a) => InStage(s, a, RollingBack)
    case GiveUp(a) => a in s.agents && !s.agents[a].stage.Issued?
    case Logout(_) => true
  }

  function Step(s: Sys, a: nat, agent: Agent): Sys {
    s.(agents := s.agents[a := agent])
  }

  function Remove(s: Sys, id: string, who: Remover): Sys {
    if id in s.rows then s.(rows := AuthStrategy.Deleted(s.rows, id), removed := s.removed[id := who]) else s
  }

  /** The write of a session's user, as the store takes or refuses it. */
  function Store(s: Sys, id: string, persisted: bool, userId: string): Sys {
    if !AuthStrategy.Lands(s.rows, id, persisted) then s
    else s.(rows := AuthStrategy.Written(s.rows, id, persisted, userId), used := s.used + {id},
            held := s.held + {(id, userId)})
  }

  /** The user the agent's own session is to have once it is confirmed. */
  function Wants(agent: Agent): string {
    if agent.login.Some? then agent.login.value else agent.carries
  }

  function Next(s: Sys, ev: Event): Sys
    requires Enabled(s, ev)
  {
    match ev
    case Login(a, userId, presented, sees) =>
      Step(s, a, Agent(Some(userId), presented, sees, None, None, if presented.Some? then Revoking else Minting))
    case Rotate(a, session, sees) => Step(s, a, Agent(None, Some(session), sees, None, None, Revoking))
    case Revoke(a) =>
      var agent := s.agents[a];
      var id := agent.presented.value;
      if id in s.rows then
        Step(Remove(s, id, ByAgent(a)), a, agent.(source := Some(id), stage := Minting))
      else Step(s, a, agent.(stage := Abandoned))
    case Mint(a, id) =>
      var agent := s.agents[a];
      Step(Store(s, id, false, ""), a,
           agent.(minted := Some(id), stage := if agent.source.Some? then Carrying else Authenticating))
    case WriteThrough(a, lands) =>
      var agent := s.agents[a];
      var id := agent.minted.value;
      Step(if lands then Store(s, id, true, agent.carries) else s, a, agent.(stage := Confirming))
    case Confirm(a) =>
      var agent := s.agents[a];
      var id := agent.minted.value;
      if AuthStrategy.Lands(s.rows, id, true) then
        Step(Store(s, id, true, agent.carries), a, agent.(stage := if agent.login.Some? then Authenticating else Issuing))
      else Step(s, a, agent.(stage := Abandoned))
    case SetUser(a, lands) =>
      var agent := s.agents[a];
      var id := agent.minted.value;
      Step(if lands then Store(s, id, true, agent.login.value) else s, a, agent.(stage := ConfirmingLogin))
    case ConfirmLogin(a) =>
      var agent := s.agents[a];
      var id := agent.minted.value;
      if AuthStrategy.Lands(s.rows, id, true) then
        Step(Store(s, id, true, agent.login.value), a, agent.(stage := Issuing))
      else Step(s, a, agent.(stage := RollingBack))
    case Issue(a) =>
      Step(s, a, s.agents[a].(stage := Issued)).(cookies := s.cookies + {s.agents[a].minted.value})
    case RollBack(a) =>
      Step(Remove(s, s.agents[a].minted.value, ByAgent(a)), a, s.agents[a].(stage := Abandoned))
    case GiveUp(a) =>
      var agent := s.agents[a];
      var rolls := agent.stage.Authenticating? || agent.stage.ConfirmingLogin?;
      Step(s, a, agent.(stage := if rolls then RollingBack else Abandoned))
    case Logout(id) => Remove(s, id, ByLogout)
  }

  // ---- The invariant ----

  predicate RowsOk(s: Sys) {
    && s.used == s.rows.Keys + s.removed.Keys
    && s.rows.Keys !! s.removed.Keys
    && (forall id :: id in s.rows ==> (id, s.rows[id]) in s.held)
  }

  predicate StoredFor(s: Sys, agent: Agent)
    requires agent.minted.Some?
  {
    var id := agent.minted.value;
    (id, Wants(agent)) in s.held && (id in s.rows ==> s.rows[id] == Wants(agent))
  }

  predicate AgentOk(s: Sys, a: nat, agent: Agent) {
    && (agent.source.Some? ==>
          && agent.source == agent.presented
          && agent.source.value in s.removed && s.removed[agent.source.value] == ByAgent(a))
    && (agent.stage.Revoking? ==> agent.source.None?)
    && (agent.stage.Revoking? || agent.stage.Minting? ==> agent.minted.None?)
    && (agent.minted.Some? ==>
          && agent.minted.value in s.used
          && agent.source == agent.presented
          && (agent.minted.value in s.cookies <==> agent.stage.Issued?))
    && (agent.stage.Minting? ==> agent.source == agent.presented)
    && (agent.login.None? || agent.stage.Revoking? ==> agent.presented.Some?)
    && (agent.stage.Revoking? || agent.stage.Minting? || agent.stage.Abandoned? || agent.minted.Some?)
    && (agent.stage.Authenticating? || agent.stage.ConfirmingLogin? ==> agent.login.Some?)
    && (agent.stage.Issuing? || agent.stage.Issued? ==> agent.minted.Some? && StoredFor(s, agent))
  }

  ghost predicate Inv(s: Sys) {
    && RowsOk(s)
    && s.cookies <= s.used
    && (forall a :: a in s.agents ==> AgentOk(s, a, s.agents[a]))
    && (forall a, b :: a in s.agents && b in s.agents && a != b && s.agents[a].minted.Some? ==>
          s.agents[a].minted != s.agents[b].minted)
  }

  /** Nothing has happened yet: any sessions may be stored, nobody is at work. */
  predicate Start(s: Sys) {
    && s.used == s.rows.Keys && s.removed == map[] && s.agents == map[] && s.cookies == {}
    && s.held == set id | id in s.rows :: (id, s.rows[id])
  }

  /** Another agent's step: it may remove rows, add facts, and write rows that are not this one's. */
  predicate Elsewhere(s: Sys, t: Sys, agent: Agent) {
    && s.used <= t.used && s.held <= t.held
    && (forall id :: id in s.removed ==> id in t.removed && t.removed[id] == s.removed[id])
    && (agent.minted.Some? ==>
          var id := agent.minted.value;
          && (id in t.cookies <==> id in s.cookies)
          && (id in t.rows ==> id in s.rows && t.rows[id] == s.rows[id]))
  }

  lemma ElsewhereKeeps(s: Sys, t: Sys, b: nat, agent: Agent)
    requires AgentOk(s, b, agent) && Elsewhere(s, t, agent)
    ensures AgentOk(t, b, agent)
  {
  }

  lemma StepIsElsewhere(s: Sys, ev: Event, b: nat)
    requires Inv(s) && Enabled(s, ev) && b in s.agents && (ev.Logout? || ev.a != b)
    ensures b in Next(s, ev).agents && Next(s, ev).agents[b] == s.agents[b]
    ensures Elsewhere(s, Next(s, ev), s.agents[b])
  {
    assert AgentOk(s, b, s.agents[b]);
    if !ev.Logout? && ev.a in s.agents {
      assert AgentOk(s, ev.a, s.agents[ev.a]);
    }
  }

  lemma RemoveKeepsRows(s: Sys, id: string, who: Remover)
    requires RowsOk(s)
    ensures RowsOk(Remove(s, id, who)) && Remove(s, id, who).used == s.used && Remove(s, id, who).cookies == s.cookies
  {
  }

  lemma StoreKeepsRows(s: Sys, id: string, persisted: bool, userId: string)
    requires RowsOk(s) && (persisted || id !in s.used)
    ensures RowsOk(Store(s, id, persisted, userId)) && s.used <= Store(s, id, persisted, userId).used
    ensures Store(s, id, persisted, userId).cookies == s.cookies
  {
  }

  lemma RowsStayOk(s: Sys, ev: Event)
    requires Inv(s) && Enabled(s, ev)
    ensures RowsOk(Next(s, ev)) && Next(s, ev).cookies <= Next(s, ev).used
  {
    if !ev.Logout? && ev.a in s.agents {
      assert AgentOk(s, ev.a, s.agents[ev.a]);
    }
    match ev {
      case Revoke(a) => RemoveKeepsRows(s, s.agents[a].presented.value, ByAgent(a));
      case RollBack(a) => RemoveKeepsRows(s, s.agents[a].minted.value, ByAgent(a));
      case Logout(id) => RemoveKeepsRows(s, id, ByLogout);
      case Mint(a, id) => StoreKeepsRows(s, id, false, "");
      case WriteThrough(a, _) => StoreKeepsRows(s, s.agents[a].minted.value, true, s.agents[a].carries);
      case Confirm(a) => StoreKeepsRows(s, s.agents[a].minted.value, true, s.agents[a].carries);
      case SetUser(a, _) => StoreKeepsRows(s, s.agents[a].minted.value, true, s.agents[a].login.value);
      case ConfirmLogin(a) => StoreKeepsRows(s, s.agents[a].minted.value, true, s.agents[a].login.value);
      case _ =>
    }
  }

  lemma OwnStepKeeps(s: Sys, ev: Event)
    requires Inv(s) && Enabled(s, ev) && !ev.Logout?
    ensures ev.a in Next(s, ev).agents && AgentOk(Next(s, ev), ev.a, Next(s, ev).agents[ev.a])
  {
    if ev.a in s.agents {
      assert AgentOk(s, ev.a, s.agents[ev.a]);
    }
  }

  lemma StepKeepsInv(s: Sys, ev: Event)
    requires Inv(s) && Enabled(s, ev)
    ensures Inv(Next(s, ev))
  {
    var t := Next(s, ev);
    RowsStayOk(s, ev);
    if !ev.Logout? {
      OwnStepKeeps(s, ev);
    }
    forall b | b in t.agents && (ev.Logout? || b != ev.a)
      ensures b in s.agents && t.agents[b] == s.agents[b] && AgentOk(t, b, t.agents[b])
    {
      StepIsElsewhere(s, ev, b);
      ElsewhereKeeps(s, t, b, s.agents[b]);
    }
    forall a, b | a in t.agents && b in t.agents && a != b && t.agents[a].minted.Some?
      ensures t.agents[a].minted != t.agents[b].minted
    {
      assert a in s.agents ==> AgentOk(s, a, s.agents[a]);
      assert b in s.agents ==> AgentOk(s, b, s.agents[b]);
    }
  }

  predicate Legal(s: Sys, run: seq<Event>)
    decreases |run|
  {
    run == [] || (Enabled(s, run[0]) && Legal(Next(s, run[0]), run[1..]))
  }

  function After(s: Sys, run: seq<Event>): Sys
    requires Legal(s, run)
    decreases |run|
  {
    if run == [] then s else After(Next(s, run[0]), run[1..])
  }

  lemma {:induction false} RunKeepsInv(s: Sys, run: seq<Event>)
    requires Inv(s) && Legal(s, run)
    ensures Inv(After(s, run))
    ensures forall id :: id in s.removed ==> id in After(s, run).removed && After(s, run).removed[id] == s.removed[id]
    decreases |run|
  {
    if run != [] {
      StepKeepsInv(s, run[0]);
      RemovalsStay(s, run[0]);
      RunKeepsInv(Next(s, run[0]), run[1..]);
    }
  }

  lemma RemovalsStay(s: Sys, ev: Event)
    requires Inv(s) && Enabled(s, ev)
    ensures forall id :: id in s.removed ==> id in Next(s, ev).removed && Next(s, ev).removed[id] == s.removed[id]
  {
  }

  // ---- What it gives ----

  /**
   However rotations, logins and logouts interleave, of all those presented with one session at most one gets a
   new id out of it, and that one is who removed the row.
   */
  lemma AtMostOneCarriesOn(start: Sys, run: seq<Event>, a: nat, b: nat, id: string)
    requires Start(start) && Legal(start, run)
    requires a in After(start, run).agents && b in After(start, run).agents
    requires var agents := After(start, run).agents;
      && agents[a].presented == Some(id) && agents[a].minted.Some?
      && agents[b].presented == Some(id) && agents[b].minted.Some?
    ensures a == b
    ensures var s := After(start, run); id in s.removed && s.removed[id] == ByAgent(a)
  {
    RunKeepsInv(start, run);
    var s := After(start, run);
    assert AgentOk(s, a, s.agents[a]) && AgentOk(s, b, s.agents[b]);
  }

  /** A session a logout removed is carried nowhere, then or ever after. */
  lemma LoggedOutIsNeverCarriedOn(start: Sys, run: seq<Event>, more: seq<Event>, a: nat, id: string)
    requires Start(start) && Legal(start, run) && Legal(After(start, run), more)
    requires id in After(start, run).removed && After(start, run).removed[id] == ByLogout
    requires a in After(After(start, run), more).agents
    ensures var agent := After(After(start, run), more).agents[a];
      agent.source != Some(id) && (agent.presented == Some(id) ==> agent.minted.None?)
    ensures id !in After(After(start, run), more).rows
  {
    RunKeepsInv(start, run);
    RunKeepsInv(After(start, run), more);
    var s := After(After(start, run), more);
    assert AgentOk(s, a, s.agents[a]);
  }

  /**
   A cookie is written only for a session whose row has held its user, and holds no other user for
   as long as it exists; and the session the client presented is gone by then.
   */
  lemma CookieMeansStored(start: Sys, run: seq<Event>, a: nat)
    requires Start(start) && Legal(start, run) && a in After(start, run).agents
    requires After(start, run).agents[a].stage.Issued? || After(start, run).agents[a].stage.Issuing?
    ensures var s := After(start, run);
            var agent := s.agents[a];
            && agent.minted.Some?
            && (agent.minted.value, Wants(agent)) in s.held
            && (agent.minted.value in s.rows ==> s.rows[agent.minted.value] == Wants(agent))
            && (agent.presented.Some? ==>
                  && agent.presented == agent.source
                  && agent.presented.value !in s.rows)
  {
    RunKeepsInv(start, run);
    assert AgentOk(After(start, run), a, After(start, run).agents[a]);
  }

  // ---- When an agent gets its session ----

  function Rank(stage: Stage): nat {
    match stage
    case Revoking => 0
    case Minting => 1
    case Carrying => 2
    case Confirming => 3
    case Authenticating => 4
    case ConfirmingLogin => 5
    case Issuing => 6
    case RollingBack => 7
    case Issued => 8
    case Abandoned => 8
  }

  predicate Arrives(e: Event) {
    e.Login? || e.Rotate?
  }

  predicate OwnStep(e: Event, a: nat) {
    !e.Logout? && !Arrives(e) && e.a == a
  }

  function OwnSteps(run: seq<Event>, a: nat): nat {
    if run == [] then 0 else OwnSteps(run[1..], a) + if OwnStep(run[0], a) then 1 else 0
  }

  /** At some delete of its presented session, the agent found no row. */
  predicate FoundGone(s: Sys, run: seq<Event>, a: nat)
    requires Legal(s, run)
    decreases |run|
  {
    run != [] &&
    ((run[0] == Revoke(a) && s.agents[a].presented.value !in s.rows) || FoundGone(Next(s, run[0]), run[1..], a))
  }

  predicate GivesUp(run: seq<Event>, a: nat) {
    exists i :: 0 <= i < |run| && run[i] == GiveUp(a)
  }

  /** The session the agent made has been removed by somebody else. */
  predicate LostIt(s: Sys, a: nat) {
    a in s.agents && s.agents[a].minted.Some? &&
    var id := s.agents[a].minted.value;
    id in s.removed && s.removed[id] != ByAgent(a)
  }

  /** An agent that has not given up removes nothing it made, and goes back only when that is gone. */
  predicate Persistent(s: Sys, a: nat) {
    a in s.agents && s.agents[a].minted.Some? ==>
      && (s.agents[a].minted.value in s.removed || s.agents[a].stage.RollingBack? || s.agents[a].stage.Abandoned? ==>
            LostIt(s, a))
  }

  lemma PersistentKept(s: Sys, e: Event, a: nat)
    requires Inv(s) && Persistent(s, a) && Enabled(s, e) && e != GiveUp(a)
    ensures Persistent(Next(s, e), a)
  {
    if a in s.agents && (e.Logout? || e.a != a) {
      StepIsElsewhere(s, e, a);
      OthersRemoveAsThemselves(s, e, a);
    } else if a in s.agents {
      assert AgentOk(s, a, s.agents[a]);
    }
  }

  lemma OthersRemoveAsThemselves(s: Sys, e: Event, a: nat)
    requires Enabled(s, e) && (e.Logout? || e.a != a)
    ensures forall id :: id in Next(s, e).removed && id !in s.removed ==> Next(s, e).removed[id] != ByAgent(a)
  {
  }

  /** Each of its own steps takes an agent further. */
  lemma StepAdvances(s: Sys, e: Event, a: nat)
    requires Inv(s) && Enabled(s, e) && a in s.agents
    ensures a in Next(s, e).agents
    ensures Rank(Next(s, e).agents[a].stage) >= Rank(s.agents[a].stage) + (if OwnStep(e, a) then 1 else 0)
         || Next(s, e).agents[a].stage.Abandoned?
  {
    assert AgentOk(s, a, s.agents[a]);
    if e.Logout? || e.a != a {
      StepIsElsewhere(s, e, a);
    }
  }

  lemma GivesUpLater(run: seq<Event>, a: nat)
    requires run != [] && !GivesUp(run, a)
    ensures run[0] != GiveUp(a) && !GivesUp(run[1..], a)
  {
    assert forall i :: 0 <= i < |run| - 1 ==> run[1..][i] == run[i + 1];
  }

  lemma {:induction false} RunKeepsPersistent(s: Sys, run: seq<Event>, a: nat)
    requires Inv(s) && Persistent(s, a) && Legal(s, run) && !GivesUp(run, a)
    ensures Persistent(After(s, run), a)
    decreases |run|
  {
    if run != [] {
      GivesUpLater(run, a);
      StepKeepsInv(s, run[0]);
      PersistentKept(s, run[0], a);
      RunKeepsPersistent(Next(s, run[0]), run[1..], a);
    }
  }

  /** Stopped with nothing made. */
  predicate EmptyHanded(s: Sys, a: nat) {
    a in s.agents && s.agents[a].stage.Abandoned? && s.agents[a].minted.None?
  }

  lemma EmptyHandedByStep(s: Sys, e: Event, a: nat)
    requires Inv(s) && Enabled(s, e) && e != GiveUp(a) && !EmptyHanded(s, a)
    requires EmptyHanded(Next(s, e), a)
    ensures e == Revoke(a) && s.agents[a].presented.value !in s.rows
  {
    if a in s.agents {
      assert AgentOk(s, a, s.agents[a]);
    }
  }

  lemma {:induction false} EmptyHandedFoundItGone(s: Sys, run: seq<Event>, a: nat)
    requires Inv(s) && Legal(s, run) && !GivesUp(run, a) && !EmptyHanded(s, a)
    requires EmptyHanded(After(s, run), a)
    ensures FoundGone(s, run, a)
    decreases |run|
  {
    if run != [] {
      GivesUpLater(run, a);
      StepKeepsInv(s, run[0]);
      if EmptyHanded(Next(s, run[0]), a) {
        EmptyHandedByStep(s, run[0], a);
      } else {
        EmptyHandedFoundItGone(Next(s, run[0]), run[1..], a);
      }
    }
  }

  lemma {:induction false} StepsAdvance(s: Sys, run: seq<Event>, a: nat)
    requires Inv(s) && Legal(s, run) && a in After(s, run).agents
    ensures var stage := After(s, run).agents[a].stage;
      stage.Abandoned? || Rank(stage) >= OwnSteps(run, a) + if a in s.agents then Rank(s.agents[a].stage) else 0
    decreases |run|
  {
    if run != [] {
      var t := Next(s, run[0]);
      StepKeepsInv(s, run[0]);
      if a in s.agents {
        StepAdvances(s, run[0], a);
      }
      if a in t.agents && t.agents[a].stage.Abandoned? {
        AbandonedForGood(t, run[1..], a);
      } else {
        StepsAdvance(t, run[1..], a);
      }
    }
  }

  lemma {:induction false} AbandonedForGood(s: Sys, run: seq<Event>, a: nat)
    requires Legal(s, run) && a in s.agents && s.agents[a].stage.Abandoned?
    ensures a in After(s, run).agents && After(s, run).agents[a].stage.Abandoned?
    decreases |run|
  {
    if run != [] {
      AbandonedForGood(Next(s, run[0]), run[1..], a);
    }
  }

  /**
   Whatever the others do: an agent that does not give up, finds the session it was presented with, and whose own
   session nobody removes is never turned back, and has its cookie out by its seventh step.
   */
  lemma LeftAloneIsIssued(start: Sys, run: seq<Event>, a: nat)
    requires Start(start) && Legal(start, run) && a in After(start, run).agents
    requires !GivesUp(run, a) && !FoundGone(start, run, a) && !LostIt(After(start, run), a)
    ensures !After(start, run).agents[a].stage.RollingBack? && !After(start, run).agents[a].stage.Abandoned?
    ensures OwnSteps(run, a) >= 7 ==> After(start, run).agents[a].stage.Issued?
  {
    RunKeepsInv(start, run);
    RunKeepsPersistent(start, run, a);
    if EmptyHanded(After(start, run), a) {
      EmptyHandedFoundItGone(start, run, a);
    }
    var end := After(start, run);
    assert AgentOk(end, a, end.agents[a]);
    StepsAdvance(start, run, a);
  }

  /** What the agent does next, the fresh id being `id`. */
  function OwnMove(agent: Agent, a: nat, id: string): Event {
    match agent.stage
    case Revoking => Event.Revoke(a)
    case Minting => Mint(a, id)
    case Carrying => WriteThrough(a, true)
    case Confirming => Confirm(a)
    case Authenticating => SetUser(a, true)
    case ConfirmingLogin => ConfirmLogin(a)
    case Issuing => Issue(a)
    case RollingBack => RollBack(a)
    case _ => GiveUp(a)
  }

  /** In every run an agent at work is never stuck: it can always take its next step. */
  lemma NobodyIsStuck(start: Sys, run: seq<Event>, a: nat, id: string)
    requires Start(start) && Legal(start, run) && a in After(start, run).agents
    requires id !in After(start, run).used
    ensures var s := After(start, run);
      s.agents[a].stage.Issued? || Enabled(s, OwnMove(s.agents[a], a, id))
  {
    RunKeepsInv(start, run);
    assert AgentOk(After(start, run), a, After(start, run).agents[a]);
  }

  // ---- A login that fails late ----

  /** The agent gives up on its rollback, or with everything stored and the cookie still to write. */
  predicate GivesUpLate(s: Sys, e: Event, a: nat) {
    e == GiveUp(a) && a in s.agents && (s.agents[a].stage.RollingBack? || s.agents[a].stage.Issuing?)
  }

  predicate NeverGivesUpLate(s: Sys, run: seq<Event>, a: nat)
    requires Legal(s, run)
    decreases |run|
  {
    run == [] || (!GivesUpLate(s, run[0], a) && NeverGivesUpLate(Next(s, run[0]), run[1..], a))
  }

  /** Past setting its user, the agent is at work on its own session, has handed it out, or has removed it. */
  predicate SettlesIt(s: Sys, a: nat) {
    && a in s.agents && s.agents[a].minted.Some?
    && match s.agents[a].stage
       case Authenticating | ConfirmingLogin | Issuing | Issued | RollingBack => true
       case Abandoned => s.agents[a].minted.value !in s.rows
       case _ => false
  }

  lemma SettlesItKept(s: Sys, e: Event, a: nat)
    requires Inv(s) && SettlesIt(s, a) && Enabled(s, e) && !GivesUpLate(s, e, a)
    ensures SettlesIt(Next(s, e), a)
  {
    assert AgentOk(s, a, s.agents[a]);
    if e.Logout? || e.a != a {
      StepIsElsewhere(s, e, a);
    }
  }

  lemma {:induction false} SettlesItOverRun(s: Sys, run: seq<Event>, a: nat)
    requires Inv(s) && SettlesIt(s, a) && Legal(s, run) && NeverGivesUpLate(s, run, a)
    ensures SettlesIt(After(s, run), a)
    decreases |run|
  {
    if run != [] {
      SettlesItKept(s, run[0], a);
      StepKeepsInv(s, run[0]);
      SettlesItOverRun(Next(s, run[0]), run[1..], a);
    }
  }

  /**
   A login that failed after it began to set its user leaves no row behind, whichever of its calls failed and whatever
   the others did, unless its own rollback failed too.
   */
  lemma FailedLoginLeavesNothing(start: Sys, run: seq<Event>, more: seq<Event>, a: nat)
    requires Start(start) && Legal(start, run) && Legal(After(start, run), more)
    requires InStage(After(start, run), a, Authenticating) && NeverGivesUpLate(After(start, run), more, a)
    ensures var end := After(After(start, run), more);
      && a in end.agents && end.agents[a].minted.Some?
      && (end.agents[a].stage.Abandoned? ==> end.agents[a].minted.value !in end.rows)
  {
    RunKeepsInv(start, run);
    SettlesItOverRun(After(start, run), more, a);
  }

  /** An agent whose cookie is not out has given its id to nobody. */
  lemma FailureWritesNoCookie(start: Sys, run: seq<Event>, a: nat)
    requires Start(start) && Legal(start, run) && a in After(start, run).agents
    requires !After(start, run).agents[a].stage.Issued? && After(start, run).agents[a].minted.Some?
    ensures After(start, run).agents[a].minted.value !in After(start, run).cookies
  {
    RunKeepsInv(start, run);
    assert AgentOk(After(start, run), a, After(start, run).agents[a]);
  }
}
