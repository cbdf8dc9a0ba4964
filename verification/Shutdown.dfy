/**
 Shutting the server down, for any number of concurrent callers, beside live requests, jobs and
 async subscribers.

 The first caller drains in order: the HTTP server, the job scheduler, the event bus; each wait gives
 up when the caller's deadline has passed. The scheduler is the machine of Schedulers, with its own
 steps between any two of these. Requests, jobs and async subscribers are the only publishers.
 */
module Shutdowns {
  import B = EventBuses
  import S = Schedulers

  type Id = nat

  datatype Config = Config(http: bool, scheduler: bool, bus: bool, datasources: bool)

  datatype Step = HttpServer | JobScheduler | EventBus | Datasources

  // ---- One call at a time ----

  /** How a step would end for its caller: in time, or not. */
  datatype Ending = InTime | Fails

  function Note(failed: bool, step: Step): seq<Step> {
    if failed then [step] else []
  }

  function Bound(c: Config, scheduler: Ending, bus: Ending): seq<(Step, Ending)> {
    (if c.scheduler then [(JobScheduler, scheduler)] else []) + if c.bus then [(EventBus, bus)] else []
  }

  /** The drains past the first failure of one of them are started but not waited for. */
  function DrainErrors(drains: seq<(Step, Ending)>, expired: bool): seq<Step> {
    if drains == [] then []
    else
      var failed := expired || drains[0].1.Fails?;
      Note(failed, drains[0].0) + DrainErrors(drains[1..], failed)
  }

  /** What one shutdown reports, and whether it closes the datasources. */
  function Reported(c: Config, http: Ending, expired: bool, scheduler: Ending, bus: Ending, closeFails: bool)
    : (seq<Step>, bool)
  {
    var drained := Note(c.http && http.Fails?, HttpServer) + DrainErrors(Bound(c, scheduler, bus), expired);
    if c.datasources && drained == [] then (Note(closeFails, Datasources), true) else (drained, false)
  }

  class ServerApp {
    const config: Config
    var called: bool
    var result: seq<Step>
    var closes: nat

    constructor (config: Config)
      ensures this.config == config && !called && closes == 0
    {
      this.config := config;
      called, result, closes := false, [], 0;
    }

    /** Every drain is begun, in order, also those not waited for. */
    method Drain(drains: seq<(Step, Ending)>, expired: bool) returns (errs: seq<Step>, begun: seq<Step>)
      ensures errs == DrainErrors(drains, expired)
      ensures |begun| == |drains| && forall i :: 0 <= i < |drains| ==> begun[i] == drains[i].0
    {
      errs, begun := [], [];
      var late := expired;
      for i := 0 to |drains|
        invariant errs + DrainErrors(drains[i..], late) == DrainErrors(drains, expired)
        invariant |begun| == i && forall j :: 0 <= j < i ==> begun[j] == drains[j].0
      {
        assert drains[i..][1..] == drains[i + 1..];
        begun := begun + [drains[i].0];
        if late || drains[i].1.Fails? {
          late := true;
          errs := errs + [drains[i].0];
        }
      }
    }

    /** The first call drains and keeps the result; a later one only returns it. */
    method Shutdown(http: Ending, expired: bool, scheduler: Ending, bus: Ending, closeFails: bool)
      returns (errs: seq<Step>)
      modifies this
      ensures called && errs == result
      ensures old(called) ==> result == old(result) && closes == old(closes)
      ensures !old(called) ==>
        (result, closes > old(closes)) == Reported(config, http, expired, scheduler, bus, closeFails)
        && closes <= old(closes) + 1
    {
      if called {
        return result;
      }
      called := true;
      errs := Note(config.http && http.Fails?, HttpServer);
      var drainErrs, _ := Drain(Bound(config, scheduler, bus), expired);
      errs := errs + drainErrs;
      if config.datasources && errs == [] {
        closes := closes + 1;
        errs := Note(closeFails, Datasources);
      }
      result := errs;
    }
  }

  /** Once one drain is late every later one is reported; with time left nothing is reported that finished. */
  lemma {:induction false} LateStaysLate(drains: seq<(Step, Ending)>, expired: bool, k: nat)
    requires k < |drains|
    ensures (expired || exists i :: 0 <= i <= k && drains[i].1.Fails?) ==> drains[k].0 in DrainErrors(drains, expired)
    ensures DrainErrors(drains, expired) == [] ==> !expired && drains[k].1.InTime?
    decreases |drains|
  {
    var failed := expired || drains[0].1.Fails?;
    if k > 0 {
      assert drains[1..][k - 1] == drains[k];
      LateStaysLate(drains[1..], failed, k - 1);
      if exists i :: 1 <= i <= k && drains[i].1.Fails? {
        var i :| 1 <= i <= k && drains[i].1.Fails?;
        assert drains[1..][i - 1].1.Fails?;
      }
    }
  }

  // ---- Any number of callers, beside live work ----

  /** Where the first caller is. */
  datatype Runner =
    | NotCalled
    | AtHttp
    | DrainingHttp
    | AtScheduler
    | DrainingScheduler(stop: Id)
    | AtBus
    | DrainingBus(waitReturned: bool)
    | AtClose
    | Finished

  datatype Caller = First | Waiting | Got(errs: seq<Step>) | GaveUp

  datatype Sys = Sys(
    accepting: bool, requests: set<Id>, sched: S.Sys, bus: B.Bus,
    runner: Runner, errs: seq<Step>, deadline: bool, closes: nat, callers: map<Id, Caller>)

  datatype Publisher = ByRequest(r: Id) | ByJob(t: Id) | ByHandler(h: Id)

  datatype Event =
    | Accept(r: Id)
    | EndRequest(r: Id)
    | Job(e: S.Event)
    | Publish(who: Publisher, event: string, h: Id)
    | EndHandler(h: Id)
    | EditTable(op: B.TableOp)
    | Expire
    | Call(id: Id)
    | BeginHttp
    | HttpIdle(listenerFailed: bool)
    | HttpTimeout
    | BeginScheduler(stop: Id)
    | SchedulerStopped
    | SchedulerTimeout
    | BeginBus
    | BusWaitReturns
    | BusDrained
    | BusTimeout
    | Close(fails: bool)
    | Return(id: Id)
    | GiveUp(id: Id)

  predicate CanPublish(s: Sys, who: Publisher) {
    match who
    case ByRequest(r) => r in s.requests
    case ByJob(t) => S.InPhase(s.sched, t, S.Running)
    case ByHandler(h) => h in s.bus.live
  }

  predicate Enabled(c: Config, s: Sys, e: Event) {
    match e
    case Accept(r) => s.accepting && r !in s.requests
    case EndRequest(r) => r in s.requests
    case Job(e) => S.Enabled(s.sched, e)
    case Publish(who, event, h) => c.bus && CanPublish(s, who) && B.Enabled(s.bus, B.PublishOf(event, h))
    case EndHandler(h) => B.Enabled(s.bus, B.HandlerDone(h))
    case EditTable(op) => true
    case Expire => true
    case Call(id) => id !in s.callers
    case BeginHttp => s.runner == AtHttp
    case HttpIdle(_) => s.runner == DrainingHttp && s.requests == {}
    case HttpTimeout => s.runner == DrainingHttp && s.deadline
    case BeginScheduler(stop) => s.runner == AtScheduler && stop !in s.sched.stops
    case SchedulerStopped =>
      s.runner.DrainingScheduler? && s.runner.stop in s.sched.stops && s.sched.stops[s.runner.stop].Returned?
    case SchedulerTimeout => s.runner.DrainingScheduler? && s.deadline
    case BeginBus => s.runner == AtBus
    case BusWaitReturns => s.runner == DrainingBus(false) && s.bus.counter == 0
    case BusDrained => s.runner == DrainingBus(true)
    case BusTimeout => s.runner.DrainingBus? && s.deadline
    case Close(_) => s.runner == AtClose
    case Return(id) => id in s.callers && (s.callers[id].First? || s.callers[id].Waiting?) && s.runner == Finished
    case GiveUp(id) => id in s.callers && s.callers[id].Waiting?
  }

  function Failed(s: Sys, step: Step, next: Runner): Sys {
    s.(errs := s.errs + [step], runner := next)
  }

  function Next(c: Config, s: Sys, e: Event): Sys
    requires Enabled(c, s, e)
  {
    match e
    case Accept(r) => s.(requests := s.requests + {r})
    case EndRequest(r) => s.(requests := s.requests - {r})
    case Job(e) => s.(sched := S.Next(s.sched, e))
    case Publish(_, event, h) => s.(bus := B.Next(s.bus, B.PublishOf(event, h)))
    case EndHandler(h) => s.(bus := B.Next(s.bus, B.HandlerDone(h)))
    case EditTable(op) => s.(bus := B.Next(s.bus, B.Edit(op)))
    case Expire => s.(deadline := true)
    case Call(id) =>
      if s.runner == NotCalled then s.(runner := AtHttp, callers := s.callers[id := First])
      else s.(callers := s.callers[id := Waiting])
    case BeginHttp => if c.http then s.(accepting := false, runner := DrainingHttp) else s.(runner := AtScheduler)
    case HttpIdle(listenerFailed) =>
      if listenerFailed then Failed(s, HttpServer, AtScheduler) else s.(runner := AtScheduler)
    case HttpTimeout => Failed(s, HttpServer, AtScheduler)
    case BeginScheduler(stop) =>
      if !c.scheduler then s.(runner := AtBus)
      else
        var asked := s.(sched := S.Next(s.sched, S.StopRead(stop)));
        if s.deadline then Failed(asked, JobScheduler, AtBus) else asked.(runner := DrainingScheduler(stop))
    case SchedulerStopped => s.(runner := AtBus)
    case SchedulerTimeout => Failed(s, JobScheduler, AtBus)
    case BeginBus =>
      if !c.bus then s.(runner := AtClose)
      else if s.deadline then Failed(s, EventBus, AtClose)
      else s.(runner := DrainingBus(false))
    case BusWaitReturns => s.(runner := DrainingBus(true))
    case BusDrained => s.(runner := AtClose)
    case BusTimeout => Failed(s, EventBus, AtClose)
    case Close(fails) =>
      if c.datasources && s.errs == [] then
        s.(closes := s.closes + 1, errs := if fails then [Datasources] else [], runner := Finished)
      else s.(runner := Finished)
    case Return(id) => s.(callers := s.callers[id := Got(s.errs)])
    case GiveUp(id) => s.(callers := s.callers[id := GaveUp])
  }

  /**
   The providers have booted, so the scheduler's Start has returned; no Shutdown has been called.
   What the application does not bind has nothing to stop.
   */
  predicate Booted(c: Config, s: Sys) {
    && s.runner == NotCalled && s.errs == [] && s.closes == 0 && s.callers == map[] && !s.deadline
    && S.Inv(s.sched) && s.sched.startReturned
    && (!c.http ==> !s.accepting && s.requests == {})
    && (!c.scheduler ==> s.sched.entries == [])
    && B.Balanced(s.bus) && (!c.bus ==> s.bus.live == {})
  }

  // ---- Invariant ----

  function Stage(runner: Runner): nat {
    match runner
    case NotCalled => 0
    case AtHttp => 0
    case DrainingHttp => 1
    case AtScheduler => 2
    case DrainingScheduler(_) => 2
    case AtBus => 3
    case DrainingBus(waitReturned) => if waitReturned then 4 else 3
    case AtClose => 4
    case Finished => 5
  }

  predicate NoRequests(s: Sys) {
    !s.accepting && s.requests == {}
  }

  /** No request, job run or async subscriber is live, and none can start. */
  predicate AllDrained(s: Sys) {
    NoRequests(s) && S.Quiet(s.sched) && s.bus.live == {}
  }

  /** As long as no step failed, what the steps behind drained is drained. */
  predicate DrainedSoFar(s: Sys) {
    && (Stage(s.runner) >= 1 ==> !s.accepting)
    && (s.errs == [] ==>
          && (Stage(s.runner) >= 2 ==> NoRequests(s))
          && (Stage(s.runner) >= 3 ==> S.Quiet(s.sched))
          && (Stage(s.runner) >= 4 ==> AllDrained(s)))
  }

  predicate SchedulerOk(c: Config, sched: S.Sys) {
    && S.Inv(sched) && sched.startReturned
    && (!c.scheduler ==> sched.entries == [])
  }

  predicate BusOk(c: Config, bus: B.Bus) {
    B.Balanced(bus) && (!c.bus ==> bus.live == {})
  }

  predicate Unbound(c: Config, s: Sys) {
    && (!c.http ==> NoRequests(s))
    && (s.runner.DrainingScheduler? ==> AskedAfterStart(s.sched, s.runner.stop))
  }

  predicate Closing(c: Config, s: Sys) {
    && (s.closes == 0 ==> Datasources !in s.errs)
    && (s.closes > 0 ==>
          s.closes == 1 && s.runner == Finished && c.datasources && AllDrained(s)
          && (s.errs == [] || s.errs == [Datasources]))
    && (s.runner == Finished && c.datasources && s.errs == [] ==> s.closes == 1)
    && (JobScheduler in s.errs || EventBus in s.errs ==> s.deadline)
  }

  predicate CallersOk(s: Sys) {
    && (s.runner == NotCalled ==> s.callers == map[])
    && forall id :: id in s.callers && s.callers[id].Got? ==> s.runner == Finished && s.callers[id].errs == s.errs
  }

  function Errors(http: bool, scheduler: bool, bus: bool): seq<Step> {
    Note(http, HttpServer) + Note(scheduler, JobScheduler) + Note(bus, EventBus)
  }

  /** What is reported so far is in the order of the steps, each of them at most once, and only of what is bound. */
  predicate ErrorsOk(c: Config, s: Sys) {
    && (s.runner.DrainingHttp? ==> c.http) && (s.runner.DrainingScheduler? ==> c.scheduler)
    && (s.runner.DrainingBus? ==> c.bus && JobScheduler !in s.errs)
    && (HttpServer in s.errs ==> c.http) && (JobScheduler in s.errs ==> c.scheduler) && (EventBus in s.errs ==> c.bus)
    && (Stage(s.runner) <= 1 ==> s.errs == [])
    && (s.runner.AtScheduler? || s.runner.DrainingScheduler? ==> JobScheduler !in s.errs)
    && (Stage(s.runner) <= 3 || s.runner.DrainingBus? ==> EventBus !in s.errs)
    && (s.runner.AtClose? || s.runner.Finished? ==> JobScheduler in s.errs && c.bus ==> EventBus in s.errs)
    && (s.closes == 0 ==> s.errs == Errors(HttpServer in s.errs, JobScheduler in s.errs, EventBus in s.errs))
  }

  predicate Inv(c: Config, s: Sys) {
    && SchedulerOk(c, s.sched) && BusOk(c, s.bus) && Unbound(c, s)
    && DrainedSoFar(s) && Closing(c, s) && CallersOk(s) && ErrorsOk(c, s)
  }

  /** An empty scheduler whose Start has returned is quiet. */
  lemma EmptyIsQuiet(s: S.Sys)
    requires S.Inv(s) && s.startReturned && s.entries == []
    ensures S.Quiet(s)
  {
  }

  lemma SchedulerKept(c: Config, sched: S.Sys, e: S.Event)
    requires SchedulerOk(c, sched) && S.Enabled(sched, e)
    ensures SchedulerOk(c, S.Next(sched, e))
  {
    S.StepKeepsInv(sched, e);
  }

  lemma SchedulerStepKept(c: Config, s: Sys, e: Event)
    requires SchedulerOk(c, s.sched) && Enabled(c, s, e)
    ensures SchedulerOk(c, Next(c, s, e).sched)
  {
    if e.Job? {
      SchedulerKept(c, s.sched, e.e);
    } else if e.BeginScheduler? && c.scheduler {
      SchedulerKept(c, s.sched, S.StopRead(e.stop));
    } else {
      assert Next(c, s, e).sched == s.sched;
    }
  }

  predicate AskedAfterStart(sched: S.Sys, stop: Id) {
    stop in sched.stops && sched.stops[stop].afterStart
  }

  lemma AskedAfterStartKept(sched: S.Sys, e: S.Event, stop: Id)
    requires AskedAfterStart(sched, stop) && S.Enabled(sched, e)
    ensures AskedAfterStart(S.Next(sched, e), stop)
  {
  }

  lemma BusStepKept(c: Config, s: Sys, e: Event)
    requires BusOk(c, s.bus) && Enabled(c, s, e)
    ensures BusOk(c, Next(c, s, e).bus)
  {
    match e {
      case Publish(_, event, h) => B.StepKeepsBalanced(s.bus, B.PublishOf(event, h));
      case EndHandler(h) => B.StepKeepsBalanced(s.bus, B.HandlerDone(h));
      case EditTable(op) => B.StepKeepsBalanced(s.bus, B.Edit(op));
      case _ => assert Next(c, s, e).bus == s.bus;
    }
  }

  /** What goes on beside the shutdown. */
  predicate Beside(e: Event) {
    e.Accept? || e.EndRequest? || e.Job? || e.Publish? || e.EndHandler? || e.EditTable? || e.Expire?
  }

  predicate OfCallers(e: Event) {
    e.Call? || e.Return? || e.GiveUp?
  }

  lemma BesideLeavesShutdown(c: Config, s: Sys, e: Event)
    requires Enabled(c, s, e) && Beside(e)
    ensures var next := Next(c, s, e);
      && next.runner == s.runner && next.errs == s.errs && next.closes == s.closes && next.callers == s.callers
      && (s.deadline ==> next.deadline)
  {
  }

  lemma CallersLeaveTheRest(c: Config, s: Sys, e: Event)
    requires Enabled(c, s, e) && OfCallers(e)
    ensures Next(c, s, e) == s.(callers := Next(c, s, e).callers,
                                runner := if e.Call? && s.runner == NotCalled then AtHttp else s.runner)
  {
  }

  lemma UnboundKept(c: Config, s: Sys, e: Event)
    requires s.sched.startReturned && Unbound(c, s) && Enabled(c, s, e)
    ensures Unbound(c, Next(c, s, e))
  {
    if Beside(e) {
      BesideLeavesShutdown(c, s, e);
      if e.Job? && s.runner.DrainingScheduler? {
        AskedAfterStartKept(s.sched, e.e, s.runner.stop);
      }
    } else if OfCallers(e) {
      CallersLeaveTheRest(c, s, e);
    }
  }

  lemma QuietKept(c: Config, s: Sys, e: Event)
    requires SchedulerOk(c, s.sched) && S.Quiet(s.sched) && Enabled(c, s, e)
    ensures S.Quiet(Next(c, s, e).sched)
  {
    match e {
      case Job(e) => S.QuietKept(s.sched, e);
      case BeginScheduler(stop) => S.QuietKept(s.sched, S.StopRead(stop));
      case _ => assert Next(c, s, e).sched == s.sched;
    }
  }

  /** With no request, no job and no handler there is nobody to publish, and nothing new. */
  lemma AllDrainedKept(c: Config, s: Sys, e: Event)
    requires SchedulerOk(c, s.sched) && AllDrained(s) && Enabled(c, s, e)
    ensures AllDrained(Next(c, s, e))
  {
    QuietKept(c, s, e);
    assert forall t :: !S.InPhase(s.sched, t, S.Running);
  }

  lemma BesideKeepsDrained(c: Config, s: Sys, e: Event)
    requires SchedulerOk(c, s.sched) && DrainedSoFar(s) && Enabled(c, s, e) && Beside(e)
    ensures DrainedSoFar(Next(c, s, e))
  {
    BesideLeavesShutdown(c, s, e);
    if S.Quiet(s.sched) {
      QuietKept(c, s, e);
    }
    if AllDrained(s) {
      AllDrainedKept(c, s, e);
    }
  }

  /** A drain that ends in time leaves its own part of the work drained. */
  lemma RunnerKeepsDrained(c: Config, s: Sys, e: Event)
    requires SchedulerOk(c, s.sched) && BusOk(c, s.bus) && Unbound(c, s) && DrainedSoFar(s) && Closing(c, s)
    requires Enabled(c, s, e) && !Beside(e) && !OfCallers(e)
    ensures DrainedSoFar(Next(c, s, e))
  {
    if S.Quiet(s.sched) {
      QuietKept(c, s, e);
    }
    if !c.scheduler {
      EmptyIsQuiet(s.sched);
    }
    assert s.bus.counter == 0 ==> s.bus.live == {};
  }

  lemma DrainedKept(c: Config, s: Sys, e: Event)
    requires SchedulerOk(c, s.sched) && BusOk(c, s.bus) && Unbound(c, s) && DrainedSoFar(s) && Closing(c, s)
    requires Enabled(c, s, e)
    ensures DrainedSoFar(Next(c, s, e))
  {
    if Beside(e) {
      BesideKeepsDrained(c, s, e);
    } else if OfCallers(e) {
      CallersLeaveTheRest(c, s, e);
    } else {
      RunnerKeepsDrained(c, s, e);
    }
  }

  lemma ClosingKept(c: Config, s: Sys, e: Event)
    requires SchedulerOk(c, s.sched) && DrainedSoFar(s) && Closing(c, s) && Enabled(c, s, e)
    ensures Closing(c, Next(c, s, e))
  {
    if s.closes > 0 {
      AllDrainedKept(c, s, e);
      ResultIsFinal(c, s, e);
    }
    if Beside(e) {
      BesideLeavesShutdown(c, s, e);
    } else if OfCallers(e) {
      CallersLeaveTheRest(c, s, e);
    } else {
      RunnerKeepsClosing(c, s, e);
    }
  }

  lemma RunnerKeepsClosing(c: Config, s: Sys, e: Event)
    requires DrainedSoFar(s) && Closing(c, s) && Enabled(c, s, e) && !Beside(e) && !OfCallers(e)
    ensures Closing(c, Next(c, s, e))
  {
  }

  lemma ResultIsFinal(c: Config, s: Sys, e: Event)
    requires s.runner != NotCalled && Enabled(c, s, e)
    ensures Next(c, s, e).runner != NotCalled
    ensures s.runner == Finished ==>
      var next := Next(c, s, e); next.runner == Finished && next.errs == s.errs && next.closes == s.closes
  {
  }

  lemma CallersKept(c: Config, s: Sys, e: Event)
    requires CallersOk(s) && Enabled(c, s, e)
    ensures CallersOk(Next(c, s, e))
  {
    if s.runner != NotCalled {
      ResultIsFinal(c, s, e);
      if !OfCallers(e) {
        assert Next(c, s, e).callers == s.callers;
      }
    }
  }

  lemma OneMoreError(http: bool, scheduler: bool)
    ensures Errors(http, false, false) + [JobScheduler] == Errors(http, true, false)
    ensures Errors(http, scheduler, false) + [EventBus] == Errors(http, scheduler, true)
    ensures [] + [HttpServer] == Errors(true, false, false)
  {
  }

  lemma HttpKeepsErrors(c: Config, s: Sys, e: Event)
    requires ErrorsOk(c, s) && Enabled(c, s, e) && (e.BeginHttp? || e.HttpIdle? || e.HttpTimeout?)
    requires s.closes == 0
    ensures ErrorsOk(c, Next(c, s, e))
  {
    OneMoreError(false, false);
  }

  lemma SchedulerKeepsErrors(c: Config, s: Sys, e: Event)
    requires ErrorsOk(c, s) && Enabled(c, s, e) && (e.BeginScheduler? || e.SchedulerStopped? || e.SchedulerTimeout?)
    requires s.closes == 0
    ensures ErrorsOk(c, Next(c, s, e))
  {
    OneMoreError(HttpServer in s.errs, false);
  }

  lemma BusKeepsErrors(c: Config, s: Sys, e: Event)
    requires ErrorsOk(c, s) && Enabled(c, s, e) && (e.BeginBus? || e.BusWaitReturns? || e.BusDrained? || e.BusTimeout?)
    requires s.closes == 0 && (JobScheduler in s.errs ==> s.deadline)
    ensures ErrorsOk(c, Next(c, s, e))
  {
    OneMoreError(HttpServer in s.errs, JobScheduler in s.errs);
  }

  lemma RunnerKeepsErrors(c: Config, s: Sys, e: Event)
    requires Closing(c, s) && ErrorsOk(c, s) && Enabled(c, s, e) && !Beside(e) && !OfCallers(e)
    ensures ErrorsOk(c, Next(c, s, e))
  {
    match e {
      case BeginHttp => HttpKeepsErrors(c, s, e);
      case HttpIdle(_) => HttpKeepsErrors(c, s, e);
      case HttpTimeout => HttpKeepsErrors(c, s, e);
      case BeginBus => BusKeepsErrors(c, s, e);
      case BusWaitReturns => BusKeepsErrors(c, s, e);
      case BusDrained => BusKeepsErrors(c, s, e);
      case BusTimeout => BusKeepsErrors(c, s, e);
      case Close(_) =>
      case _ => SchedulerKeepsErrors(c, s, e);
    }
  }

  lemma ErrorsKept(c: Config, s: Sys, e: Event)
    requires Closing(c, s) && ErrorsOk(c, s) && Enabled(c, s, e)
    ensures ErrorsOk(c, Next(c, s, e))
  {
    if Beside(e) {
      BesideLeavesShutdown(c, s, e);
    } else if OfCallers(e) {
      CallersLeaveTheRest(c, s, e);
    } else {
      RunnerKeepsErrors(c, s, e);
    }
  }

  lemma StepKeepsInv(c: Config, s: Sys, e: Event)
    requires Inv(c, s) && Enabled(c, s, e)
    ensures Inv(c, Next(c, s, e))
  {
    SchedulerStepKept(c, s, e);
    BusStepKept(c, s, e);
    UnboundKept(c, s, e);
    DrainedKept(c, s, e);
    ClosingKept(c, s, e);
    CallersKept(c, s, e);
    ErrorsKept(c, s, e);
  }

  // ---- Whole runs ----

  predicate Legal(c: Config, s: Sys, run: seq<Event>)
    decreases |run|
  {
    run == [] || (Enabled(c, s, run[0]) && Legal(c, Next(c, s, run[0]), run[1..]))
  }

  function After(c: Config, s: Sys, run: seq<Event>): Sys
    requires Legal(c, s, run)
    decreases |run|
  {
    if run == [] then s else After(c, Next(c, s, run[0]), run[1..])
  }

  lemma {:induction false} RunKeepsInv(c: Config, s: Sys, run: seq<Event>)
    requires Inv(c, s) && Legal(c, s, run)
    ensures Inv(c, After(c, s, run))
    decreases |run|
  {
    if run != [] {
      StepKeepsInv(c, s, run[0]);
      RunKeepsInv(c, Next(c, s, run[0]), run[1..]);
    }
  }

  /**
   Over any set of callers the datasources are closed at most once. From then on, in every later state,
   nothing that could use them is live or can start.
   */
  lemma ClosedOnceAndOnlyWhenDrained(c: Config, s: Sys, run: seq<Event>)
    requires Booted(c, s) && Legal(c, s, run)
    ensures After(c, s, run).closes <= 1
    ensures After(c, s, run).closes == 1 ==>
      AllDrained(After(c, s, run)) && S.NothingEverRuns(After(c, s, run).sched)
  {
    RunKeepsInv(c, s, run);
    var end := After(c, s, run);
    if end.closes == 1 {
      forall more | S.Legal(end.sched, more) ensures S.NothingRuns(S.After(end.sched, more)) {
        S.QuietForever(end.sched, more);
      }
    }
  }

  /**
   A finished shutdown closed the datasources exactly when every step before finished. The scheduler
   and the bus are given up on only past the deadline.
   */
  lemma ClosedExactlyWhenEveryStepFinished(c: Config, s: Sys, run: seq<Event>)
    requires Booted(c, s) && Legal(c, s, run)
    ensures var end := After(c, s, run);
      && (StepFailed(end) ==> end.closes == 0)
      && (JobScheduler in end.errs || EventBus in end.errs ==> end.deadline)
      && (end.runner == Finished ==> (end.closes == 1 <==> c.datasources && !StepFailed(end)))
  {
    RunKeepsInv(c, s, run);
    var end := After(c, s, run);
    if end.errs != [] {
      assert end.errs[0] in end.errs;
    }
  }

  predicate StepFailed(s: Sys) {
    exists step :: step in s.errs && step != Datasources
  }

  // ---- What a run says of each step ----

  /** Whether each step failed, and whether the close did. */
  datatype Seen = Seen(http: bool, scheduler: bool, bus: bool, close: bool)

  /** What one event says: a step fails by its own failure, or by the deadline passing before it began or while it ran. */
  function Tells(c: Config, s: Sys, e: Event): Seen {
    Seen(e.HttpTimeout? || e == HttpIdle(true),
         e.SchedulerTimeout? || (e.BeginScheduler? && c.scheduler && s.deadline),
         e.BusTimeout? || (e.BeginBus? && c.bus && s.deadline),
         e == Close(true))
  }

  function Both(a: Seen, b: Seen): Seen {
    Seen(a.http || b.http, a.scheduler || b.scheduler, a.bus || b.bus, a.close || b.close)
  }

  function Told(c: Config, s: Sys, run: seq<Event>): Seen
    requires Legal(c, s, run)
    decreases |run|
  {
    if run == [] then Seen(false, false, false, false)
    else Both(Tells(c, s, run[0]), Told(c, Next(c, s, run[0]), run[1..]))
  }

  /** What is reported is what was seen. */
  predicate ReportsWhat(s: Sys, seen: Seen) {
    && (s.runner != Finished ==> !seen.close && s.closes == 0)
    && (s.closes == 0 ==>
          && (HttpServer in s.errs <==> seen.http)
          && (JobScheduler in s.errs <==> seen.scheduler)
          && (EventBus in s.errs <==> seen.bus))
    && (s.closes > 0 ==> !seen.http && !seen.scheduler && !seen.bus && s.errs == Note(seen.close, Datasources))
  }

  lemma StepReports(c: Config, s: Sys, e: Event, seen: Seen)
    requires Enabled(c, s, e) && ReportsWhat(s, seen)
    ensures ReportsWhat(Next(c, s, e), Both(seen, Tells(c, s, e)))
  {
    if Beside(e) {
      BesideLeavesShutdown(c, s, e);
    } else if OfCallers(e) {
      CallersLeaveTheRest(c, s, e);
    } else {
      RunnerReports(c, s, e, seen);
    }
  }

  lemma RunnerReports(c: Config, s: Sys, e: Event, seen: Seen)
    requires Enabled(c, s, e) && ReportsWhat(s, seen) && !Beside(e) && !OfCallers(e)
    ensures ReportsWhat(Next(c, s, e), Both(seen, Tells(c, s, e)))
  {
  }

  lemma {:induction false} RunReports(c: Config, s: Sys, run: seq<Event>, seen: Seen)
    requires Legal(c, s, run) && ReportsWhat(s, seen)
    ensures ReportsWhat(After(c, s, run), Both(seen, Told(c, s, run)))
    decreases |run|
  {
    if run != [] {
      StepReports(c, s, run[0], seen);
      RunReports(c, Next(c, s, run[0]), run[1..], Both(seen, Tells(c, s, run[0])));
    }
  }

  /**
   Over any callers and whatever goes on beside, a finished shutdown ends as one call of it alone, each of whose
   steps ends as that step did in the run.
   */
  lemma FinishedAsOneCall(c: Config, s: Sys, run: seq<Event>)
    requires Booted(c, s) && Legal(c, s, run) && After(c, s, run).runner == Finished
    ensures var end := After(c, s, run);
            var told := Told(c, s, run);
      Reported(c, EndingOf(told.http), false, EndingOf(told.scheduler), EndingOf(told.bus), told.close)
        == (end.errs, end.closes == 1)
  {
    RunKeepsInv(c, s, run);
    RunReports(c, s, run, Seen(false, false, false, false));
    var end := After(c, s, run);
    var told := Told(c, s, run);
    if end.closes == 1 {
      BoundErrors(c, false, false);
    } else {
      OrderedIsReported(c, told.http, told.scheduler, told.bus, told.close);
    }
  }

  /** Nothing is accepted any more, and a bound scheduler has been told to stop, waited for or not. */
  ghost predicate Begun(c: Config, s: Sys) {
    && !s.accepting
    && (c.scheduler ==> exists stop :: AskedAfterStart(s.sched, stop))
  }

  lemma SchedulerAskedKept(c: Config, s: Sys, e: Event)
    requires SchedulerOk(c, s.sched) && Enabled(c, s, e) && (Stage(s.runner) >= 3 ==> Begun(c, s))
    requires Unbound(c, s) && DrainedSoFar(s) && DrainedSoFar(Next(c, s, e))
    ensures Stage(Next(c, s, e).runner) >= 3 ==> Begun(c, Next(c, s, e))
  {
    var next := Next(c, s, e);
    if c.scheduler && Stage(s.runner) >= 3 {
      var stop :| AskedAfterStart(s.sched, stop);
      if e.Job? {
        AskedAfterStartKept(s.sched, e.e, stop);
      }
      assert AskedAfterStart(next.sched, stop);
    } else if c.scheduler && e.BeginScheduler? {
      assert AskedAfterStart(next.sched, e.stop);
    } else if s.runner.DrainingScheduler? && !Beside(e) && !OfCallers(e) {
      assert AskedAfterStart(next.sched, s.runner.stop);
    } else if Beside(e) {
      BesideLeavesShutdown(c, s, e);
    } else if OfCallers(e) {
      CallersLeaveTheRest(c, s, e);
    }
  }

  /** Whatever a step's own fate, a shutdown past it has begun every drain: a failure skips no later one. */
  lemma {:induction false} EveryDrainIsBegun(c: Config, s: Sys, run: seq<Event>)
    requires Inv(c, s) && Legal(c, s, run) && (Stage(s.runner) >= 3 ==> Begun(c, s))
    ensures Stage(After(c, s, run).runner) >= 3 ==> Begun(c, After(c, s, run))
    decreases |run|
  {
    if run != [] {
      StepKeepsInv(c, s, run[0]);
      SchedulerAskedKept(c, s, run[0]);
      EveryDrainIsBegun(c, Next(c, s, run[0]), run[1..]);
    }
  }

  // ---- It waits for its drains or the deadline, and for nothing else ----

  /** The step that goes on without giving anything up; `stop` is a fresh name for its Stop of the scheduler. */
  function Onward(runner: Runner, stop: Id): Event {
    match runner
    case NotCalled => BeginHttp
    case AtHttp => BeginHttp
    case DrainingHttp => HttpIdle(false)
    case AtScheduler => BeginScheduler(stop)
    case DrainingScheduler(_) => SchedulerStopped
    case AtBus => BeginBus
    case DrainingBus(waitReturned) => if waitReturned then BusDrained else BusWaitReturns
    case AtClose => Close(false)
    case Finished => Close(false)
  }

  function GivingUp(runner: Runner): Event {
    if runner.DrainingHttp? then HttpTimeout else if runner.DrainingScheduler? then SchedulerTimeout else BusTimeout
  }

  /** A request is open, the Stop asked for has not returned, or an async subscriber is live. */
  predicate Undrained(s: Sys) {
    match s.runner
    case DrainingHttp => s.requests != {}
    case DrainingScheduler(stop) => stop in s.sched.stops && !s.sched.stops[stop].Returned?
    case DrainingBus(waitReturned) => !waitReturned && s.bus.live != {}
    case _ => false
  }

  predicate UnderWay(s: Sys) {
    s.runner != NotCalled && s.runner != Finished
  }

  /** In every run a shutdown under way goes on exactly when what it drains is drained, and past the deadline anyhow. */
  lemma GoesOnExactly(c: Config, s: Sys, run: seq<Event>, stop: Id)
    requires Booted(c, s) && Legal(c, s, run) && UnderWay(After(c, s, run))
    requires stop !in After(c, s, run).sched.stops
    ensures var end := After(c, s, run);
      && (Enabled(c, end, Onward(end.runner, stop)) <==> !Undrained(end))
      && (Undrained(end) && end.deadline ==> Enabled(c, end, GivingUp(end.runner)))
  {
    RunKeepsInv(c, s, run);
    var end := After(c, s, run);
    StopIsThere(c, end);
    CanGoOn(c, end, stop);
  }

  lemma StopIsThere(c: Config, s: Sys)
    requires Inv(c, s)
    ensures s.runner.DrainingScheduler? ==> s.runner.stop in s.sched.stops
    ensures B.Balanced(s.bus)
  {
  }

  lemma CanGoOn(c: Config, s: Sys, stop: Id)
    requires UnderWay(s) && stop !in s.sched.stops && B.Balanced(s.bus)
    requires s.runner.DrainingScheduler? ==> s.runner.stop in s.sched.stops
    ensures Enabled(c, s, Onward(s.runner, stop)) <==> !Undrained(s)
    ensures Undrained(s) && s.deadline ==> Enabled(c, s, GivingUp(s.runner))
  {
    assert s.bus.counter == 0 <==> s.bus.live == {};
  }

  function Rank(runner: Runner): nat {
    match runner
    case NotCalled => 0
    case AtHttp => 0
    case DrainingHttp => 1
    case AtScheduler => 2
    case DrainingScheduler(_) => 3
    case AtBus => 4
    case DrainingBus(waitReturned) => if waitReturned then 6 else 5
    case AtClose => 7
    case Finished => 8
  }

  function OwnSteps(run: seq<Event>): nat {
    if run == [] then 0 else OwnSteps(run[1..]) + if Beside(run[0]) || OfCallers(run[0]) then 0 else 1
  }

  lemma OwnStepAdvances(c: Config, s: Sys, e: Event)
    requires Enabled(c, s, e)
    ensures Rank(Next(c, s, e).runner) >= Rank(s.runner) + if Beside(e) || OfCallers(e) then 0 else 1
  {
    if Beside(e) {
      BesideLeavesShutdown(c, s, e);
    } else if OfCallers(e) {
      CallersLeaveTheRest(c, s, e);
    }
  }

  /** However many callers there are, one shutdown is made: it is finished by its eighth step, and takes no other. */
  lemma {:induction false} FinishedByTheEighthStep(c: Config, s: Sys, run: seq<Event>)
    requires Legal(c, s, run)
    ensures Rank(s.runner) + OwnSteps(run) <= Rank(After(c, s, run).runner) <= 8
    ensures OwnSteps(run) >= 8 ==> After(c, s, run).runner == Finished
    decreases |run|
  {
    if run != [] {
      OwnStepAdvances(c, s, run[0]);
      FinishedByTheEighthStep(c, Next(c, s, run[0]), run[1..]);
    }
  }

  function EndingOf(failed: bool): Ending {
    if failed then Fails else InTime
  }

  lemma OrderedIsReported(c: Config, http: bool, scheduler: bool, bus: bool, close: bool)
    requires (http ==> c.http) && (scheduler ==> c.scheduler && (c.bus ==> bus)) && (bus ==> c.bus)
    requires c.datasources ==> Errors(http, scheduler, bus) != []
    ensures Reported(c, EndingOf(http), false, EndingOf(scheduler), EndingOf(bus), close) == (Errors(http, scheduler, bus), false)
  {
    BoundErrors(c, scheduler, bus);
    assert Errors(http, scheduler, bus)
        == Note(http, HttpServer) + (Note(scheduler, JobScheduler) + Note(bus, EventBus));
  }

  lemma BoundErrors(c: Config, scheduler: bool, bus: bool)
    requires (scheduler ==> c.scheduler && (c.bus ==> bus)) && (bus ==> c.bus)
    ensures DrainErrors(Bound(c, EndingOf(scheduler), EndingOf(bus)), false)
         == Note(scheduler, JobScheduler) + Note(bus, EventBus)
  {
    var drains := Bound(c, EndingOf(scheduler), EndingOf(bus));
    var last := [(EventBus, EndingOf(bus))];
    assert last[1..] == [];
    if c.scheduler && c.bus {
      assert drains[1..] == last;
      assert DrainErrors(last, scheduler) == Note(scheduler || bus, EventBus);
    } else if c.scheduler {
      assert drains[1..] == [];
      assert DrainErrors(drains, false) == Note(scheduler, JobScheduler) + [];
    } else if c.bus {
      assert drains == last;
      assert DrainErrors(drains, false) == Note(bus, EventBus) + [];
    }
  }

  /** Every caller that does not give up is told what the one shutdown found. */
  lemma CallersAgree(c: Config, s: Sys, run: seq<Event>, a: Id, b: Id)
    requires Booted(c, s) && Legal(c, s, run)
    requires var end := After(c, s, run);
      a in end.callers && b in end.callers && end.callers[a].Got? && end.callers[b].Got?
    ensures After(c, s, run).callers[a] == After(c, s, run).callers[b] == Got(After(c, s, run).errs)
  {
    RunKeepsInv(c, s, run);
  }

  /** However many call, and whatever they do meanwhile: once it is finished every caller has or can get the result. */
  lemma EveryCallerIsAnswered(c: Config, s: Sys, run: seq<Event>, id: Id)
    requires Booted(c, s) && Legal(c, s, run) && Call(id) in run && After(c, s, run).runner == Finished
    ensures var end := After(c, s, run);
      && id in end.callers
      && (end.callers[id] == Got(end.errs)
          || (end.callers[id] == GaveUp && GiveUp(id) in run)
          || (Enabled(c, end, Return(id)) && Next(c, end, Return(id)).callers[id] == Got(end.errs)))
  {
    CallersOkInRun(c, s, run);
    CallerStays(c, s, run, id);
    var end := After(c, s, run);
    if end.callers[id].First? || end.callers[id].Waiting? {
      ReturnAnswers(c, end, id);
    }
  }

  lemma CallersOkInRun(c: Config, s: Sys, run: seq<Event>)
    requires Booted(c, s) && Legal(c, s, run)
    ensures CallersOk(After(c, s, run))
    ensures forall id :: id in s.callers ==> s.callers[id] != GaveUp
  {
    RunKeepsInv(c, s, run);
  }

  lemma ReturnAnswers(c: Config, s: Sys, id: Id)
    requires s.runner == Finished && id in s.callers && (s.callers[id].First? || s.callers[id].Waiting?)
    ensures Enabled(c, s, Return(id)) && Next(c, s, Return(id)).callers[id] == Got(s.errs)
  {
  }

  lemma CallerStep(c: Config, s: Sys, e: Event, id: Id)
    requires Enabled(c, s, e)
    ensures id in s.callers || e == Call(id) ==> id in Next(c, s, e).callers
    ensures id in Next(c, s, e).callers && Next(c, s, e).callers[id] == GaveUp ==>
      e == GiveUp(id) || (id in s.callers && s.callers[id] == GaveUp)
  {
    if Beside(e) {
      BesideLeavesShutdown(c, s, e);
    } else if !OfCallers(e) {
      RunnerLeavesCallers(c, s, e);
    }
  }

  lemma RunnerLeavesCallers(c: Config, s: Sys, e: Event)
    requires Enabled(c, s, e) && !Beside(e) && !OfCallers(e)
    ensures Next(c, s, e).callers == s.callers
  {
  }

  lemma {:induction false} CallerStays(c: Config, s: Sys, run: seq<Event>, id: Id)
    requires Legal(c, s, run)
    ensures id in s.callers || Call(id) in run ==> id in After(c, s, run).callers
    ensures id in After(c, s, run).callers && After(c, s, run).callers[id] == GaveUp ==>
      GiveUp(id) in run || (id in s.callers && s.callers[id] == GaveUp)
    decreases |run|
  {
    if run != [] {
      CallerStep(c, s, run[0], id);
      CallerStays(c, Next(c, s, run[0]), run[1..], id);
      assert forall e :: e in run <==> e == run[0] || e in run[1..];
    }
  }

  // ---- The parts run as they do alone ----

  /** What an event is to the scheduler, to the bus, and to the open requests. */
  function SchedulerPart(c: Config, e: Event): seq<S.Event> {
    match e
    case Job(e) => [e]
    case BeginScheduler(stop) => if c.scheduler then [S.StopRead(stop)] else []
    case _ => []
  }

  function BusPart(e: Event): seq<B.Event> {
    match e
    case Publish(_, event, h) => [B.PublishOf(event, h)]
    case EndHandler(h) => [B.HandlerDone(h)]
    case EditTable(op) => [B.Edit(op)]
    case _ => []
  }

  function OpenPart(open: set<Id>, e: Event): set<Id> {
    match e
    case Accept(r) => open + {r}
    case EndRequest(r) => open - {r}
    case _ => open
  }

  function SchedulerRun(c: Config, run: seq<Event>): seq<S.Event> {
    if run == [] then [] else SchedulerPart(c, run[0]) + SchedulerRun(c, run[1..])
  }

  function BusRun(run: seq<Event>): seq<B.Event> {
    if run == [] then [] else BusPart(run[0]) + BusRun(run[1..])
  }

  function Open(open: set<Id>, run: seq<Event>): set<Id>
    decreases |run|
  {
    if run == [] then open else Open(OpenPart(open, run[0]), run[1..])
  }

  lemma SchedulerStep(c: Config, s: Sys, e: Event)
    requires Enabled(c, s, e)
    ensures var part := SchedulerPart(c, e);
      if part == [] then Next(c, s, e).sched == s.sched
      else |part| == 1 && S.Enabled(s.sched, part[0]) && Next(c, s, e).sched == S.Next(s.sched, part[0])
  {
  }

  lemma BusStep(c: Config, s: Sys, e: Event)
    requires Enabled(c, s, e)
    ensures var part := BusPart(e);
      if part == [] then Next(c, s, e).bus == s.bus
      else |part| == 1 && B.Enabled(s.bus, part[0]) && Next(c, s, e).bus == B.Next(s.bus, part[0])
  {
  }

  lemma RestStep(c: Config, s: Sys, e: Event)
    requires Enabled(c, s, e)
    ensures Next(c, s, e).requests == OpenPart(s.requests, e)
    ensures Next(c, s, e).deadline == (s.deadline || e == Expire)
  {
  }

  /**
   In every run the scheduler and the bus go through runs of their own machines, and the requests open are those
   accepted and not ended.
   */
  lemma {:induction false} PartsRunAlone(c: Config, s: Sys, run: seq<Event>)
    requires Legal(c, s, run)
    ensures S.Legal(s.sched, SchedulerRun(c, run)) && After(c, s, run).sched == S.After(s.sched, SchedulerRun(c, run))
    ensures B.Legal(s.bus, BusRun(run)) && After(c, s, run).bus == B.After(s.bus, BusRun(run))
    ensures After(c, s, run).requests == Open(s.requests, run)
    ensures After(c, s, run).deadline <==> s.deadline || Expire in run
    decreases |run|
  {
    if run != [] {
      var e, next := run[0], Next(c, s, run[0]);
      SchedulerStep(c, s, e);
      BusStep(c, s, e);
      RestStep(c, s, e);
      PartsRunAlone(c, next, run[1..]);
      SchedulerThen(s.sched, SchedulerPart(c, e), SchedulerRun(c, run[1..]), next.sched);
      BusThen(s.bus, BusPart(e), BusRun(run[1..]), next.bus);
      assert forall x :: x in run <==> x == e || x in run[1..];
    }
  }

  lemma SchedulerThen(s: S.Sys, part: seq<S.Event>, rest: seq<S.Event>, next: S.Sys)
    requires S.Legal(next, rest)
    requires if part == [] then next == s else |part| == 1 && S.Enabled(s, part[0]) && next == S.Next(s, part[0])
    ensures S.Legal(s, part + rest) && S.After(s, part + rest) == S.After(next, rest)
  {
    if part == [] {
      assert part + rest == rest;
    } else {
      assert part + rest == [part[0]] + rest;
      S.Then(s, part[0], rest);
    }
  }

  lemma BusThen(b: B.Bus, part: seq<B.Event>, rest: seq<B.Event>, next: B.Bus)
    requires B.Legal(next, rest)
    requires if part == [] then next == b else |part| == 1 && B.Enabled(b, part[0]) && next == B.Next(b, part[0])
    ensures B.Legal(b, part + rest) && B.After(b, part + rest) == B.After(next, rest)
  {
    if part == [] {
      assert part + rest == rest;
    } else {
      assert (part + rest)[1..] == rest;
    }
  }
}
