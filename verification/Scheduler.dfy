/**
 The job scheduler: registration, and every interleaving of its loops, runs, starts and stops.
 */
module Schedulers {
  import opened Options

  datatype Schedule = Schedule(every: int, runAtStartup: bool, allowOverlap: bool)

  /**
   One scheduled job. `running` guards against overlap; `runs` and `skipped` are the source's counters.
   `dispatched` and `panicked` are kept by no code: they count what the conservation law needs.
   */
  datatype Entry = Entry(name: string, schedule: Schedule, running: bool, runs: nat, skipped: nat,
                         dispatched: nat, panicked: nat)

  datatype AddError = NeedsName | NeedsWork | BadSchedule | AlreadyStarted | DuplicateName

  predicate Taken(entries: seq<Entry>, name: string) {
    exists i :: 0 <= i < |entries| && entries[i].name == name
  }

  predicate DistinctNames(entries: seq<Entry>) {
    forall i, j :: 0 <= i < j < |entries| ==> entries[i].name != entries[j].name
  }

  /** Why a job is not registered, the first reason that applies. */
  function Refusal(entries: seq<Entry>, started: bool, name: string, hasWork: bool, schedule: Schedule)
    : Option<AddError>
  {
    if name == "" then Some(NeedsName)
    else if !hasWork then Some(NeedsWork)
    else if schedule.every <= 0 then Some(BadSchedule)
    else if started then Some(AlreadyStarted)
    else if Taken(entries, name) then Some(DuplicateName)
    else None
  }

  function NewEntry(name: string, schedule: Schedule): Entry {
    Entry(name, schedule, false, 0, 0, 0, 0)
  }

  /**
   A dispatched tick: its goroutine has not looked at the guard, its job is running, its run is over
   with the guard still held, or only its Done is left.
   */
  datatype Phase = Dispatched | Running | Over | Leaving

  /** A tick meets the guard: past it, or skipped. */
  function Tried(entry: Entry): (r: (Entry, Phase)) {
    if entry.schedule.allowOverlap then (entry, Running)
    else if entry.running then (entry.(skipped := entry.skipped + 1), Leaving)
    else (entry.(running := true), Running)
  }

  function Counted(entry: Entry, panicked: bool): Entry {
    if panicked then entry.(panicked := entry.panicked + 1) else entry.(runs := entry.runs + 1)
  }

  function Unguarded(entry: Entry): Entry {
    if entry.schedule.allowOverlap then entry else entry.(running := false)
  }

  /** What the locked part of Start hands to the launching: nothing the second time, and else the entries as they are. */
  function StartTakes(started: bool, entries: seq<Entry>): Option<seq<Entry>> {
    if started then None else Some(entries)
  }

  class Scheduler {
    var entries: seq<Entry>
    var started: bool

    ghost predicate Valid()
      reads this
    {
      DistinctNames(entries) && forall i :: 0 <= i < |entries| ==> entries[i].schedule.every > 0
    }

    constructor ()
      ensures Valid() && entries == [] && !started
    {
      entries, started := [], false;
    }

    method Add(name: string, schedule: Schedule, hasWork: bool) returns (err: Option<AddError>)
      requires Valid()
      modifies this
      ensures Valid() && started == old(started)
      ensures err == Refusal(old(entries), started, name, hasWork, schedule)
      ensures entries == if err.None? then old(entries) + [NewEntry(name, schedule)] else old(entries)
    {
      if name == "" {
        return Some(NeedsName);
      }
      if !hasWork {
        return Some(NeedsWork);
      }
      if schedule.every <= 0 {
        return Some(BadSchedule);
      }
      if started {
        return Some(AlreadyStarted);
      }
      for i := 0 to |entries|
        invariant entries == old(entries) && started == old(started)
        invariant !Taken(entries[..i], name)
      {
        if entries[i].name == name {
          return Some(DuplicateName);
        }
        assert forall j :: 0 <= j < i ==> entries[..i][j] == entries[j];
      }
      assert entries[..|entries|] == entries;
      entries := entries + [NewEntry(name, schedule)];
      return None;
    }

    /** The locked part of Start: the second one is refused, the first takes the entries as they are. */
    method Start() returns (launch: Option<seq<Entry>>)
      requires Valid()
      modifies this`started
      ensures started
      ensures launch == StartTakes(old(started), entries)
      ensures launch == if old(started) then None else Some(entries)
    {
      if started {
        return None;
      }
      started := true;
      return Some(entries);
    }

    /** The compare-and-swap a tick begins with. */
    method TryBegin(i: nat) returns (phase: Phase)
      requires i < |entries|
      modifies this`entries
      ensures entries == old(entries)[i := Tried(old(entries[i])).0] && phase == Tried(old(entries[i])).1
    {
      var entry := entries[i];
      if !entry.schedule.allowOverlap {
        if entry.running {
          entries := entries[i := entry.(skipped := entry.skipped + 1)];
          return Leaving;
        }
        entries := entries[i := entry.(running := true)];
      }
      return Running;
    }

    /** A run that has begun ends: it counts as completed unless it panicked, and then the guard is lowered. */
    method EndRun(i: nat, panicked: bool)
      requires i < |entries|
      modifies this`entries
      ensures entries == old(entries)[i := Unguarded(Counted(old(entries[i]), panicked))]
    {
      var entry := entries[i];
      if panicked {
        entry := entry.(panicked := entry.panicked + 1);
      } else {
        entry := entry.(runs := entry.runs + 1);
      }
      entries := entries[i := entry];
      if !entry.schedule.allowOverlap {
        entries := entries[i := entry.(running := false)];
      }
    }

    /** Completed runs and skipped ticks of the one job of that name, or None when there is none. */
    method Stats(name: string) returns (stats: Option<(nat, nat)>)
      requires Valid()
      ensures stats.None? <==> !Taken(entries, name)
      ensures forall i :: 0 <= i < |entries| && entries[i].name == name ==>
                stats == Some((entries[i].runs, entries[i].skipped))
    {
      for i := 0 to |entries|
        invariant forall j :: 0 <= j < i ==> entries[j].name != name
      {
        if entries[i].name == name {
          return Some((entries[i].runs, entries[i].skipped));
        }
      }
      return None;
    }

    method Jobs() returns (names: seq<string>)
      ensures |names| == |entries| && forall i :: 0 <= i < |names| ==> names[i] == entries[i].name
    {
      names := [];
      for i := 0 to |entries|
        invariant |names| == i && forall j :: 0 <= j < i ==> names[j] == entries[j].name
      {
        names := names + [entries[i].name];
      }
    }
  }

  // ---- All interleavings ----

  /** A job's loop: about to look at RunAtStartup, ticking, or returned. */
  datatype Loop = Opening | Ticking | Ended

  datatype Task = Task(entry: nat, phase: Phase)

  /** A call of Stop: it has read the cancel function, it waits, or it has returned. */
  datatype Stopping =
    | Read(sawCancel: bool, afterStart: bool)
    | Waiting(afterStart: bool)
    | Returned(afterStart: bool)

  type Id = nat

  datatype Sys = Sys(
    entries: seq<Entry>, started: bool, toLaunch: nat, startReturned: bool, cancelled: bool,
    loops: seq<Loop>, tasks: map<Id, Task>, counter: int, stops: map<Id, Stopping>)

  datatype Event =
    | AddJob(name: string, schedule: Schedule)
    | StartLock
    | Launch
    | StartReturn
    | CancelParent
    | StopRead(id: Id)
    | StopCancel(id: Id)
    | StopReturn(id: Id)
    | Open(i: nat, t: Id)
    | Tick(i: nat, t: Id)
    | EndLoop(i: nat)
    | Begin(t: Id)
    | Finish(t: Id, panicked: bool)
    | Release(t: Id)
    | Done(t: Id)

  function Fresh(): Sys {
    Sys([], false, 0, false, false, [], map[], 0, map[])
  }

  predicate InPhase(s: Sys, t: Id, phase: Phase) {
    t in s.tasks && s.tasks[t].phase == phase
  }

  predicate Enabled(s: Sys, e: Event) {
    match e
    case AddJob(name, schedule) => Refusal(s.entries, s.started, name, true, schedule).None?
    case StartLock => StartTakes(s.started, s.entries).Some?
    case Launch => s.started && |s.loops| < s.toLaunch
    case StartReturn => s.started && |s.loops| == s.toLaunch
    case CancelParent => s.started
    case StopRead(id) => id !in s.stops
    case StopCancel(id) => id in s.stops && s.stops[id].Read?
    case StopReturn(id) => id in s.stops && s.stops[id].Waiting? && s.counter == 0
    case Open(i, t) => i < |s.loops| <= |s.entries| && s.loops[i].Opening? && t !in s.tasks
    case Tick(i, t) => i < |s.loops| <= |s.entries| && s.loops[i].Ticking? && t !in s.tasks
    case EndLoop(i) => i < |s.loops| && s.loops[i].Ticking? && s.cancelled
    case Begin(t) => InPhase(s, t, Dispatched) && s.tasks[t].entry < |s.entries|
    case Finish(t, _) => InPhase(s, t, Running) && s.tasks[t].entry < |s.entries|
    case Release(t) => InPhase(s, t, Over) && s.tasks[t].entry < |s.entries|
    case Done(t) => InPhase(s, t, Leaving)
  }

  /** A loop of entry `i` puts a tick on a goroutine of its own, counted before it starts. */
  function Dispatch(s: Sys, i: nat, t: Id): Sys
    requires i < |s.entries|
  {
    s.(entries := s.entries[i := s.entries[i].(dispatched := s.entries[i].dispatched + 1)],
       tasks := s.tasks[t := Task(i, Dispatched)], counter := s.counter + 1)
  }

  function Moved(s: Sys, t: Id, entry: Entry, phase: Phase): Sys
    requires t in s.tasks && s.tasks[t].entry < |s.entries|
  {
    s.(entries := s.entries[s.tasks[t].entry := entry], tasks := s.tasks[t := s.tasks[t].(phase := phase)])
  }

  function Next(s: Sys, e: Event): Sys
    requires Enabled(s, e)
  {
    match e
    case AddJob(name, schedule) => s.(entries := s.entries + [NewEntry(name, schedule)])
    case StartLock => s.(started := true, toLaunch := |StartTakes(s.started, s.entries).value|)
    case Launch => s.(loops := s.loops + [Opening], counter := s.counter + 1)
    case StartReturn => s.(startReturned := true)
    case CancelParent => s.(cancelled := true)
    case StopRead(id) => s.(stops := s.stops[id := Read(s.started, s.startReturned)])
    case StopCancel(id) =>
      s.(cancelled := s.cancelled || s.stops[id].sawCancel,
         stops := s.stops[id := Waiting(s.stops[id].afterStart)])
    case StopReturn(id) => s.(stops := s.stops[id := Returned(s.stops[id].afterStart)])
    case Open(i, t) =>
      var open := s.(loops := s.loops[i := Ticking]);
      if s.entries[i].schedule.runAtStartup then Dispatch(open, i, t) else open
    case Tick(i, t) => Dispatch(s, i, t)
    case EndLoop(i) => s.(loops := s.loops[i := Ended], counter := s.counter - 1)
    case Begin(t) =>
      var (entry, phase) := Tried(s.entries[s.tasks[t].entry]);
      Moved(s, t, entry, phase)
    case Finish(t, panicked) =>
      var entry := s.entries[s.tasks[t].entry];
      Moved(s, t, Counted(entry, panicked), Over)
    case Release(t) =>
      var entry := s.entries[s.tasks[t].entry];
      Moved(s, t, Unguarded(entry), Leaving)
    case Done(t) => s.(tasks := s.tasks - {t}, counter := s.counter - 1)
  }

  // ---- Invariant ----

  function Live(loops: seq<Loop>): nat {
    if loops == [] then 0
    else Live(loops[..|loops| - 1]) + if loops[|loops| - 1].Ended? then 0 else 1
  }

  predicate Pending(task: Task, i: nat) {
    task.entry == i && (task.phase.Dispatched? || task.phase.Running?)
  }

  predicate Holds(task: Task, i: nat) {
    task.entry == i && (task.phase.Running? || task.phase.Over?)
  }

  /** The ticks of entry `i` whose outcome is still open. */
  function Outstanding(tasks: map<Id, Task>, i: nat): set<Id> {
    set t | t in tasks && Pending(tasks[t], i)
  }

  predicate Conserved(entry: Entry, tasks: map<Id, Task>, i: nat) {
    entry.dispatched == entry.runs + entry.skipped + entry.panicked + |Outstanding(tasks, i)|
  }

  /** Without overlap the guard is up exactly while some one tick holds it. */
  predicate Guarded(entry: Entry, tasks: map<Id, Task>, i: nat) {
    !entry.schedule.allowOverlap ==>
      && (entry.running <==> exists t :: t in tasks && Holds(tasks[t], i))
      && forall t, u :: t in tasks && u in tasks && Holds(tasks[t], i) && Holds(tasks[u], i) ==> t == u
  }

  predicate EntriesOk(s: Sys) {
    forall i :: 0 <= i < |s.entries| ==>
      Conserved(s.entries[i], s.tasks, i) && Guarded(s.entries[i], s.tasks, i)
  }

  predicate ShapeOk(s: Sys) {
    && DistinctNames(s.entries)
    && |s.loops| <= |s.entries|
    && (!s.started ==> s.loops == [])
    && (s.started ==> s.toLaunch == |s.entries|)
    && (s.startReturned ==> s.started && |s.loops| == |s.entries|)
    && (forall t :: t in s.tasks ==> s.tasks[t].entry < |s.loops|)
    && s.counter == Live(s.loops) + |s.tasks|
  }

  /** Every loop has been launched and has returned, and no tick is left. */
  predicate Quiet(s: Sys) {
    && s.started && |s.loops| == |s.entries|
    && s.tasks == map[]
    && forall i :: 0 <= i < |s.loops| ==> s.loops[i].Ended?
  }

  predicate StopsOk(s: Sys) {
    forall id :: id in s.stops ==>
      && (s.stops[id].afterStart ==> s.startReturned)
      && (s.stops[id] == Returned(true) ==> Quiet(s))
  }

  predicate Inv(s: Sys) {
    ShapeOk(s) && EntriesOk(s) && StopsOk(s)
  }

  lemma {:induction false} LiveUpdated(loops: seq<Loop>, i: nat, loop: Loop)
    requires i < |loops|
    ensures Live(loops[i := loop]) == Live(loops) - (if loops[i].Ended? then 0 else 1) + (if loop.Ended? then 0 else 1)
  {
    var n := |loops| - 1;
    if i < n {
      LiveUpdated(loops[..n], i, loop);
      assert loops[i := loop][..n] == loops[..n][i := loop];
    } else {
      assert loops[i := loop][..n] == loops[..n];
    }
  }

  lemma LiveAppended(loops: seq<Loop>, loop: Loop)
    ensures Live(loops + [loop]) == Live(loops) + if loop.Ended? then 0 else 1
  {
  }

  lemma {:induction false} NoneLive(loops: seq<Loop>)
    ensures Live(loops) == 0 <==> forall i :: 0 <= i < |loops| ==> loops[i].Ended?
  {
    if loops != [] {
      NoneLive(loops[..|loops| - 1]);
    }
  }

  /** What moving one tick does to the number outstanding of an entry. */
  lemma OutstandingMoved(tasks: map<Id, Task>, t: Id, task: Task, i: nat)
    ensures |Outstanding(tasks[t := task], i)|
         == |Outstanding(tasks - {t}, i)| + if Pending(task, i) then 1 else 0
    ensures |Outstanding(tasks, i)|
         == |Outstanding(tasks - {t}, i)| + if t in tasks && Pending(tasks[t], i) then 1 else 0
  {
    var rest := Outstanding(tasks - {t}, i);
    assert Outstanding(tasks[t := task], i) == if Pending(task, i) then rest + {t} else rest;
    assert Outstanding(tasks, i) == if t in tasks && Pending(tasks[t], i) then rest + {t} else rest;
  }

  lemma AddingKeepsShape(s: Sys, name: string, schedule: Schedule)
    requires ShapeOk(s) && !s.started && !Taken(s.entries, name)
    ensures ShapeOk(s.(entries := s.entries + [NewEntry(name, schedule)]))
  {
  }

  lemma LoopStepKeepsShape(s: Sys, loops: seq<Loop>, counter: int)
    requires ShapeOk(s) && s.started && |s.loops| <= |loops| <= |s.entries|
    requires counter - s.counter == Live(loops) - Live(s.loops)
    ensures ShapeOk(s.(loops := loops, counter := counter))
  {
  }

  lemma DispatchKeepsShape(s: Sys, i: nat, t: Id)
    requires ShapeOk(s) && i < |s.loops| && t !in s.tasks
    ensures ShapeOk(Dispatch(s, i, t))
  {
  }

  lemma MoveKeepsShape(s: Sys, t: Id, after: Entry, phase: Phase)
    requires ShapeOk(s) && t in s.tasks && after.name == s.entries[s.tasks[t].entry].name
    ensures ShapeOk(Moved(s, t, after, phase))
  {
  }

  lemma LoopEventKeepsShape(s: Sys, e: Event)
    requires ShapeOk(s) && Enabled(s, e) && (e.Launch? || e.Open? || e.EndLoop?)
    ensures ShapeOk(Next(s, e))
  {
    match e {
      case Launch =>
        LiveAppended(s.loops, Opening);
        LoopStepKeepsShape(s, s.loops + [Opening], s.counter + 1);
      case Open(i, t) =>
        LiveUpdated(s.loops, i, Ticking);
        LoopStepKeepsShape(s, s.loops[i := Ticking], s.counter);
        DispatchKeepsShape(s.(loops := s.loops[i := Ticking]), i, t);
      case EndLoop(i) =>
        LiveUpdated(s.loops, i, Ended);
        LoopStepKeepsShape(s, s.loops[i := Ended], s.counter - 1);
    }
  }

  lemma MoveEventKeepsShape(s: Sys, e: Event)
    requires ShapeOk(s) && Enabled(s, e) && (e.Begin? || e.Finish? || e.Release?)
    ensures ShapeOk(Next(s, e))
  {
    var next := Next(s, e);
    MoveKeepsShape(s, e.t, next.entries[s.tasks[e.t].entry], next.tasks[e.t].phase);
  }

  lemma DoneKeepsShape(s: Sys, t: Id)
    requires ShapeOk(s) && Enabled(s, Done(t))
    ensures ShapeOk(Next(s, Done(t)))
  {
  }

  lemma ShapeKept(s: Sys, e: Event)
    requires ShapeOk(s) && Enabled(s, e)
    ensures ShapeOk(Next(s, e))
  {
    if e.Launch? || e.Open? || e.EndLoop? {
      LoopEventKeepsShape(s, e);
    } else if e.Begin? || e.Finish? || e.Release? {
      MoveEventKeepsShape(s, e);
    } else if e.AddJob? {
      AddingKeepsShape(s, e.name, e.schedule);
    } else if e.Tick? {
      DispatchKeepsShape(s, e.i, e.t);
    } else if e.Done? {
      DoneKeepsShape(s, e.t);
    }
  }

  /** Entry `i` keeps its laws when a tick of it moves, given how the guard and the counts move along. */
  lemma EntryKept(entry: Entry, after: Entry, tasks: map<Id, Task>, t: Id, task: Task, i: nat)
    requires Conserved(entry, tasks, i) && Guarded(entry, tasks, i)
    requires t in tasks ==> tasks[t].entry == task.entry
    requires task.entry != i ==> after == entry
    requires task.entry == i ==>
      && after.schedule == entry.schedule
      && after.dispatched - after.runs - after.skipped - after.panicked
         == entry.dispatched - entry.runs - entry.skipped - entry.panicked
            + (if Pending(task, i) then 1 else 0) - (if t in tasks && Pending(tasks[t], i) then 1 else 0)
      && (!entry.schedule.allowOverlap ==>
            var held := t in tasks && Holds(tasks[t], i);
            if Holds(task, i) then after.running && (held || !entry.running)
            else after.running == (entry.running && !held))
    ensures Conserved(after, tasks[t := task], i) && Guarded(after, tasks[t := task], i)
  {
    OutstandingMoved(tasks, t, task, i);
    var moved := tasks[t := task];
    if !entry.schedule.allowOverlap && task.entry == i && Holds(task, i) {
      assert t in moved && Holds(moved[t], i);
    }
    assert forall u :: u in tasks && u != t ==> u in moved && moved[u] == tasks[u];
  }

  lemma MovingKeepsEntries(s: Sys, t: Id, task: Task, after: Entry)
    requires ShapeOk(s) && EntriesOk(s)
    requires task.entry < |s.entries| && (t in s.tasks ==> s.tasks[t].entry == task.entry)
    requires Conserved(after, s.tasks[t := task], task.entry) && Guarded(after, s.tasks[t := task], task.entry)
    ensures EntriesOk(s.(entries := s.entries[task.entry := after], tasks := s.tasks[t := task]))
  {
    forall i | 0 <= i < |s.entries| && i != task.entry
      ensures Conserved(s.entries[i], s.tasks[t := task], i) && Guarded(s.entries[i], s.tasks[t := task], i)
    {
      EntryKept(s.entries[i], s.entries[i], s.tasks, t, task, i);
    }
  }

  lemma DispatchKeepsEntries(s: Sys, i: nat, t: Id)
    requires ShapeOk(s) && EntriesOk(s) && i < |s.entries| && t !in s.tasks
    ensures EntriesOk(Dispatch(s, i, t))
  {
    var entry := s.entries[i];
    var after := entry.(dispatched := entry.dispatched + 1);
    EntryKept(entry, after, s.tasks, t, Task(i, Dispatched), i);
    MovingKeepsEntries(s, t, Task(i, Dispatched), after);
  }

  lemma MoveKeepsEntries(s: Sys, e: Event)
    requires ShapeOk(s) && EntriesOk(s) && Enabled(s, e)
    requires e.Begin? || e.Finish? || e.Release?
    ensures EntriesOk(Next(s, e))
  {
    var next := Next(s, e);
    var i := s.tasks[e.t].entry;
    EntryKept(s.entries[i], next.entries[i], s.tasks, e.t, next.tasks[e.t], i);
    MovingKeepsEntries(s, e.t, next.tasks[e.t], next.entries[i]);
  }

  lemma DoneKeepsEntries(s: Sys, t: Id)
    requires ShapeOk(s) && EntriesOk(s) && Enabled(s, Done(t))
    ensures EntriesOk(Next(s, Done(t)))
  {
    forall i | 0 <= i < |s.entries|
      ensures Conserved(s.entries[i], s.tasks - {t}, i) && Guarded(s.entries[i], s.tasks - {t}, i)
    {
      OutstandingMoved(s.tasks, t, s.tasks[t], i);
      assert forall u :: u in s.tasks && Holds(s.tasks[u], i) ==> u in s.tasks - {t};
    }
  }

  lemma NewEntryIsOk(s: Sys, name: string, schedule: Schedule)
    requires ShapeOk(s) && EntriesOk(s)
    ensures EntriesOk(s.(entries := s.entries + [NewEntry(name, schedule)]))
  {
  }

  lemma EntriesKept(s: Sys, e: Event)
    requires ShapeOk(s) && EntriesOk(s) && Enabled(s, e)
    ensures EntriesOk(Next(s, e))
  {
    match e {
      case AddJob(name, schedule) => NewEntryIsOk(s, name, schedule);
      case Open(i, t) => DispatchKeepsEntries(s.(loops := s.loops[i := Ticking]), i, t) by { LiveUpdated(s.loops, i, Ticking); }
      case Tick(i, t) => DispatchKeepsEntries(s, i, t);
      case Begin(t) => MoveKeepsEntries(s, e);
      case Finish(t, _) => MoveKeepsEntries(s, e);
      case Release(t) => MoveKeepsEntries(s, e);
      case Done(t) => DoneKeepsEntries(s, t);
      case _ =>
    }
  }

  lemma QuietKept(s: Sys, e: Event)
    requires ShapeOk(s) && Quiet(s) && Enabled(s, e)
    ensures Quiet(Next(s, e))
  {
  }

  lemma StopsKept(s: Sys, e: Event)
    requires ShapeOk(s) && StopsOk(s) && Enabled(s, e)
    ensures StopsOk(Next(s, e))
  {
    if Quiet(s) {
      QuietKept(s, e);
    }
    NoneLive(s.loops);
    assert s.counter == 0 ==> |s.tasks| == 0;
  }

  lemma StepKeepsInv(s: Sys, e: Event)
    requires Inv(s) && Enabled(s, e)
    ensures Inv(Next(s, e))
  {
    ShapeKept(s, e);
    EntriesKept(s, e);
    StopsKept(s, e);
  }

  // ---- Whole runs ----

  predicate Legal(s: Sys, run: seq<Event>)
    decreases |run|
  {
    run == [] || (Enabled(s, run[0]) && Legal(Next(s, run[0]), run[1..]))
  }

  function After(s: Sys, run: seq<Event>): Sys
    requires Legal(s, run)
    decreases |run|
  {
    if run == [] then s else After(Next(s, run[0]), run[1..])
  }

  lemma {:induction false} RunKeepsInv(s: Sys, run: seq<Event>)
    requires Inv(s) && Legal(s, run)
    ensures Inv(After(s, run))
    decreases |run|
  {
    if run != [] {
      StepKeepsInv(s, run[0]);
      RunKeepsInv(Next(s, run[0]), run[1..]);
    }
  }

  /** In every run, a job without AllowOverlap has at most one run in progress. */
  lemma AtMostOneRun(run: seq<Event>, t: Id, u: Id)
    requires Legal(Fresh(), run)
    requires InPhase(After(Fresh(), run), t, Running) && InPhase(After(Fresh(), run), u, Running)
    requires var s := After(Fresh(), run);
      s.tasks[t].entry == s.tasks[u].entry < |s.entries| && !s.entries[s.tasks[t].entry].schedule.allowOverlap
    ensures t == u
  {
    RunKeepsInv(Fresh(), run);
    var s := After(Fresh(), run);
    var i := s.tasks[t].entry;
    assert Guarded(s.entries[i], s.tasks, i);
    assert Holds(s.tasks[t], i) && Holds(s.tasks[u], i);
  }

  /** In every run, the ticks of a job are its completed, skipped, panicked and outstanding ones. */
  lemma TicksAreConserved(run: seq<Event>, i: nat)
    requires Legal(Fresh(), run) && i < |After(Fresh(), run).entries|
    ensures var s := After(Fresh(), run);
      s.entries[i].dispatched
        == s.entries[i].runs + s.entries[i].skipped + s.entries[i].panicked + |Outstanding(s.tasks, i)|
  {
    RunKeepsInv(Fresh(), run);
    assert Conserved(After(Fresh(), run).entries[i], After(Fresh(), run).tasks, i);
  }

  // ---- What the counters count ----

  /** Runs of entry `i` that completed, or panicked. */
  predicate RunEnds(s: Sys, e: Event, i: nat, panicked: bool) {
    e.Finish? && e.panicked == panicked && e.t in s.tasks && s.tasks[e.t].entry == i
  }

  /** A tick of entry `i` begins, and the guard is up, which without overlap means that a run is in progress. */
  predicate MeetsGuard(s: Sys, e: Event, i: nat) {
    && e.Begin? && e.t in s.tasks && s.tasks[e.t].entry == i < |s.entries|
    && !s.entries[i].schedule.allowOverlap
    && exists u :: u in s.tasks && Holds(s.tasks[u], i)
  }

  /** The loop of entry `i` puts a tick on its way: every tick of its ticker, and one at startup if it asks for that. */
  predicate Ticks(s: Sys, e: Event, i: nat) {
    || (e.Tick? && e.i == i)
    || (e.Open? && e.i == i < |s.entries| && s.entries[i].schedule.runAtStartup)
  }

  datatype Counts = Counts(ticked: nat, completed: nat, panicked: nat, skipped: nat)

  function One(b: bool): nat {
    if b then 1 else 0
  }

  /** The events of each kind in a run. */
  function CountedIn(s: Sys, run: seq<Event>, i: nat): Counts
    requires Legal(s, run)
    decreases |run|
  {
    if run == [] then Counts(0, 0, 0, 0)
    else
      var rest := CountedIn(Next(s, run[0]), run[1..], i);
      Counts(rest.ticked + One(Ticks(s, run[0], i)),
             rest.completed + One(RunEnds(s, run[0], i, false)),
             rest.panicked + One(RunEnds(s, run[0], i, true)),
             rest.skipped + One(MeetsGuard(s, run[0], i)))
  }

  function CountersOf(s: Sys, i: nat): Counts {
    if i < |s.entries| then
      Counts(s.entries[i].dispatched, s.entries[i].runs, s.entries[i].panicked, s.entries[i].skipped)
    else Counts(0, 0, 0, 0)
  }

  /** One event more. */
  predicate CountsOn(s: Sys, e: Event, i: nat, after: Sys) {
    var counts, counted := CountersOf(s, i), CountersOf(after, i);
    && counted.ticked == counts.ticked + One(Ticks(s, e, i))
    && counted.completed == counts.completed + One(RunEnds(s, e, i, false))
    && counted.panicked == counts.panicked + One(RunEnds(s, e, i, true))
    && counted.skipped == counts.skipped + One(MeetsGuard(s, e, i))
  }

  lemma BeginCounts(s: Sys, e: Event, i: nat)
    requires EntriesOk(s) && Enabled(s, e) && e.Begin?
    ensures CountsOn(s, e, i, Next(s, e))
  {
    if i < |s.entries| {
      assert Guarded(s.entries[i], s.tasks, i);
    }
  }

  lemma EndCounts(s: Sys, e: Event, i: nat)
    requires Enabled(s, e) && (e.Finish? || e.Release?)
    ensures CountsOn(s, e, i, Next(s, e))
  {
  }

  lemma DispatchCounts(s: Sys, e: Event, i: nat)
    requires Enabled(s, e) && (e.Tick? || e.Open?)
    ensures CountsOn(s, e, i, Next(s, e))
  {
  }

  lemma RestCountsNothing(s: Sys, e: Event, i: nat)
    requires Enabled(s, e) && !(e.Begin? || e.Finish? || e.Release? || e.Tick? || e.Open?)
    ensures CountersOf(Next(s, e), i) == CountersOf(s, i)
  {
  }

  lemma StepCounts(s: Sys, e: Event, i: nat)
    requires EntriesOk(s) && Enabled(s, e)
    ensures CountsOn(s, e, i, Next(s, e))
  {
    if e.Begin? {
      BeginCounts(s, e, i);
    } else if e.Finish? || e.Release? {
      EndCounts(s, e, i);
    } else if e.Tick? || e.Open? {
      DispatchCounts(s, e, i);
    } else {
      RestCountsNothing(s, e, i);
    }
  }

  lemma {:induction false} RunCounts(s: Sys, run: seq<Event>, i: nat)
    requires Inv(s) && Legal(s, run)
    ensures var before, after := CountersOf(s, i), CountersOf(After(s, run), i);
      && after.ticked == before.ticked + CountedIn(s, run, i).ticked
      && after.completed == before.completed + CountedIn(s, run, i).completed
      && after.panicked == before.panicked + CountedIn(s, run, i).panicked
      && after.skipped == before.skipped + CountedIn(s, run, i).skipped
    decreases |run|
  {
    if run != [] {
      StepCounts(s, run[0], i);
      StepKeepsInv(s, run[0]);
      RunCounts(Next(s, run[0]), run[1..], i);
    }
  }

  /**
   In every run a job's counters are what happened to it: the runs that completed, those that panicked, and the
   ticks that began while a run of it was in progress; each of its ticks is one of these or still under way.
   */
  lemma CountersCountEvents(run: seq<Event>, i: nat)
    requires Legal(Fresh(), run) && i < |After(Fresh(), run).entries|
    ensures var s := After(Fresh(), run);
      var counted := CountedIn(Fresh(), run, i);
      && s.entries[i].runs == counted.completed && s.entries[i].skipped == counted.skipped
      && counted.ticked == counted.completed + counted.panicked + counted.skipped + |Outstanding(s.tasks, i)|
  {
    RunCounts(Fresh(), run, i);
    TicksAreConserved(run, i);
  }

  /**
   In every run the wait counter is the live loops and ticks. So a tick is never added to a counter
   at zero, which a wait group forbids beside a waiter, and no Done takes it below zero.
   */
  lemma CounterIsLiveWork(run: seq<Event>, e: Event)
    requires Legal(Fresh(), run) && Enabled(After(Fresh(), run), e)
    ensures var s := After(Fresh(), run); s.counter == Live(s.loops) + |s.tasks|
    ensures e.Tick? || e.Open? ==> After(Fresh(), run).counter > 0
    ensures e.Done? || e.EndLoop? ==> After(Fresh(), run).counter > 0
  {
    RunKeepsInv(Fresh(), run);
    NoneLive(After(Fresh(), run).loops);
  }

  /** Once a Stop issued after Start returned has itself returned, nothing runs, then or ever after. */
  lemma StopAfterStartEndsEverything(run: seq<Event>, id: Id)
    requires Legal(Fresh(), run)
    requires id in After(Fresh(), run).stops && After(Fresh(), run).stops[id] == Returned(true)
    ensures Quiet(After(Fresh(), run))
    ensures NothingEverRuns(After(Fresh(), run))
  {
    RunKeepsInv(Fresh(), run);
    var s := After(Fresh(), run);
    forall more | Legal(s, more) ensures NothingRuns(After(s, more)) {
      QuietForever(s, more);
    }
  }

  ghost predicate NothingRuns(s: Sys) {
    forall t :: !InPhase(s, t, Running)
  }

  ghost predicate NothingEverRuns(s: Sys) {
    forall more :: Legal(s, more) ==> NothingRuns(After(s, more))
  }

  lemma {:induction false} QuietForever(s: Sys, run: seq<Event>)
    requires Inv(s) && Quiet(s) && Legal(s, run)
    ensures Quiet(After(s, run))
    decreases |run|
  {
    if run != [] {
      StepKeepsInv(s, run[0]);
      QuietKept(s, run[0]);
      QuietForever(Next(s, run[0]), run[1..]);
    }
  }

  /**
   When exactly a Stop that returns leaves nothing to run later: when every loop had been launched.
   A Stop racing Start can return between the lock and a launch, and the job still runs afterwards.
   */
  lemma StopEndsEverythingExactly(run: seq<Event>, id: Id)
    requires Legal(Fresh(), run) && Enabled(After(Fresh(), run), StopReturn(id))
    ensures var s := Next(After(Fresh(), run), StopReturn(id));
      NothingEverRuns(s) <==> s.started && |s.loops| == |s.entries|
  {
    RunKeepsInv(Fresh(), run);
    var before := After(Fresh(), run);
    var s := Next(before, StopReturn(id));
    StepKeepsInv(before, StopReturn(id));
    NoneLive(s.loops);
    assert |s.tasks| == 0;
    if s.started && |s.loops| == |s.entries| {
      forall more | Legal(s, more) ensures NothingRuns(After(s, more)) {
        QuietForever(s, more);
      }
    } else {
      var more := LateRun(s);
    }
  }

  const NIGHTLY := Schedule(1, true, false)

  /** Start has the lock behind it and nothing launched; a Stop is about to wait. */
  const BETWEEN := Sys([NewEntry("nightly", NIGHTLY)], true, 1, false, true, [], map[], 0, map[0 := Waiting(false)])

  lemma StopComesBetween()
    ensures var run := [AddJob("nightly", NIGHTLY), StartLock, StopRead(0), StopCancel(0)];
      Legal(Fresh(), run) && After(Fresh(), run) == BETWEEN
  {
    var added := Next(Fresh(), AddJob("nightly", NIGHTLY));
    var locked := Next(added, StartLock);
    var read := Next(locked, StopRead(0));
    Then(read, StopCancel(0), []);
    Then(locked, StopRead(0), [StopCancel(0)]);
    Then(added, StartLock, [StopRead(0), StopCancel(0)]);
    Then(Fresh(), AddJob("nightly", NIGHTLY), [StartLock, StopRead(0), StopCancel(0)]);
    assert Next(read, StopCancel(0)) == BETWEEN;
  }

  /**
   The race is reached: a Stop that comes between the lock of Start and its first launch returns at once, and
   the job starts after it has.
   */
  lemma StopRacesStart()
    ensures var run := [AddJob("nightly", NIGHTLY), StartLock, StopRead(0), StopCancel(0)];
            var late := [StopReturn(0), Launch, Open(0, 0), Begin(0)];
      && Legal(Fresh(), run) && Legal(After(Fresh(), run), late)
      && InPhase(After(After(Fresh(), run), late), 0, Running)
      && After(After(Fresh(), run), late).stops == map[0 := Returned(false)]
  {
    StopComesBetween();
    var stopped := Next(BETWEEN, StopReturn(0));
    var launched := Next(stopped, Launch);
    var opening := Next(launched, Open(0, 0));
    Then(opening, Begin(0), []);
    Then(launched, Open(0, 0), [Begin(0)]);
    Then(stopped, Launch, [Open(0, 0), Begin(0)]);
    Then(BETWEEN, StopReturn(0), [Launch, Open(0, 0), Begin(0)]);
  }

  lemma Then(s: Sys, e: Event, rest: seq<Event>)
    requires Enabled(s, e) && Legal(Next(s, e), rest)
    ensures Legal(s, [e] + rest) && After(s, [e] + rest) == After(Next(s, e), rest)
  {
    assert ([e] + rest)[1..] == rest;
  }

  /** From an idle scheduler with a loop still to launch, some run has a job running. */
  lemma LateRun(s: Sys) returns (more: seq<Event>)
    requires Inv(s) && s.tasks == map[] && !(s.started && |s.loops| == |s.entries|)
    ensures Legal(s, more) && !NothingRuns(After(s, more))
  {
    if s.started {
      more := LaunchAndRun(s);
    } else {
      var name := FreeName(s.entries);
      var add := AddJob(name, Schedule(1, true, true));
      assert !Taken(s.entries, name);
      StepKeepsInv(s, add);
      var added := Next(s, add);
      StepKeepsInv(added, StartLock);
      var rest := LaunchAndRun(Next(added, StartLock));
      rest := Prepend(added, StartLock, rest);
      more := Prepend(s, add, rest);
    }
  }

  function FreeName(entries: seq<Entry>): (name: string)
    ensures name != "" && !Taken(entries, name)
  {
    var n := LongestName(entries);
    seq(n + 1, _ => 'a')
  }

  function LongestName(entries: seq<Entry>): (n: nat)
    ensures forall i :: 0 <= i < |entries| ==> |entries[i].name| <= n
  {
    if entries == [] then 0
    else
      var rest := LongestName(entries[1..]);
      assert forall i :: 0 < i < |entries| ==> entries[i] == entries[1..][i - 1];
      if |entries[0].name| > rest then |entries[0].name| else rest
  }

  lemma LaunchAndRun(s: Sys) returns (more: seq<Event>)
    requires Inv(s) && s.started && |s.loops| < |s.entries| && s.tasks == map[]
    ensures Legal(s, more) && !NothingRuns(After(s, more))
  {
    var i := |s.loops|;
    StepKeepsInv(s, Launch);
    var launched := Next(s, Launch);
    assert Guarded(launched.entries[i], launched.tasks, i);
    StepKeepsInv(launched, Open(i, 0));
    var ticking := Next(launched, Open(i, 0));
    var rest := [];
    if s.entries[i].schedule.runAtStartup {
      rest := BeginFirst(ticking, i);
    } else {
      StepKeepsInv(ticking, Tick(i, 0));
      rest := BeginFirst(Next(ticking, Tick(i, 0)), i);
      rest := Prepend(ticking, Tick(i, 0), rest);
    }
    rest := Prepend(launched, Open(i, 0), rest);
    more := Prepend(s, Launch, rest);
  }

  lemma Prepend(s: Sys, e: Event, rest: seq<Event>) returns (more: seq<Event>)
    requires Enabled(s, e) && Legal(Next(s, e), rest)
    ensures Legal(s, more) && After(s, more) == After(Next(s, e), rest)
  {
    more := [e] + rest;
    Then(s, e, rest);
  }

  /** A tick alone in the scheduler gets past the guard. */
  lemma BeginFirst(s: Sys, i: nat) returns (more: seq<Event>)
    requires Inv(s) && i < |s.entries| && s.tasks == map[0 := Task(i, Dispatched)]
    ensures Legal(s, more) && !NothingRuns(After(s, more))
  {
    assert Guarded(s.entries[i], s.tasks, i);
    more := Prepend(s, Begin(0), []);
    assert InPhase(After(s, more), 0, Running);
  }

  // ---- A cancelled scheduler can always come to rest ----

  /** The same scheduler with perhaps other ticks and counters. */
  predicate SameShell(s: Sys, t: Sys) {
    && t.loops == s.loops && t.cancelled == s.cancelled && t.stops == s.stops && t.started == s.started
    && |t.entries| == |s.entries|
  }

  function StepsLeft(phase: Phase): nat {
    match phase
    case Dispatched => 3
    case Running => 2
    case Over => 1
    case Leaving => 0
  }

  function TickMove(s: Sys, t: Id): Event
    requires t in s.tasks
  {
    match s.tasks[t].phase
    case Dispatched => Begin(t)
    case Running => Finish(t, false)
    case Over => Release(t)
    case Leaving => Done(t)
  }

  lemma TickMoves(s: Sys, t: Id)
    requires Inv(s) && t in s.tasks
    ensures Enabled(s, TickMove(s, t)) && SameShell(s, Next(s, TickMove(s, t)))
    ensures var next := Next(s, TickMove(s, t));
      if s.tasks[t].phase.Leaving? then next.tasks == s.tasks - {t}
      else t in next.tasks && next.tasks - {t} == s.tasks - {t}
           && StepsLeft(next.tasks[t].phase) < StepsLeft(s.tasks[t].phase)
  {
  }

  lemma {:induction false} TickEnds(s: Sys, t: Id) returns (more: seq<Event>)
    requires Inv(s) && t in s.tasks
    ensures Legal(s, more) && Inv(After(s, more))
    ensures SameShell(s, After(s, more)) && After(s, more).tasks == s.tasks - {t}
    decreases StepsLeft(s.tasks[t].phase)
  {
    var e := TickMove(s, t);
    TickMoves(s, t);
    StepKeepsInv(s, e);
    var rest := [];
    if !s.tasks[t].phase.Leaving? {
      rest := TickEnds(Next(s, e), t);
    }
    more := Prepend(s, e, rest);
  }

  lemma {:induction false} TicksEnd(s: Sys) returns (more: seq<Event>)
    requires Inv(s)
    ensures Legal(s, more) && Inv(After(s, more))
    ensures SameShell(s, After(s, more)) && After(s, more).tasks == map[]
    decreases |s.tasks|
  {
    more := [];
    if s.tasks != map[] {
      var t :| t in s.tasks;
      var first := TickEnds(s, t);
      var mid := After(s, first);
      assert |mid.tasks| == |s.tasks| - 1 by {
        assert mid.tasks.Keys == s.tasks.Keys - {t};
        assert |s.tasks.Keys| == |s.tasks| && |mid.tasks.Keys| == |mid.tasks|;
      }
      var rest := TicksEnd(mid);
      more := InTurn(s, first, rest);
    }
  }

  lemma {:induction false} InTurn(s: Sys, first: seq<Event>, rest: seq<Event>) returns (more: seq<Event>)
    requires Legal(s, first) && Legal(After(s, first), rest)
    ensures Legal(s, more) && After(s, more) == After(After(s, first), rest)
    decreases |first|
  {
    if first == [] {
      more := rest;
    } else {
      more := InTurn(Next(s, first[0]), first[1..], rest);
      more := Prepend(s, first[0], more);
    }
  }

  lemma TickingEnds(s: Sys, i: nat) returns (more: seq<Event>)
    requires Inv(s) && s.cancelled && i < |s.loops| && s.loops[i].Ticking?
    ensures Legal(s, more) && Inv(After(s, more))
    ensures var end := After(s, more);
      && end.cancelled && end.stops == s.stops && end.tasks == s.tasks && end.loops == s.loops[i := Ended]
  {
    StepKeepsInv(s, EndLoop(i));
    more := Prepend(s, EndLoop(i), []);
  }

  /** A loop that has not returned does, its ticks, if it dispatches one, over. */
  lemma LoopEnds(s: Sys, i: nat) returns (more: seq<Event>)
    requires Inv(s) && s.cancelled && s.tasks == map[] && i < |s.loops| && !s.loops[i].Ended?
    ensures Legal(s, more) && Inv(After(s, more))
    ensures var end := After(s, more);
      && end.cancelled && end.stops == s.stops && end.tasks == map[] && end.loops == s.loops[i := Ended]
  {
    if s.loops[i].Ticking? {
      more := TickingEnds(s, i);
    } else {
      StepKeepsInv(s, Open(i, 0));
      var open := Next(s, Open(i, 0));
      assert open.loops == s.loops[i := Ticking] && open.cancelled && open.stops == s.stops;
      var first := TicksEnd(open);
      var last := TickingEnds(After(open, first), i);
      more := InTurn(open, first, last);
      more := Prepend(s, Open(i, 0), more);
    }
  }

  lemma {:induction false} LoopsEnd(s: Sys) returns (more: seq<Event>)
    requires Inv(s) && s.cancelled && s.tasks == map[]
    ensures Legal(s, more)
    ensures After(s, more).counter == 0 && After(s, more).stops == s.stops
    decreases Live(s.loops)
  {
    NoneLive(s.loops);
    more := [];
    if Live(s.loops) != 0 {
      var i :| 0 <= i < |s.loops| && !s.loops[i].Ended?;
      var first := LoopEnds(s, i);
      LiveUpdated(s.loops, i, Ended);
      var rest := LoopsEnd(After(s, first));
      more := InTurn(s, first, rest);
    }
  }

  /** A Stop that has read after Start returned has seen the cancel function, and cancels with it. */
  predicate StopsCancel(s: Sys) {
    forall id :: id in s.stops && s.stops[id].afterStart ==>
      && (s.stops[id].Read? ==> s.stops[id].sawCancel)
      && (s.stops[id].Waiting? ==> s.cancelled)
  }

  lemma CancelKept(s: Sys, e: Event)
    requires ShapeOk(s) && StopsCancel(s) && Enabled(s, e)
    ensures StopsCancel(Next(s, e))
    ensures s.cancelled || e.CancelParent? ==> Next(s, e).cancelled
  {
  }

  lemma {:induction false} CancelledOverRun(s: Sys, run: seq<Event>)
    requires Inv(s) && StopsCancel(s) && Legal(s, run)
    ensures StopsCancel(After(s, run))
    ensures s.cancelled || CancelParent in run ==> After(s, run).cancelled
    decreases |run|
  {
    if run != [] {
      StepKeepsInv(s, run[0]);
      CancelKept(s, run[0]);
      CancelledOverRun(Next(s, run[0]), run[1..]);
    }
  }

  /**
   Every Stop called after Start returned can return, from any state a run leads to, by the scheduler's own steps
   alone; and once the parent is cancelled so can any other. No tick, loop or Stop waits for another for ever.
   */
  lemma StopCanReturn(run: seq<Event>, id: Id)
    requires Legal(Fresh(), run)
    requires var s := After(Fresh(), run);
      id in s.stops && s.stops[id].Waiting? && (s.stops[id].afterStart || CancelParent in run)
    ensures exists more ::
      Legal(After(Fresh(), run), more) && Enabled(After(After(Fresh(), run), more), StopReturn(id))
  {
    RunKeepsInv(Fresh(), run);
    CancelledOverRun(Fresh(), run);
    var s := After(Fresh(), run);
    var ticks := TicksEnd(s);
    var loops := LoopsEnd(After(s, ticks));
    var more := InTurn(s, ticks, loops);
    assert Enabled(After(s, more), StopReturn(id));
  }
}
