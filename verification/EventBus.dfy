/**
 The event bus: a table with one subscriber per event name, and a counter of async handlers.
 */
module EventBuses {
  import opened Options

  /** What a caller hands in: nil, something that is not a pointer, or a pointer. */
  datatype Candidate = Nil | NotAPointer | Pointer(id: nat)

  datatype SubscribeError = MustNotBeNil | MustBeAPointer

  datatype Subscription = Subscription(subscriber: nat, async: bool)

  datatype Published = NotFound | Handled(subscriber: nat) | Spawned(subscriber: nat)

  function Validation(c: Candidate): Option<SubscribeError> {
    match c
    case Nil => Some(MustNotBeNil)
    case NotAPointer => Some(MustBeAPointer)
    case Pointer(_) => None
  }

  type Table = map<string, Subscription>

  /** What publishing an event comes to: nobody there, run inline, or given a goroutine. */
  function Dispatch(table: Table, event: string): Published {
    if event !in table then NotFound
    else if table[event].async then Spawned(table[event].subscriber)
    else Handled(table[event].subscriber)
  }

  /** The wait counter goes up for a goroutine, before it starts. */
  function Counted(outstanding: int, result: Published): int {
    if result.Spawned? then outstanding + 1 else outstanding
  }

  class EventBus {
    var subscribers: Table
    var outstanding: nat

    constructor ()
      ensures subscribers == map[] && outstanding == 0
    {
      subscribers, outstanding := map[], 0;
    }

    /** Validates before it writes: a refused subscriber leaves the table as it was. */
    method Subscribe(event: string, subscriber: Candidate, async: bool) returns (err: Option<SubscribeError>)
      modifies this`subscribers
      ensures err == Validation(subscriber)
      ensures subscribers == ApplyOp(old(subscribers), SubscribeOp(event, subscriber, async))
    {
      err := Validation(subscriber);
      if err.Some? {
        return;
      }
      subscribers := subscribers[event := Subscription(subscriber.id, async)];
    }

    method Unsubscribe(event: string)
      modifies this`subscribers
      ensures subscribers == ApplyOp(old(subscribers), UnsubscribeOp(event))
    {
      subscribers := subscribers - {event};
    }

    /** Runs the subscriber inline, or counts an async one before its goroutine starts. */
    method Publish(event: string) returns (result: Published)
      modifies this`outstanding
      ensures result == Dispatch(subscribers, event)
      ensures outstanding == Counted(old(outstanding), result)
    {
      if event !in subscribers {
        return NotFound;
      }
      var config := subscribers[event];
      if config.async {
        outstanding := outstanding + 1;
        return Spawned(config.subscriber);
      }
      return Handled(config.subscriber);
    }

    /** The deferred Done of an async handler, panicking or not. */
    method HandlerReturned()
      requires outstanding > 0
      modifies this`outstanding
      ensures outstanding == old(outstanding) - 1
    {
      outstanding := outstanding - 1;
    }
  }

  datatype TableOp =
    | SubscribeOp(event: string, subscriber: Candidate, async: bool)
    | UnsubscribeOp(event: string)

  function ApplyOp(table: Table, op: TableOp): Table {
    match op
    case SubscribeOp(event, subscriber, async) =>
      if subscriber.Pointer? then table[event := Subscription(subscriber.id, async)] else table
    case UnsubscribeOp(event) => table - {event}
  }

  predicate Decides(op: TableOp, event: string) {
    op.event == event && (op.SubscribeOp? ==> op.subscriber.Pointer?)
  }

  // ---- All interleavings ----

  type Id = nat

  /** The bus, with the handlers that are live and how many there have been, which no code keeps. */
  datatype Bus = Bus(table: Table, counter: int, live: set<Id>, spawned: nat, returned: nat)

  datatype Event = Edit(op: TableOp) | PublishOf(event: string, h: Id) | HandlerDone(h: Id)

  predicate Enabled(b: Bus, e: Event) {
    match e
    case Edit(_) => true
    case PublishOf(_, h) => h !in b.live
    case HandlerDone(h) => h in b.live
  }

  function Next(b: Bus, e: Event): Bus
    requires Enabled(b, e)
  {
    match e
    case Edit(op) => b.(table := ApplyOp(b.table, op))
    case PublishOf(event, h) =>
      var result := Dispatch(b.table, event);
      var counted := b.(counter := Counted(b.counter, result));
      if result.Spawned? then counted.(live := b.live + {h}, spawned := b.spawned + 1) else counted
    case HandlerDone(h) => b.(counter := b.counter - 1, live := b.live - {h}, returned := b.returned + 1)
  }

  predicate Balanced(b: Bus) {
    b.counter == b.spawned - b.returned == |b.live|
  }

  lemma StepKeepsBalanced(b: Bus, e: Event)
    requires Balanced(b) && Enabled(b, e)
    ensures Balanced(Next(b, e))
  {
  }

  predicate Legal(b: Bus, run: seq<Event>)
    decreases |run|
  {
    run == [] || (Enabled(b, run[0]) && Legal(Next(b, run[0]), run[1..]))
  }

  function After(b: Bus, run: seq<Event>): Bus
    requires Legal(b, run)
    decreases |run|
  {
    if run == [] then b else After(Next(b, run[0]), run[1..])
  }

  /**
   Over every run of subscriptions, publishes and handlers the counter is the handlers spawned less those that
   returned, which is the handlers still live: WaitAsync can return exactly when there is none.
   */
  lemma {:induction false} CounterIsLiveHandlers(b: Bus, run: seq<Event>)
    requires Balanced(b) && Legal(b, run)
    ensures var end := After(b, run);
      && end.counter == end.spawned - end.returned == |end.live|
      && (end.counter == 0 <==> end.live == {})
    decreases |run|
  {
    if run != [] {
      StepKeepsBalanced(b, run[0]);
      CounterIsLiveHandlers(Next(b, run[0]), run[1..]);
    }
  }

  // ---- Who a publish reaches ----

  predicate Settles(e: Event, event: string) {
    e.Edit? && Decides(e.op, event)
  }

  lemma {:induction false} UnsettledKeepsDispatch(b: Bus, run: seq<Event>, event: string)
    requires Legal(b, run) && forall i :: 0 <= i < |run| ==> !Settles(run[i], event)
    ensures Dispatch(After(b, run).table, event) == Dispatch(b.table, event)
    decreases |run|
  {
    if run != [] {
      assert !Settles(run[0], event);
      UnsettledKeepsDispatch(Next(b, run[0]), run[1..], event);
    }
  }

  /**
   In every run, whatever is published and returns meanwhile, a publish reaches the subscriber that the last
   accepted operation on its event left: refused subscribers and operations on other events do not count, and
   an earlier subscriber is not told.
   */
  lemma {:induction false} PublishReachesTheLastSubscriber(b: Bus, run: seq<Event>, k: nat, event: string)
    requires Legal(b, run) && k < |run| && Settles(run[k], event)
    requires forall i :: k < i < |run| ==> !Settles(run[i], event)
    ensures Dispatch(After(b, run).table, event) ==
      match run[k].op
      case UnsubscribeOp(_) => NotFound
      case SubscribeOp(_, subscriber, async) => if async then Spawned(subscriber.id) else Handled(subscriber.id)
    decreases |run|
  {
    if k == 0 {
      UnsettledKeepsDispatch(Next(b, run[0]), run[1..], event);
    } else {
      PublishReachesTheLastSubscriber(Next(b, run[0]), run[1..], k - 1, event);
    }
  }
}
