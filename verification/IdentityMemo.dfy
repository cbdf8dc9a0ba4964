/**
 The identity a request has resolved, kept on the request under a key made of its session id and user id.
 */
module IdentityMemo {
  import opened Options

  /** What resolving the caller establishes. */
  datatype Identity = Anonymous | Authenticated(user: string, roles: seq<string>) | Unresolved

  /** What the request's current session says; a request with no session has no principal. */
  datatype Principal = Principal(sessionId: string, userId: string)

  /** Resolution without the memo, given that it depends on the principal alone. */
  type Resolver = Option<Principal> -> Identity

  const NUL: char := '\0'

  function Key(p: Option<Principal>): string {
    match p
    case None => ""
    case Some(p) => "session:" + p.sessionId + [NUL] + p.userId
  }

  predicate NulFree(p: Option<Principal>) {
    p.Some? ==> NUL !in p.value.sessionId
  }

  /** Only the session ids need to be free of NUL for the key to say which principal it is. */
  lemma KeyIsInjective(p: Option<Principal>, q: Option<Principal>)
    requires NulFree(p) && NulFree(q)
    ensures Key(p) == Key(q) <==> p == q
  {
    if p.Some? && q.Some? && Key(p) == Key(q) {
      var a, b := p.value.sessionId + [NUL] + p.value.userId, q.value.sessionId + [NUL] + q.value.userId;
      assert Key(p)[8..] == a && Key(q)[8..] == b;
      SplitAtNul(p.value.sessionId, p.value.userId, q.value.sessionId, q.value.userId);
    }
  }

  lemma SplitAtNul(a: string, b: string, c: string, d: string)
    requires NUL !in a && NUL !in c
    requires a + [NUL] + b == c + [NUL] + d
    ensures a == c && b == d
  {
    var whole := a + [NUL] + b;
    assert whole[|a|] == NUL && whole[|c|] == NUL;
    assert forall i :: 0 <= i < |a| ==> whole[i] == a[i] && whole[i] != NUL;
    assert forall i :: 0 <= i < |c| ==> whole[i] == c[i] && whole[i] != NUL;
    assert a == whole[..|a|] && c == whole[..|c|];
    assert b == whole[|a| + 1..] && d == whole[|c| + 1..];
  }

  ghost predicate HasTwin(p: Option<Principal>) {
    exists q :: q != p && Key(q) == Key(p)
  }

  /** Some other principal shares the key exactly when there is a NUL in the session id or in the user id. */
  lemma SharesKeyExactly(p: Option<Principal>)
    ensures HasTwin(p) <==> p.Some? && (NUL in p.value.sessionId || NUL in p.value.userId)
  {
    if p.Some? {
      var a, b := p.value.sessionId, p.value.userId;
      if NUL in a {
        var i :| 0 <= i < |a| && a[i] == NUL;
        SameKey(p, a[..i], a[i + 1..] + [NUL] + b);
      } else if NUL in b {
        var i :| 0 <= i < |b| && b[i] == NUL;
        SameKey(p, a + [NUL] + b[..i], b[i + 1..]);
      } else {
        forall q | Key(q) == Key(p) ensures q == p {
          NoTwin(p.value, q);
        }
      }
    }
  }

  lemma NoTwin(p: Principal, q: Option<Principal>)
    requires NUL !in p.sessionId && NUL !in p.userId && Key(q) == Key(Some(p))
    ensures q == Some(p)
  {
    assert |Key(q)| > 0;
    assert Key(q)[8..] == q.value.sessionId + [NUL] + q.value.userId;
    assert Key(Some(p))[8..] == p.sessionId + [NUL] + p.userId;
    OnlyOneNul(p.sessionId, p.userId, q.value.sessionId, q.value.userId);
  }

  lemma SameKey(p: Option<Principal>, sessionId: string, userId: string)
    requires p.Some? && |sessionId| != |p.value.sessionId|
    requires sessionId + [NUL] + userId == p.value.sessionId + [NUL] + p.value.userId
    ensures HasTwin(p)
  {
    var q := Some(Principal(sessionId, userId));
    assert Key(q) == "session:" + (sessionId + [NUL] + userId);
    assert Key(p) == "session:" + (p.value.sessionId + [NUL] + p.value.userId);
    assert q != p;
  }

  lemma OnlyOneNul(a: string, b: string, c: string, d: string)
    requires NUL !in a && NUL !in b
    requires c + [NUL] + d == a + [NUL] + b
    ensures a == c && b == d
  {
    var whole := a + [NUL] + b;
    assert forall i :: 0 <= i < |whole| && i != |a| ==> whole[i] != NUL;
    assert whole[|c|] == NUL;
    assert a == whole[..|a|] && c == whole[..|c|];
    assert b == whole[|a| + 1..] && d == whole[|c| + 1..];
  }

  // ---- The slot on the request ----

  class Session {
    const id: string
    var userId: string

    constructor (id: string, userId: string)
      ensures this.id == id && this.userId == userId
    {
      this.id, this.userId := id, userId;
    }

    method SetUserId(userId: string)
      modifies this
      ensures this.userId == userId
    {
      this.userId := userId;
    }
  }

  datatype Slot = Slot(stored: bool, key: string, identity: Identity)

  const EMPTY_SLOT := Slot(false, "", Anonymous)

  class MessageContext {
    var session: Session?
    var identityKey: string
    var identity: Identity
    var identityStored: bool

    constructor ()
      ensures session == null && Memo() == EMPTY_SLOT
    {
      session, identityKey, identity, identityStored := null, "", Anonymous, false;
    }

    ghost function Memo(): (slot: Slot)
      reads this
    {
      Slot(identityStored, identityKey, identity)
    }

    ghost function Current(): (p: Option<Principal>)
      reads this, session
    {
      if session == null then None else Some(Principal(session.id, session.userId))
    }

    method SetSession(session: Session?)
      modifies this`session
      ensures this.session == session
    {
      this.session := session;
    }

    method LoadIdentity(key: string) returns (found: Option<Identity>)
      ensures found == Load(Memo(), key)
    {
      if !identityStored || identityKey != key {
        return None;
      }
      return Some(identity);
    }

    method StoreIdentity(key: string, identity: Identity)
      modifies this`identityKey, this`identity, this`identityStored
      ensures Memo() == Slot(true, key, identity)
    {
      identityKey, this.identity, identityStored := key, identity, true;
    }

    method InvalidateIdentity()
      modifies this`identityKey, this`identity, this`identityStored
      ensures Memo() == EMPTY_SLOT
    {
      identityKey, identity, identityStored := "", Anonymous, false;
    }

    method MemoKey() returns (key: string)
      ensures key == Key(Current())
    {
      if session == null {
        return "";
      }
      return "session:" + session.id + [NUL] + session.userId;
    }

    /** Run alone, the memo answers what resolution would. */
    method ResolveUserContext(resolve: Resolver) returns (identity: Identity)
      requires NulFree(Current()) && Honest(resolve, Memo())
      modifies this`identityKey, this`identity, this`identityStored
      ensures identity == resolve(Current())
      ensures Honest(resolve, Memo())
    {
      var key := MemoKey();
      var found := LoadIdentity(key);
      if found.Some? {
        HonestHit(resolve, Memo(), Current());
        return found.value;
      }
      identity := resolve(if session == null then None else Some(Principal(session.id, session.userId)));
      StoreIdentity(key, identity);
    }
  }

  function Load(slot: Slot, key: string): Option<Identity> {
    if slot.stored && slot.key == key then Some(slot.identity) else None
  }

  /** What is stored is what its key's principal resolves to. */
  ghost predicate Honest(resolve: Resolver, slot: Slot) {
    slot.stored ==> exists p :: NulFree(p) && slot.key == Key(p) && slot.identity == resolve(p)
  }

  lemma HonestHit(resolve: Resolver, slot: Slot, current: Option<Principal>)
    requires Honest(resolve, slot) && NulFree(current)
    requires Load(slot, Key(current)).Some?
    ensures Load(slot, Key(current)).value == resolve(current)
  {
    var p :| NulFree(p) && slot.key == Key(p) && slot.identity == resolve(p);
    KeyIsInjective(p, current);
  }

  // ---- One caller: any sequence of operations ----

  datatype Op = Publish(p: Option<Principal>) | SetUser(userId: string) | Invalidate | Ask

  function Renamed(p: Option<Principal>, userId: string): (renamed: Option<Principal>)
    ensures p.None? <==> renamed.None?
    ensures p.Some? ==> renamed.value.sessionId == p.value.sessionId && renamed.value.userId == userId
  {
    if p.None? then None else Some(p.value.(userId := userId))
  }

  function Resolved(resolve: Resolver, slot: Slot, current: Option<Principal>): (r: (Identity, Slot)) {
    var found := Load(slot, Key(current));
    if found.Some? then (found.value, slot)
    else (resolve(current), Slot(true, Key(current), resolve(current)))
  }

  function WithMemo(resolve: Resolver, current: Option<Principal>, slot: Slot, ops: seq<Op>): seq<Identity>
    decreases |ops|
  {
    if ops == [] then []
    else
      match ops[0]
      case Publish(p) => WithMemo(resolve, p, slot, ops[1..])
      case SetUser(userId) => WithMemo(resolve, Renamed(current, userId), slot, ops[1..])
      case Invalidate => WithMemo(resolve, current, EMPTY_SLOT, ops[1..])
      case Ask =>
        var (identity, after) := Resolved(resolve, slot, current);
        [identity] + WithMemo(resolve, current, after, ops[1..])
  }

  function WithoutMemo(resolve: Resolver, current: Option<Principal>, ops: seq<Op>): seq<Identity>
    decreases |ops|
  {
    if ops == [] then []
    else
      match ops[0]
      case Publish(p) => WithoutMemo(resolve, p, ops[1..])
      case SetUser(userId) => WithoutMemo(resolve, Renamed(current, userId), ops[1..])
      case Invalidate => WithoutMemo(resolve, current, ops[1..])
      case Ask => [resolve(current)] + WithoutMemo(resolve, current, ops[1..])
  }

  /** Whatever is published, re-pointed and invalidated in between, every answer is the unmemoised one. */
  lemma {:induction false} MemoIsTransparent(resolve: Resolver, current: Option<Principal>, slot: Slot, ops: seq<Op>)
    requires NulFree(current) && Honest(resolve, slot)
    requires forall i :: 0 <= i < |ops| && ops[i].Publish? ==> NulFree(ops[i].p)
    ensures WithMemo(resolve, current, slot, ops) == WithoutMemo(resolve, current, ops)
    decreases |ops|
  {
    if ops != [] {
      match ops[0] {
        case Publish(p) => MemoIsTransparent(resolve, p, slot, ops[1..]);
        case SetUser(userId) => MemoIsTransparent(resolve, Renamed(current, userId), slot, ops[1..]);
        case Invalidate => MemoIsTransparent(resolve, current, EMPTY_SLOT, ops[1..]);
        case Ask =>
          if Load(slot, Key(current)).Some? {
            HonestHit(resolve, slot, current);
          }
          MemoIsTransparent(resolve, current, Resolved(resolve, slot, current).1, ops[1..]);
      }
    }
  }

  /** How often resolution is asked. */
  function Resolutions(resolve: Resolver, current: Option<Principal>, slot: Slot, ops: seq<Op>): nat
    decreases |ops|
  {
    if ops == [] then 0
    else
      match ops[0]
      case Publish(p) => Resolutions(resolve, p, slot, ops[1..])
      case SetUser(userId) => Resolutions(resolve, Renamed(current, userId), slot, ops[1..])
      case Invalidate => Resolutions(resolve, current, EMPTY_SLOT, ops[1..])
      case Ask =>
        (if Load(slot, Key(current)).Some? then 0 else 1)
        + Resolutions(resolve, current, Resolved(resolve, slot, current).1, ops[1..])
  }

  /** Nothing is invalidated, and whatever is published or set leaves the request with the same principal. */
  predicate Steady(current: Option<Principal>, ops: seq<Op>) {
    forall i :: 0 <= i < |ops| ==>
      match ops[i]
      case Publish(p) => p == current
      case SetUser(userId) => Renamed(current, userId) == current
      case Invalidate => false
      case Ask => true
  }

  /** A request that keeps its principal is resolved at most once, and exactly once if it asks and nothing is stored. */
  lemma {:induction false} ResolvedOnce(resolve: Resolver, current: Option<Principal>, slot: Slot, ops: seq<Op>)
    requires Steady(current, ops)
    ensures Resolutions(resolve, current, slot, ops) ==
      if Load(slot, Key(current)).None? && Ask in ops then 1 else 0
    decreases |ops|
  {
    if ops != [] {
      assert Steady(current, ops[1..]) by {
        assert forall i :: 0 <= i < |ops| - 1 ==> ops[1..][i] == ops[i + 1];
      }
      assert Ask in ops <==> ops[0] == Ask || Ask in ops[1..];
      ResolvedOnce(resolve, current, if ops[0].Ask? then Resolved(resolve, slot, current).1 else slot, ops[1..]);
    }
  }

  // ---- Several goroutines of one request ----

  type Id = nat

  /** A goroutine that missed has its key; later it has what it resolved. The epochs say when it read what. */
  datatype Asking = Keyed(keyEpoch: nat) | Answered(keyEpoch: nat, readEpoch: nat)

  /**
   `past[e]` is the principal in epoch `e`; the last one is current. What is stored is known by its key and by
   the epochs its asker took that key and resolved in, whatever resolution makes of a principal.
   */
  datatype Sys = Sys(past: seq<Option<Principal>>, asking: map<Id, Asking>, stored: bool, key: string,
                     keyEpoch: nat, readEpoch: nat)

  datatype Event =
    | Change(p: Option<Principal>)
    | InvalidateSlot
    | Miss(g: Id)
    | Read(g: Id)
    | Store(g: Id)

  function Now(s: Sys): Option<Principal>
    requires s.past != []
  {
    s.past[|s.past| - 1]
  }

  /** The slot as the request holds it. */
  function SlotOf(resolve: Resolver, s: Sys): Slot {
    if s.stored && s.readEpoch < |s.past| then Slot(true, s.key, resolve(s.past[s.readEpoch])) else EMPTY_SLOT
  }

  predicate Enabled(s: Sys, e: Event) {
    s.past != [] &&
    match e
    case Change(_) => true
    case InvalidateSlot => true
    case Miss(g) => g !in s.asking && !(s.stored && s.key == Key(Now(s)))
    case Read(g) => g in s.asking && s.asking[g].Keyed?
    case Store(g) => g in s.asking && s.asking[g].Answered? && s.asking[g].keyEpoch < |s.past|
  }

  /** Resolving reads the principal of its own moment; storing goes under the key taken before. */
  function Next(s: Sys, e: Event): Sys
    requires Enabled(s, e)
  {
    match e
    case Change(p) => s.(past := s.past + [p])
    case InvalidateSlot => s.(stored := false)
    case Miss(g) => s.(asking := s.asking[g := Keyed(|s.past| - 1)])
    case Read(g) => s.(asking := s.asking[g := Answered(s.asking[g].keyEpoch, |s.past| - 1)])
    case Store(g) =>
      var a := s.asking[g];
      s.(asking := s.asking - {g}, stored := true, key := Key(s.past[a.keyEpoch]),
         keyEpoch := a.keyEpoch, readEpoch := a.readEpoch)
  }

  predicate AskingOk(a: Asking, now: nat) {
    a.keyEpoch <= now && (a.Answered? ==> a.keyEpoch <= a.readEpoch <= now)
  }

  predicate Inv(s: Sys) {
    && s.past != []
    && (forall e :: 0 <= e < |s.past| ==> NulFree(s.past[e]))
    && (forall g :: g in s.asking ==> AskingOk(s.asking[g], |s.past| - 1))
    && (s.stored ==> s.keyEpoch <= s.readEpoch < |s.past| && s.key == Key(s.past[s.keyEpoch]))
  }

  function Begin(p: Option<Principal>): Sys {
    Sys([p], map[], false, "", 0, 0)
  }

  predicate Legal(s: Sys, run: seq<Event>)
    decreases |run|
  {
    run == [] || (Enabled(s, run[0]) && Legal(Next(s, run[0]), run[1..]))
  }

  function After(s: Sys, run: seq<Event>): Sys
    requires Legal(s, run)
    decreases |run|
  {
    if run == [] then s else After(Next(s, run[0]), run[1..])
  }

  predicate NulFreeRun(run: seq<Event>) {
    forall i :: 0 <= i < |run| && run[i].Change? ==> NulFree(run[i].p)
  }

  lemma {:induction false} RunKeepsInv(s: Sys, run: seq<Event>)
    requires Inv(s) && Legal(s, run) && NulFreeRun(run)
    ensures Inv(After(s, run))
    decreases |run|
  {
    if run != [] {
      RunKeepsInv(Next(s, run[0]), run[1..]);
    }
  }

  lemma {:induction false} InTwo(s: Sys, first: seq<Event>, rest: seq<Event>)
    requires Legal(s, first + rest)
    ensures Legal(s, first) && Legal(After(s, first), rest)
    ensures After(s, first + rest) == After(After(s, first), rest)
    decreases |first|
  {
    if first == [] {
      assert first + rest == rest;
    } else {
      assert (first + rest)[1..] == first[1..] + rest;
      InTwo(Next(s, first[0]), first[1..], rest);
    }
  }

  /** A hit answers what resolution would answer now. */
  predicate HitIsRight(resolve: Resolver, s: Sys)
    requires s.past != []
  {
    var found := Load(SlotOf(resolve, s), Key(Now(s)));
    found.Some? ==> found.value == resolve(Now(s))
  }

  /** In every run a goroutine that asks misses exactly when the slot the request holds has nothing under its key. */
  lemma MissesExactly(resolve: Resolver, p: Option<Principal>, run: seq<Event>, g: Id)
    requires NulFree(p) && NulFreeRun(run) && Legal(Begin(p), run) && g !in After(Begin(p), run).asking
    ensures var s := After(Begin(p), run);
      s.past != [] && (Enabled(s, Miss(g)) <==> Load(SlotOf(resolve, s), Key(Now(s))).None?)
  {
    RunKeepsInv(Begin(p), run);
  }

  /** Once the slot is invalidated nothing is found in it, under any key, until somebody stores again. */
  lemma {:induction false} InvalidatedIsEmpty(resolve: Resolver, s: Sys, run: seq<Event>, key: string)
    requires Enabled(s, InvalidateSlot) && Legal(Next(s, InvalidateSlot), run)
    requires forall i :: 0 <= i < |run| ==> !run[i].Store?
    ensures Load(SlotOf(resolve, After(Next(s, InvalidateSlot), run)), key).None?
  {
    NothingIsStored(Next(s, InvalidateSlot), run);
  }

  lemma {:induction false} NothingIsStored(s: Sys, run: seq<Event>)
    requires !s.stored && Legal(s, run) && forall i :: 0 <= i < |run| ==> !run[i].Store?
    ensures !After(s, run).stored
    decreases |run|
  {
    if run != [] {
      NothingIsStored(Next(s, run[0]), run[1..]);
    }
  }

  predicate NeverReturns(past: seq<Option<Principal>>) {
    forall i, j :: 0 <= i < j < |past| ==> past[i] != past[j]
  }

  /** However goroutines interleave with changes, a request that never returns to a principal is answered rightly. */
  lemma RightWithoutReturn(resolve: Resolver, p: Option<Principal>, run: seq<Event>)
    requires NulFree(p) && NulFreeRun(run) && Legal(Begin(p), run)
    requires NeverReturns(After(Begin(p), run).past)
    ensures After(Begin(p), run).past != [] && HitIsRight(resolve, After(Begin(p), run))
  {
    RunKeepsInv(Begin(p), run);
    var s := After(Begin(p), run);
    if Load(SlotOf(resolve, s), Key(Now(s))).Some? {
      KeyIsInjective(s.past[s.keyEpoch], Now(s));
    }
  }

  /** Whatever resolution makes of principals, every hit on this slot is right, on any principal the request may carry then. */
  ghost predicate RightForAll(s: Sys) {
    forall resolve: Resolver, q: Option<Principal> {:trigger Load(SlotOf(resolve, s), Key(q))} ::
      NulFree(q) && Load(SlotOf(resolve, s), Key(q)).Some? ==> Load(SlotOf(resolve, s), Key(q)).value == resolve(q)
  }

  predicate NotBy(e: Event, g: Id) {
    (e.Miss? || e.Read? || e.Store?) ==> e.g != g
  }

  predicate Others(run: seq<Event>, g: Id) {
    forall i :: 0 <= i < |run| ==> NotBy(run[i], g)
  }

  lemma {:induction false} OthersLeaveAsking(s: Sys, run: seq<Event>, g: Id)
    requires Legal(s, run) && Others(run, g) && g in s.asking && s.past != []
    ensures g in After(s, run).asking && After(s, run).asking[g] == s.asking[g]
    ensures s.past <= After(s, run).past
    decreases |run|
  {
    if run != [] {
      assert NotBy(run[0], g);
      OthersLeaveAsking(Next(s, run[0]), run[1..], g);
    }
  }

  lemma RightExactlyByEpochs(s: Sys)
    requires Inv(s) && s.stored
    ensures RightForAll(s) <==> s.past[s.keyEpoch] == s.past[s.readEpoch]
  {
    var keyed, read := s.past[s.keyEpoch], s.past[s.readEpoch];
    forall resolve: Resolver, q: Option<Principal> | NulFree(q) && Load(SlotOf(resolve, s), Key(q)).Some?
      ensures q == keyed && Load(SlotOf(resolve, s), Key(q)).value == resolve(read)
    {
      KeyIsInjective(q, keyed);
    }
    if RightForAll(s) {
      var tell: Resolver := p => if p == keyed then Anonymous else Unresolved;
      assert Load(SlotOf(tell, s), Key(keyed)) == Some(tell(read));
    }
  }

  /**
   Over a run in which one goroutine misses, resolves and stores, others doing anything in between: what it
   stored is right for every later hit, whatever resolution makes of principals, exactly when the request
   carried the same principal when the key was taken and when resolution read it. What came in between and was
   undone does not matter; what is undone only afterwards does.
   */
  lemma StoredIsRightExactly(p: Option<Principal>, before: seq<Event>, between: seq<Event>, later: seq<Event>, g: Id)
    requires NulFree(p) && NulFreeRun(before) && NulFreeRun(between) && NulFreeRun(later)
    requires Others(between, g) && Others(later, g)
    requires Legal(Begin(p), before + Missing(g, between) + Reading(g, later) + [Store(g)])
    ensures Legal(Begin(p), before) && Legal(Begin(p), before + Missing(g, between))
    ensures var missed, read := After(Begin(p), before), After(Begin(p), before + Missing(g, between));
            var s := After(Begin(p), before + Missing(g, between) + Reading(g, later) + [Store(g)]);
      && s.stored && missed.past != [] && read.past != []
      && (RightForAll(s) <==> Now(missed) == Now(read))
  {
    InTwo(Begin(p), before + Missing(g, between) + Reading(g, later), [Store(g)]);
    InTwo(Begin(p), before + Missing(g, between), Reading(g, later));
    InTwo(Begin(p), before, Missing(g, between));
    RunKeepsInv(Begin(p), before);
    var a := After(Begin(p), before);
    FromMiss(a, between, g);
    var c := After(a, Missing(g, between));
    FromRead(c, later, g);
    var e := After(c, Reading(g, later));
    FromStore(e, g);
  }

  function Missing(g: Id, between: seq<Event>): seq<Event> {
    [Miss(g)] + between
  }

  function Reading(g: Id, later: seq<Event>): seq<Event> {
    [Read(g)] + later
  }

  lemma FromMiss(a: Sys, between: seq<Event>, g: Id)
    requires Inv(a) && NulFreeRun(between) && Others(between, g) && Legal(a, Missing(g, between))
    ensures var c := After(a, Missing(g, between));
      Inv(c) && g in c.asking && c.asking[g] == Keyed(|a.past| - 1) && c.past[c.asking[g].keyEpoch] == Now(a)
  {
    assert Missing(g, between)[1..] == between;
    var b := Next(a, Miss(g));
    RunKeepsInv(b, between);
    OthersLeaveAsking(b, between, g);
  }

  lemma FromRead(c: Sys, later: seq<Event>, g: Id)
    requires Inv(c) && NulFreeRun(later) && Others(later, g) && g in c.asking && c.asking[g].Keyed?
    requires Legal(c, Reading(g, later))
    ensures var e := After(c, Reading(g, later));
      && Inv(e) && g in e.asking && e.asking[g] == Answered(c.asking[g].keyEpoch, |c.past| - 1)
      && e.past[e.asking[g].keyEpoch] == c.past[c.asking[g].keyEpoch] && e.past[e.asking[g].readEpoch] == Now(c)
  {
    assert Reading(g, later)[1..] == later;
    var d := Next(c, Read(g));
    RunKeepsInv(d, later);
    OthersLeaveAsking(d, later, g);
  }

  lemma FromStore(e: Sys, g: Id)
    requires Inv(e) && g in e.asking && e.asking[g].Answered? && Legal(e, [Store(g)])
    ensures var s := After(e, [Store(g)]);
      && s.stored
      && (RightForAll(s) <==> e.past[e.asking[g].keyEpoch] == e.past[e.asking[g].readEpoch])
  {
    assert [Store(g)][1..] == [];
    var s := Next(e, Store(g));
    assert After(e, [Store(g)]) == s;
    RightExactlyByEpochs(s);
  }

  /** A publish between the key and the read, undone afterwards: the request is answered as somebody else. */
  lemma UndoneChangeAnswersAsAnother(resolve: Resolver, p: Option<Principal>, q: Option<Principal>)
    requires resolve(p) != resolve(q)
    ensures var run := [Miss(0), Change(q), Read(0), Store(0), Change(p)];
      && Legal(Begin(p), run)
      && After(Begin(p), run).past == [p, q, p]
      && Load(SlotOf(resolve, After(Begin(p), run)), Key(p)) == Some(resolve(q))
  {
    var run := [Miss(0), Change(q), Read(0), Store(0), Change(p)];
    var missed := Next(Begin(p), run[0]);
    var changed := Next(missed, run[1]);
    var read := Next(changed, run[2]);
    var stored := Next(read, run[3]);
    var back := Next(stored, run[4]);
    assert back.past == [p, q, p];
    OneStep(stored, run[4], []);
    OneStep(read, run[3], [run[4]]);
    OneStep(changed, run[2], [run[3], run[4]]);
    OneStep(missed, run[1], [run[2], run[3], run[4]]);
    OneStep(Begin(p), run[0], [run[1], run[2], run[3], run[4]]);
  }

  lemma OneStep(s: Sys, e: Event, rest: seq<Event>)
    requires Enabled(s, e) && Legal(Next(s, e), rest)
    ensures Legal(s, [e] + rest)
    ensures After(s, [e] + rest) == After(Next(s, e), rest)
  {
    assert ([e] + rest)[1..] == rest;
  }
}
