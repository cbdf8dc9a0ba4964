/**
 The replay log a session keeps of its attribute mutations.

 A session stores its attributes as one column, so a writer that lost a version race cannot
 merge two bags. It replays its own recorded mutations onto the winner's bag instead. This
 module gives the log its meaning and says when two logs mean the same and when they commute.
 */
module AttributeLog {

  type Bag = map<string, string>

  datatype AttributeOp =
    | OpSet(key: string, value: string)
    | OpClear(key: string)
    | OpClearAll

  function ApplyOp(bag: Bag, op: AttributeOp): Bag {
    match op
    case OpSet(key, value) => bag[key := value]
    case OpClear(key) => bag - {key}
    case OpClearAll => map[]
  }

  /** The bag after the operations of `ops`, in order. */
  function Replay(bag: Bag, ops: seq<AttributeOp>): Bag {
    if ops == [] then bag
    else ApplyOp(Replay(bag, ops[..|ops| - 1]), ops[|ops| - 1])
  }

  /** What recording one more mutation does to the log: a clear-all drops everything before it. */
  function Record(log: seq<AttributeOp>, op: AttributeOp): seq<AttributeOp> {
    if op.OpClearAll? then [op] else log + [op]
  }

  /** The log left by recording every operation of `ops`, oldest first. */
  function RecordAll(ops: seq<AttributeOp>): seq<AttributeOp> {
    if ops == [] then [] else Record(RecordAll(ops[..|ops| - 1]), ops[|ops| - 1])
  }

  // ---- Reference meaning, one key at a time ----

  datatype Verdict = Untouched | Absent | Present(value: string)

  function OpVerdict(op: AttributeOp, key: string): Verdict {
    match op
    case OpSet(k, value) => if k == key then Present(value) else Untouched
    case OpClear(k) => if k == key then Absent else Untouched
    case OpClearAll => Absent
  }

  /** What the last operation that concerns `key` says about it. */
  function LastWord(ops: seq<AttributeOp>, key: string): Verdict {
    if ops == [] then Untouched
    else
      var last := OpVerdict(ops[|ops| - 1], key);
      if last.Untouched? then LastWord(ops[..|ops| - 1], key) else last
  }

  function Lookup(bag: Bag, key: string): Verdict {
    if key in bag then Present(bag[key]) else Absent
  }

  /** Every key of a replayed bag holds what the last operation on it said, and nothing else. */
  lemma {:induction false} ReplayLookup(bag: Bag, ops: seq<AttributeOp>, key: string)
    ensures Lookup(Replay(bag, ops), key) ==
            if LastWord(ops, key).Untouched? then Lookup(bag, key) else LastWord(ops, key)
  {
    if ops != [] {
      ReplayLookup(bag, ops[..|ops| - 1], key);
    }
  }

  lemma SameLookups(a: Bag, b: Bag)
    requires forall key :: Lookup(a, key) == Lookup(b, key)
    ensures a == b
  {
    forall key | key in a || key in b
      ensures key in a && key in b && a[key] == b[key]
    {
      assert Lookup(a, key) == Lookup(b, key);
    }
  }

  ghost predicate SameEffect(x: seq<AttributeOp>, y: seq<AttributeOp>) {
    forall bag :: Replay(bag, x) == Replay(bag, y)
  }

  ghost predicate SameLastWords(x: seq<AttributeOp>, y: seq<AttributeOp>) {
    forall key :: LastWord(x, key) == LastWord(y, key)
  }

  lemma SameEffectFromLastWord(x: seq<AttributeOp>, y: seq<AttributeOp>)
    requires SameLastWords(x, y)
    ensures SameEffect(x, y)
  {
    forall bag: Bag ensures Replay(bag, x) == Replay(bag, y) {
      forall key ensures Lookup(Replay(bag, x), key) == Lookup(Replay(bag, y), key) {
        ReplayLookup(bag, x, key);
        ReplayLookup(bag, y, key);
      }
      SameLookups(Replay(bag, x), Replay(bag, y));
    }
  }

  /** Two logs do the same to every bag exactly when they have the same last word on every key. */
  lemma EffectIsLastWord(x: seq<AttributeOp>, y: seq<AttributeOp>)
    ensures SameEffect(x, y) <==> SameLastWords(x, y)
  {
    if SameEffect(x, y) {
      forall key ensures LastWord(x, key) == LastWord(y, key) {
        // Two bags that differ at the key tell the verdicts apart.
        var without: Bag, with: Bag := map[], map[key := if LastWord(x, key) == Present("") then "1" else ""];
        assert Replay(without, x) == Replay(without, y);
        assert Replay(with, x) == Replay(with, y);
        ReplayLookup(without, x, key);
        ReplayLookup(without, y, key);
        ReplayLookup(with, x, key);
        ReplayLookup(with, y, key);
        assert |"1"| != |""|;
      }
    } else if SameLastWords(x, y) {
      SameEffectFromLastWord(x, y);
    }
  }

  // ---- The log against the history it stands for ----

  lemma {:induction false} ReplayConcat(bag: Bag, first: seq<AttributeOp>, second: seq<AttributeOp>)
    ensures Replay(bag, first + second) == Replay(Replay(bag, first), second)
  {
    if second == [] {
      assert first + second == first;
    } else {
      var init := second[..|second| - 1];
      assert (first + second)[..|first + second| - 1] == first + init;
      ReplayConcat(bag, first, init);
    }
  }

  /** Dropping everything before a clear-all never changes what the log does to any bag. */
  lemma {:induction false} RecordAllKeepsEffect(bag: Bag, ops: seq<AttributeOp>)
    ensures Replay(bag, RecordAll(ops)) == Replay(bag, ops)
  {
    if ops != [] {
      var init, op := ops[..|ops| - 1], ops[|ops| - 1];
      RecordAllKeepsEffect(bag, init);
      if op.OpClearAll? {
        assert RecordAll(ops)[..0] == [];
      } else {
        assert (RecordAll(init) + [op])[..|RecordAll(init)|] == RecordAll(init);
      }
    }
  }

  /** A recorded log holds nothing that a clear-all made pointless: one is only ever its first operation. */
  lemma {:induction false} RecordAllIsShort(ops: seq<AttributeOp>)
    ensures forall i :: 0 < i < |RecordAll(ops)| ==> !RecordAll(ops)[i].OpClearAll?
    decreases |ops|
  {
    if ops != [] {
      RecordAllIsShort(ops[..|ops| - 1]);
    }
  }

  lemma RecordKeepsEffect(bag: Bag, log: seq<AttributeOp>, op: AttributeOp)
    ensures Replay(bag, Record(log, op)) == ApplyOp(Replay(bag, log), op)
  {
  }

  /** Replaying a log a second time changes nothing. */
  lemma ReplayIdempotent(bag: Bag, ops: seq<AttributeOp>)
    ensures Replay(Replay(bag, ops), ops) == Replay(bag, ops)
  {
    var once := Replay(bag, ops);
    forall key ensures Lookup(Replay(once, ops), key) == Lookup(once, key) {
      ReplayLookup(once, ops, key);
      ReplayLookup(bag, ops, key);
    }
    SameLookups(Replay(once, ops), once);
  }

  ghost predicate Commute(x: seq<AttributeOp>, y: seq<AttributeOp>) {
    forall bag :: Replay(Replay(bag, x), y) == Replay(Replay(bag, y), x)
  }

  predicate Agree(x: Verdict, y: Verdict) {
    x.Untouched? || y.Untouched? || x == y
  }

  lemma ReplayTwiceLookup(bag: Bag, x: seq<AttributeOp>, y: seq<AttributeOp>, key: string)
    ensures Lookup(Replay(Replay(bag, x), y), key) ==
            if !LastWord(y, key).Untouched? then LastWord(y, key)
            else if !LastWord(x, key).Untouched? then LastWord(x, key)
            else Lookup(bag, key)
  {
    ReplayLookup(bag, x, key);
    ReplayLookup(Replay(bag, x), y, key);
  }

  ghost predicate AgreeOnEveryKey(x: seq<AttributeOp>, y: seq<AttributeOp>) {
    forall key :: Agree(LastWord(x, key), LastWord(y, key))
  }

  lemma CommuteFromAgreement(x: seq<AttributeOp>, y: seq<AttributeOp>)
    requires AgreeOnEveryKey(x, y)
    ensures Commute(x, y)
  {
    forall bag: Bag ensures Replay(Replay(bag, x), y) == Replay(Replay(bag, y), x) {
      var xy, yx := Replay(Replay(bag, x), y), Replay(Replay(bag, y), x);
      forall key ensures Lookup(xy, key) == Lookup(yx, key) {
        assert Agree(LastWord(x, key), LastWord(y, key));
        ReplayTwiceLookup(bag, x, y, key);
        ReplayTwiceLookup(bag, y, x, key);
      }
      SameLookups(xy, yx);
    }
  }

  /** Two logs commute on every bag exactly when no key has two different last words. */
  lemma CommuteExactly(x: seq<AttributeOp>, y: seq<AttributeOp>)
    ensures Commute(x, y) <==> AgreeOnEveryKey(x, y)
  {
    if Commute(x, y) {
      forall key ensures Agree(LastWord(x, key), LastWord(y, key)) {
        assert Replay(Replay(map[], x), y) == Replay(Replay(map[], y), x);
        ReplayTwiceLookup(map[], x, y, key);
        ReplayTwiceLookup(map[], y, x, key);
      }
    } else if AgreeOnEveryKey(x, y) {
      CommuteFromAgreement(x, y);
    }
  }

  predicate NoClearAll(ops: seq<AttributeOp>) {
    OpClearAll !in ops
  }

  function Keys(ops: seq<AttributeOp>): set<string> {
    set op | op in ops && !op.OpClearAll? :: op.key
  }

  lemma {:induction false} UntouchedOutsideKeys(ops: seq<AttributeOp>, key: string)
    requires NoClearAll(ops) && key !in Keys(ops)
    ensures LastWord(ops, key) == Untouched
  {
    if ops != [] {
      var init := ops[..|ops| - 1];
      assert ops[|ops| - 1] in ops;
      assert Keys(init) <= Keys(ops);
      UntouchedOutsideKeys(init, key);
    }
  }

  /** Replicas that touch different keys, and clear nothing wholesale, converge in either order. */
  lemma DisjointLogsCommute(x: seq<AttributeOp>, y: seq<AttributeOp>)
    requires NoClearAll(x) && NoClearAll(y) && Keys(x) !! Keys(y)
    ensures Commute(x, y)
  {
    forall key ensures Agree(LastWord(x, key), LastWord(y, key)) {
      if key !in Keys(x) {
        UntouchedOutsideKeys(x, key);
      } else {
        UntouchedOutsideKeys(y, key);
      }
    }
    CommuteExactly(x, y);
  }
}
