/**
 The walk that finds the promoted fields a struct shadows, over types that may embed themselves.

 A field is what the walk looks at: whether it is anonymous and of which struct type, whether it is
 exported, its Go name and its name on the wire.
 */
module OverrideWalks {
  import opened Options

  type TypeId = nat

  datatype Field = Field(name: string, wire: string, exported: bool, anonymous: bool, embeds: Option<TypeId>)

  type Types = map<TypeId, seq<Field>>

  /** An embedded struct: its type, and the name of the field that embeds it. */
  datatype Embedded = Embedded(typ: TypeId, name: string)

  /** A field the walk decides about: the names of the embedding fields that lead to it, and its own. */
  datatype Visit = Visit(route: seq<string>, name: string)

  predicate Checked(f: Field) {
    !f.anonymous && f.exported
  }

  function Join(namespace: string, name: string): string {
    if namespace == "" then name else namespace + "." + name
  }

  function Dotted(route: seq<string>): string {
    if route == [] then "" else Join(Dotted(route[..|route| - 1]), route[|route| - 1])
  }

  function Path(v: Visit): string {
    Dotted(v.route + [v.name])
  }

  /** Every embedded struct's type is a type of the graph. */
  ghost predicate Closed(g: Types) {
    forall t, i :: t in g && 0 <= i < |g[t]| && g[t][i].embeds.Some? ==> g[t][i].embeds.value in g
  }

  // ---- What is visited ----

  function OwnVisits(fields: seq<Field>, route: seq<string>): seq<Visit> {
    if fields == [] then []
    else
      var last := fields[|fields| - 1];
      OwnVisits(fields[..|fields| - 1], route) + if Checked(last) then [Visit(route, last.name)] else []
  }

  function Embeds(fields: seq<Field>): seq<Embedded> {
    if fields == [] then []
    else
      var last := fields[|fields| - 1];
      Embeds(fields[..|fields| - 1])
      + if last.anonymous && last.embeds.Some? then [Embedded(last.embeds.value, last.name)] else []
  }

  function Missing(g: Types, seen: set<TypeId>): nat {
    |g.Keys - seen|
  }

  lemma EnteringIsProgress(g: Types, seen: set<TypeId>, t: TypeId)
    requires t in g && t !in seen
    ensures Missing(g, seen + {t}) < Missing(g, seen)
  {
    assert g.Keys - seen == (g.Keys - (seen + {t})) + {t};
  }

  /** A struct's own fields, then those of each struct it embeds; a type on the way here is not entered again. */
  function Visited(g: Types, seen: set<TypeId>, t: TypeId, route: seq<string>): seq<Visit>
    decreases Missing(g, seen), 0, 0
  {
    if t in seen || t !in g then []
    else
      EnteringIsProgress(g, seen, t);
      OwnVisits(g[t], route) + VisitedIn(g, seen + {t}, Embeds(g[t]), route)
  }

  function VisitedIn(g: Types, seen: set<TypeId>, es: seq<Embedded>, route: seq<string>): seq<Visit>
    decreases Missing(g, seen), 1, |es|
  {
    if es == [] then []
    else Visited(g, seen, es[0].typ, route + [es[0].name]) + VisitedIn(g, seen, es[1..], route)
  }

  predicate WireClash(fields: seq<Field>) {
    exists i, j :: 0 <= i < j < |fields| && Checked(fields[i]) && Checked(fields[j]) && fields[i].wire == fields[j].wire
  }

  /** Some struct that is entered has two checked fields of one wire name. */
  predicate ClashBelow(g: Types, seen: set<TypeId>, t: TypeId)
    decreases Missing(g, seen), 0, 0
  {
    if t in seen || t !in g then false
    else
      EnteringIsProgress(g, seen, t);
      WireClash(g[t]) || ClashIn(g, seen + {t}, Embeds(g[t]))
  }

  predicate ClashIn(g: Types, seen: set<TypeId>, es: seq<Embedded>)
    decreases Missing(g, seen), 1, |es|
  {
    es != [] && (ClashBelow(g, seen, es[0].typ) || ClashIn(g, seen, es[1..]))
  }

  // ---- What is excluded ----

  /** The walk's two results so far: the paths excluded, and the Go names taken. */
  datatype Decided = Decided(excluded: seq<string>, taken: set<string>)

  function DecideOne(d: Decided, v: Visit): Decided {
    Decided(if v.name in d.taken then d.excluded + [Path(v)] else d.excluded, d.taken + {v.name})
  }

  function Decide(d: Decided, visits: seq<Visit>): Decided {
    if visits == [] then d else DecideOne(Decide(d, visits[..|visits| - 1]), visits[|visits| - 1])
  }

  lemma {:induction false} DecideInTwo(d: Decided, a: seq<Visit>, b: seq<Visit>)
    ensures Decide(d, a + b) == Decide(Decide(d, a), b)
    decreases |b|
  {
    if b == [] {
      assert a + b == a;
    } else {
      assert (a + b)[..|a + b| - 1] == a + b[..|b| - 1];
      DecideInTwo(d, a, b[..|b| - 1]);
    }
  }

  // ---- The walk ----

  class OverrideWalk {
    const g: Types
    var takenGoNames: set<string>
    var seenTypes: set<TypeId>
    var excluded: seq<string>

    constructor (g: Types)
      ensures this.g == g && seenTypes == {} && So() == Decided([], {})
    {
      this.g := g;
      takenGoNames, seenTypes, excluded := {}, {}, [];
    }

    ghost function So(): (d: Decided)
      reads this
    {
      Decided(excluded, takenGoNames)
    }

    /** Fails exactly on a wire clash; otherwise decides every visited field, in order. */
    method Walk(t: TypeId, namespace: string, ghost route: seq<string>) returns (clash: bool)
      requires Closed(g) && t in g && namespace == Dotted(route)
      modifies this
      ensures clash <==> ClashBelow(g, old(seenTypes), t)
      ensures seenTypes == old(seenTypes)
      ensures !clash ==> So() == Decide(old(So()), Visited(g, seenTypes, t, route))
      decreases Missing(g, seenTypes), 0
    {
      if t in seenTypes {
        return false;
      }
      EnteringIsProgress(g, seenTypes, t);
      seenTypes := seenTypes + {t};
      var embeddeds;
      clash, embeddeds := WalkOwn(g[t], namespace, route);
      if !clash {
        EmbedsClosed(g, g[t]);
        clash := WalkEmbedded(embeddeds, namespace, route);
        DecideInTwo(old(So()), OwnVisits(g[t], route), VisitedIn(g, seenTypes, embeddeds, route));
      }
      seenTypes := seenTypes - {t};
      assert seenTypes == old(seenTypes);
    }

    /** The loop over a struct's own fields, and the check for two of them on one wire name. */
    method WalkOwn(fields: seq<Field>, namespace: string, ghost route: seq<string>)
      returns (clash: bool, embeddeds: seq<Embedded>)
      requires namespace == Dotted(route)
      modifies this`takenGoNames, this`excluded
      ensures clash <==> WireClash(fields)
      ensures !clash ==> embeddeds == Embeds(fields) && So() == Decide(old(So()), OwnVisits(fields, route))
    {
      embeddeds := [];
      clash := false;
      var wireNames: map<string, string> := map[];
      for i := 0 to |fields|
        invariant !WireClash(fields[..i])
        invariant WiresOf(wireNames, fields[..i])
        invariant embeddeds == Embeds(fields[..i])
        invariant So() == Decide(old(So()), OwnVisits(fields[..i], route))
      {
        var field := fields[i];
        OneMoreField(fields, i, route, old(So()));
        WireClashGrows(wireNames, fields, i);
        if field.anonymous {
          if field.embeds.Some? {
            embeddeds := embeddeds + [Embedded(field.embeds.value, field.name)];
          }
          continue;
        }
        if !field.exported {
          continue;
        }
        if field.wire in wireNames {
          clash := true;
          return;
        }
        wireNames := wireNames[field.wire := field.name];
        DecideField(field.name, namespace, route);
      }
      assert fields[..|fields|] == fields;
    }

    method DecideField(name: string, namespace: string, ghost route: seq<string>)
      requires namespace == Dotted(route)
      modifies this`takenGoNames, this`excluded
      ensures So() == DecideOne(old(So()), Visit(route, name))
    {
      DottedJoin(route, name);
      if name in takenGoNames {
        excluded := excluded + [Join(namespace, name)];
      }
      takenGoNames := takenGoNames + {name};
    }

    method WalkEmbedded(embeddeds: seq<Embedded>, namespace: string, ghost route: seq<string>) returns (clash: bool)
      requires Closed(g) && namespace == Dotted(route)
      requires forall i :: 0 <= i < |embeddeds| ==> embeddeds[i].typ in g
      modifies this
      ensures clash <==> ClashIn(g, old(seenTypes), embeddeds)
      ensures seenTypes == old(seenTypes)
      ensures !clash ==> So() == Decide(old(So()), VisitedIn(g, seenTypes, embeddeds, route))
      decreases Missing(g, seenTypes), 1
    {
      clash := false;
      for i := 0 to |embeddeds|
        invariant seenTypes == old(seenTypes)
        invariant ClashIn(g, seenTypes, embeddeds[i..]) == ClashIn(g, seenTypes, embeddeds)
        invariant Decide(So(), VisitedIn(g, seenTypes, embeddeds[i..], route))
               == Decide(old(So()), VisitedIn(g, seenTypes, embeddeds, route))
      {
        var e := embeddeds[i];
        assert embeddeds[i..][1..] == embeddeds[i + 1..];
        DottedJoin(route, e.name);
        ghost var before := So();
        clash := Walk(e.typ, Join(namespace, e.name), route + [e.name]);
        if clash {
          return;
        }
        DecideInTwo(before, Visited(g, seenTypes, e.typ, route + [e.name]), VisitedIn(g, seenTypes, embeddeds[i + 1..], route));
      }
    }
  }

  /** The namespaces to leave out of validation, or a wire clash. */
  method OverriddenFields(g: Types, t: TypeId) returns (clash: bool, excluded: seq<string>)
    requires Closed(g) && t in g
    ensures clash <==> ClashBelow(g, {}, t)
    ensures excluded == if clash then [] else Excluded(g, t)
  {
    var w := new OverrideWalk(g);
    clash := w.Walk(t, "", []);
    excluded := if clash then [] else w.excluded;
  }

  lemma DottedJoin(route: seq<string>, name: string)
    ensures Dotted(route + [name]) == Join(Dotted(route), name)
  {
  }

  /** The map of wire names the loop keeps: those of the checked fields so far. */
  ghost predicate WiresOf(wireNames: map<string, string>, fields: seq<Field>) {
    forall w :: w in wireNames <==> HasWire(fields, w)
  }

  predicate HasWire(fields: seq<Field>, wire: string) {
    exists k :: 0 <= k < |fields| && Checked(fields[k]) && fields[k].wire == wire
  }

  lemma OneMoreField(fields: seq<Field>, i: nat, route: seq<string>, d: Decided)
    requires i < |fields|
    ensures OwnVisits(fields[..i + 1], route)
         == if Checked(fields[i]) then OwnVisits(fields[..i], route) + [Visit(route, fields[i].name)]
            else OwnVisits(fields[..i], route)
    ensures Embeds(fields[..i + 1])
         == if fields[i].anonymous && fields[i].embeds.Some?
            then Embeds(fields[..i]) + [Embedded(fields[i].embeds.value, fields[i].name)] else Embeds(fields[..i])
    ensures Checked(fields[i]) ==>
      Decide(d, OwnVisits(fields[..i + 1], route)) == DecideOne(Decide(d, OwnVisits(fields[..i], route)), Visit(route, fields[i].name))
  {
    assert fields[..i + 1][..i] == fields[..i];
    var own := OwnVisits(fields[..i], route);
    var visit := Visit(route, fields[i].name);
    assert (own + [visit])[..|own|] == own;
  }

  lemma WireClashGrows(wireNames: map<string, string>, fields: seq<Field>, i: nat)
    requires i < |fields| && !WireClash(fields[..i]) && WiresOf(wireNames, fields[..i])
    ensures WireClash(fields[..i + 1]) <==> Checked(fields[i]) && fields[i].wire in wireNames
    ensures WireClash(fields[..i + 1]) ==> WireClash(fields)
    ensures WiresOf(if Checked(fields[i]) then wireNames[fields[i].wire := fields[i].name] else wireNames, fields[..i + 1])
  {
  }

  lemma {:induction false} EmbedsClosed(g: Types, fields: seq<Field>)
    requires forall i :: 0 <= i < |fields| && fields[i].embeds.Some? ==> fields[i].embeds.value in g
    ensures forall i :: 0 <= i < |Embeds(fields)| ==> Embeds(fields)[i].typ in g
  {
    if fields != [] {
      EmbedsClosed(g, fields[..|fields| - 1]);
    }
  }

  // ---- Exactly the first of a name is kept ----

  predicate IsName(name: string) {
    name != "" && '.' !in name
  }

  predicate Walked(f: Field) {
    Checked(f) || (f.anonymous && f.embeds.Some?)
  }

  /** The rules of Go for the names in a struct. */
  predicate GoNames(fields: seq<Field>) {
    && (forall i :: 0 <= i < |fields| && Walked(fields[i]) ==> IsName(fields[i].name))
    && forall i, j :: 0 <= i < j < |fields| && Walked(fields[i]) && Walked(fields[j]) ==> fields[i].name != fields[j].name
  }

  ghost predicate GoTypes(g: Types) {
    forall t :: t in g ==> GoNames(g[t])
  }

  predicate SharedBefore(visits: seq<Visit>, i: nat)
    requires i < |visits|
  {
    exists j :: 0 <= j < i && visits[j].name == visits[i].name
  }

  lemma {:induction false} TakenIsVisited(visits: seq<Visit>, name: string)
    ensures name in Decide(Decided([], {}), visits).taken <==> exists i :: 0 <= i < |visits| && visits[i].name == name
  {
    if visits != [] {
      TakenIsVisited(visits[..|visits| - 1], name);
    }
  }

  predicate ExcludedAt(visits: seq<Visit>, path: string, i: nat) {
    i < |visits| && Path(visits[i]) == path && SharedBefore(visits, i)
  }

  lemma SharedBeforeInPrefix(visits: seq<Visit>, n: nat, i: nat)
    requires i < n <= |visits|
    ensures SharedBefore(visits[..n], i) <==> SharedBefore(visits, i)
  {
  }

  /** A path is excluded when a visit of that path shares its name with an earlier one. */
  lemma {:induction false} ExcludedByPath(visits: seq<Visit>, path: string)
    ensures path in Decide(Decided([], {}), visits).excluded <==> exists i: nat :: ExcludedAt(visits, path, i)
  {
    if visits != [] {
      var n := |visits| - 1;
      var before := Decide(Decided([], {}), visits[..n]);
      ExcludedByPath(visits[..n], path);
      TakenIsVisited(visits[..n], visits[n].name);
      forall i: nat | i < n ensures ExcludedAt(visits[..n], path, i) <==> ExcludedAt(visits, path, i) {
        SharedBeforeInPrefix(visits, n, i);
      }
      assert visits[n].name in before.taken <==> SharedBefore(visits, n) by {
        if SharedBefore(visits, n) {
          var j :| 0 <= j < n && visits[j].name == visits[n].name;
          assert visits[..n][j] == visits[j];
        }
      }
      assert ExcludedAt(visits, path, n) <==> Path(visits[n]) == path && SharedBefore(visits, n);
      assert forall i: nat :: ExcludedAt(visits, path, i) ==> i <= n;
    }
  }

  predicate Within(v: Visit, route: seq<string>) {
    route <= v.route && IsName(v.name) && forall k :: |route| <= k < |v.route| ==> IsName(v.route[k])
  }

  predicate NoTwice(visits: seq<Visit>) {
    forall i, j :: 0 <= i < j < |visits| ==> visits[i] != visits[j]
  }

  lemma {:induction false} OwnOnce(fields: seq<Field>, route: seq<string>)
    requires GoNames(fields)
    ensures NoTwice(OwnVisits(fields, route))
    ensures forall v :: v in OwnVisits(fields, route) ==>
      v.route == route && IsName(v.name) && exists i :: 0 <= i < |fields| && Checked(fields[i]) && fields[i].name == v.name
  {
    if fields != [] {
      OwnOnce(fields[..|fields| - 1], route);
    }
  }

  predicate EmbeddedNames(es: seq<Embedded>) {
    && (forall i :: 0 <= i < |es| ==> IsName(es[i].name))
    && forall i, j :: 0 <= i < j < |es| ==> es[i].name != es[j].name
  }

  lemma {:induction false} EmbedsOnce(fields: seq<Field>)
    requires GoNames(fields)
    ensures EmbeddedNames(Embeds(fields))
    ensures forall e :: e in Embeds(fields) ==>
      exists i :: 0 <= i < |fields| && Walked(fields[i]) && fields[i].name == e.name
  {
    if fields != [] {
      EmbedsOnce(fields[..|fields| - 1]);
    }
  }

  /** No field is visited twice over one route. */
  lemma {:induction false} VisitedOnce(g: Types, seen: set<TypeId>, t: TypeId, route: seq<string>)
    requires GoTypes(g)
    ensures NoTwice(Visited(g, seen, t, route))
    ensures forall v :: v in Visited(g, seen, t, route) ==> Within(v, route)
    decreases Missing(g, seen), 0, 0
  {
    if t !in seen && t in g {
      EnteringIsProgress(g, seen, t);
      OwnOnce(g[t], route);
      EmbedsOnce(g[t]);
      VisitedInOnce(g, seen + {t}, Embeds(g[t]), route);
    }
  }

  lemma {:induction false} VisitedInOnce(g: Types, seen: set<TypeId>, es: seq<Embedded>, route: seq<string>)
    requires GoTypes(g) && EmbeddedNames(es)
    ensures NoTwice(VisitedIn(g, seen, es, route))
    ensures forall v :: v in VisitedIn(g, seen, es, route) ==>
      Within(v, route) && |v.route| > |route| && exists i :: 0 <= i < |es| && v.route[|route|] == es[i].name
    decreases Missing(g, seen), 1, |es|
  {
    if es != [] {
      var below := route + [es[0].name];
      var first, rest := Visited(g, seen, es[0].typ, below), VisitedIn(g, seen, es[1..], route);
      VisitedOnce(g, seen, es[0].typ, below);
      VisitedInOnce(g, seen, es[1..], route);
      forall v | v in first ensures Within(v, route) && |v.route| > |route| && v.route[|route|] == es[0].name {
        assert v.route[|route|] == below[|route|];
        assert route <= below;
      }
      forall v | v in rest ensures v.route[|route|] != es[0].name && exists i :: 0 <= i < |es| && v.route[|route|] == es[i].name {
        var i :| 0 <= i < |es[1..]| && v.route[|route|] == es[1..][i].name;
        assert es[1..][i] == es[i + 1];
      }
    }
  }

  predicate AreNames(route: seq<string>) {
    forall k :: 0 <= k < |route| ==> IsName(route[k])
  }

  lemma OnlyEmptyIsEmpty(a: seq<string>)
    requires AreNames(a)
    ensures Dotted(a) == "" <==> a == []
  {
  }

  /** A path of names neither begins nor ends with a dot. */
  lemma {:induction false} DotsOnlyBetween(route: seq<string>)
    requires AreNames(route) && route != []
    ensures var path := Dotted(route); path != "" && path[0] != '.' && path[|path| - 1] != '.'
  {
    var n := |route| - 1;
    OnlyEmptyIsEmpty(route[..n]);
    if n > 0 {
      DotsOnlyBetween(route[..n]);
    }
  }

  lemma {:induction false} DottedIsInjective(a: seq<string>, b: seq<string>)
    requires AreNames(a) && AreNames(b) && Dotted(a) == Dotted(b)
    ensures a == b
  {
    OnlyEmptyIsEmpty(a);
    OnlyEmptyIsEmpty(b);
    if a != [] {
      var m, n := |a| - 1, |b| - 1;
      LastName(Dotted(a[..m]), a[m], Dotted(b[..n]), b[n]);
      DottedIsInjective(a[..m], b[..n]);
      assert a == a[..m] + [a[m]] && b == b[..n] + [b[n]];
    }
  }

  lemma LastName(s: string, x: string, t: string, y: string)
    requires IsName(x) && IsName(y) && Join(s, x) == Join(t, y)
    ensures s == t && x == y
  {
    var whole := Join(s, x);
    assert forall i :: |whole| - |x| <= i < |whole| ==> whole[i] == x[i - (|whole| - |x|)] && whole[i] != '.';
    assert forall i :: |whole| - |y| <= i < |whole| ==> whole[i] == y[i - (|whole| - |y|)] && whole[i] != '.';
    assert s != "" ==> whole[|s|] == '.';
    assert t != "" ==> whole[|t|] == '.';
    assert |x| == |y|;
    assert x == whole[|whole| - |x|..] && y == whole[|whole| - |y|..];
    assert s != "" ==> s == whole[..|s|];
    assert t != "" ==> t == whole[..|t|];
  }

  /**
   Of all visited fields that share a Go name exactly the first is kept, and every later one is excluded
   under its own full path, whatever the types embed, themselves included.
   */
  lemma FirstOfANameIsKept(g: Types, t: TypeId, i: nat)
    requires GoTypes(g) && i < |Visited(g, {}, t, [])|
    ensures var visits := Visited(g, {}, t, []);
      Path(visits[i]) in Decide(Decided([], {}), visits).excluded <==> SharedBefore(visits, i)
  {
    var visits := Visited(g, {}, t, []);
    ExcludedByPath(visits, Path(visits[i]));
    VisitedOnce(g, {}, t, []);
    assert SharedBefore(visits, i) ==> ExcludedAt(visits, Path(visits[i]), i);
    forall k: nat | ExcludedAt(visits, Path(visits[i]), k) ensures k == i {
      assert visits[k] in visits && visits[i] in visits;
      assert Within(visits[k], []) && Within(visits[i], []);
      var a, b := visits[k].route + [visits[k].name], visits[i].route + [visits[i].name];
      DottedIsInjective(a, b);
      assert visits[k].route == a[..|a| - 1] && visits[i].route == b[..|b| - 1];
      assert visits[k].name == a[|a| - 1] && visits[i].name == b[|b| - 1];
    }
  }

  /** Nothing else is excluded. */
  lemma OnlyLaterOnesAreExcluded(g: Types, t: TypeId, path: string)
    requires path in Decide(Decided([], {}), Visited(g, {}, t, [])).excluded
    ensures var visits := Visited(g, {}, t, []);
      exists i: nat :: ExcludedAt(visits, path, i)
  {
    ExcludedByPath(Visited(g, {}, t, []), path);
  }

  // ---- Which fields are visited, and in which order ----

  predicate IsEmbed(f: Field) {
    f.anonymous && f.embeds.Some?
  }

  predicate HasOwn(fields: seq<Field>, name: string) {
    exists i :: 0 <= i < |fields| && Checked(fields[i]) && fields[i].name == name
  }

  /** The embedding fields named by the route lead from `t`, over no type twice, to a struct with such a field. */
  predicate Reaches(g: Types, seen: set<TypeId>, t: TypeId, route: seq<string>, name: string)
    decreases |route|
  {
    && t !in seen && t in g
    && if route == [] then HasOwn(g[t], name)
       else exists i :: 0 <= i < |g[t]| && LeadsOn(g, seen + {t}, g[t][i], route, name)
  }

  predicate LeadsOn(g: Types, seen: set<TypeId>, f: Field, route: seq<string>, name: string)
    requires route != []
    decreases |route|, 0
  {
    IsEmbed(f) && f.name == route[0] && Reaches(g, seen, f.embeds.value, route[1..], name)
  }

  lemma {:induction false} OwnVisited(fields: seq<Field>, route: seq<string>, v: Visit)
    ensures v in OwnVisits(fields, route) <==> v.route == route && HasOwn(fields, v.name)
  {
    if fields != [] {
      OwnVisited(fields[..|fields| - 1], route, v);
      assert HasOwn(fields, v.name) <==>
        HasOwn(fields[..|fields| - 1], v.name)
        || (Checked(fields[|fields| - 1]) && fields[|fields| - 1].name == v.name);
    }
  }

  predicate Is(f: Field, e: Embedded) {
    IsEmbed(f) && e == Embedded(f.embeds.value, f.name)
  }

  predicate EmbeddedBy(fields: seq<Field>, e: Embedded) {
    exists i :: 0 <= i < |fields| && Is(fields[i], e)
  }

  lemma EmbeddedByOneMore(fields: seq<Field>, e: Embedded)
    requires fields != []
    ensures EmbeddedBy(fields, e) <==> EmbeddedBy(fields[..|fields| - 1], e) || Is(fields[|fields| - 1], e)
  {
    if EmbeddedBy(fields[..|fields| - 1], e) {
      var i :| 0 <= i < |fields| - 1 && Is(fields[..|fields| - 1][i], e);
      assert Is(fields[i], e);
    }
    if EmbeddedBy(fields, e) {
      var i :| 0 <= i < |fields| && Is(fields[i], e);
      assert i < |fields| - 1 ==> Is(fields[..|fields| - 1][i], e);
    }
  }

  lemma {:induction false} EmbedsFields(fields: seq<Field>, e: Embedded)
    ensures e in Embeds(fields) <==> EmbeddedBy(fields, e)
  {
    if fields != [] {
      EmbedsFields(fields[..|fields| - 1], e);
      EmbeddedByOneMore(fields, e);
    }
  }

  /** A field below `base` is visited exactly when some route leads to it. */
  lemma {:induction false} VisitedIsReached(g: Types, seen: set<TypeId>, t: TypeId, base: seq<string>, v: Visit)
    ensures v in Visited(g, seen, t, base) <==>
      base <= v.route && Reaches(g, seen, t, v.route[|base|..], v.name)
    decreases Missing(g, seen), 0, 0
  {
    if t !in seen && t in g {
      EnteringIsProgress(g, seen, t);
      OwnVisited(g[t], base, v);
      VisitedInIsReached(g, seen + {t}, Embeds(g[t]), base, v);
      if base <= v.route && v.route != base {
        EmbedLeadsOn(g, seen + {t}, g[t], v.route[|base|..], v.name);
      }
    }
  }

  predicate LeadsInto(g: Types, seen: set<TypeId>, e: Embedded, route: seq<string>, name: string) {
    route != [] && e.name == route[0] && Reaches(g, seen, e.typ, route[1..], name)
  }

  lemma EmbedLeadsOn(g: Types, seen: set<TypeId>, fields: seq<Field>, route: seq<string>, name: string)
    requires route != []
    ensures (exists e :: e in Embeds(fields) && LeadsInto(g, seen, e, route, name)) <==>
      exists i :: 0 <= i < |fields| && LeadsOn(g, seen, fields[i], route, name)
  {
    forall e ensures e in Embeds(fields) <==> EmbeddedBy(fields, e) {
      EmbedsFields(fields, e);
    }
    if exists i :: 0 <= i < |fields| && LeadsOn(g, seen, fields[i], route, name) {
      var i :| 0 <= i < |fields| && LeadsOn(g, seen, fields[i], route, name);
      var e := Embedded(fields[i].embeds.value, fields[i].name);
      assert Is(fields[i], e);
      assert e in Embeds(fields) && LeadsInto(g, seen, e, route, name);
    }
  }

  lemma {:induction false} VisitedInIsReached(g: Types, seen: set<TypeId>, es: seq<Embedded>, base: seq<string>, v: Visit)
    ensures v in VisitedIn(g, seen, es, base) <==>
      base <= v.route && exists e :: e in es && LeadsInto(g, seen, e, v.route[|base|..], v.name)
    decreases Missing(g, seen), 1, |es|
  {
    if es != [] {
      var below := base + [es[0].name];
      VisitedIsReached(g, seen, es[0].typ, below, v);
      VisitedInIsReached(g, seen, es[1..], base, v);
      assert below <= v.route <==> base <= v.route && |v.route| > |base| && v.route[|base|] == es[0].name;
      if base <= v.route {
        var route := v.route[|base|..];
        assert below <= v.route ==> route[1..] == v.route[|below|..];
        assert LeadsInto(g, seen, es[0], route, v.name) <==>
          below <= v.route && Reaches(g, seen, es[0].typ, v.route[|below|..], v.name);
        assert forall e :: e in es <==> e == es[0] || e in es[1..];
      }
    }
  }

  predicate PlacedBefore(fields: seq<Field>, x: string, y: string) {
    exists i, j :: 0 <= i < j < |fields| && Walked(fields[i]) && Walked(fields[j])
                   && fields[i].name == x && fields[j].name == y
  }

  /**
   The order of two fields below `t`, each named by the embedding fields that lead to it and its own name: a struct's
   own fields come before what it embeds, and otherwise the struct's own order decides where the two part.
   */
  predicate Precedes(g: Types, t: TypeId, a: seq<string>, b: seq<string>)
    decreases |a|
  {
    && t in g && a != [] && b != []
    && if |a| == 1 && |b| > 1 then true
       else if |a| > 1 && |b| == 1 then false
       else if |a| > 1 && a[0] == b[0] then
         exists i :: 0 <= i < |g[t]| && IsEmbed(g[t][i]) && g[t][i].name == a[0]
                     && Precedes(g, g[t][i].embeds.value, a[1..], b[1..])
       else PlacedBefore(g[t], a[0], b[0])
  }

  lemma PlacedOneWay(fields: seq<Field>, x: string, y: string)
    requires GoNames(fields) && PlacedBefore(fields, x, y)
    ensures !PlacedBefore(fields, y, x)
  {
    var i, j :| 0 <= i < j < |fields| && Walked(fields[i]) && Walked(fields[j])
                && fields[i].name == x && fields[j].name == y;
    assert forall k :: 0 <= k < |fields| && Walked(fields[k]) && fields[k].name == x ==> k == i;
    assert forall k :: 0 <= k < |fields| && Walked(fields[k]) && fields[k].name == y ==> k == j;
  }

  lemma {:induction false} PrecedesOneWay(g: Types, t: TypeId, a: seq<string>, b: seq<string>)
    requires GoTypes(g) && Precedes(g, t, a, b)
    ensures !Precedes(g, t, b, a)
    decreases |a|
  {
    if |a| > 1 && |b| > 1 && a[0] == b[0] {
      var i :| 0 <= i < |g[t]| && IsEmbed(g[t][i]) && g[t][i].name == a[0]
               && Precedes(g, g[t][i].embeds.value, a[1..], b[1..]);
      PrecedesOneWay(g, g[t][i].embeds.value, a[1..], b[1..]);
      assert Walked(g[t][i]);
      assert forall j :: 0 <= j < |g[t]| && IsEmbed(g[t][j]) && g[t][j].name == b[0] ==> Walked(g[t][j]) && j == i;
    } else if |a| > 1 || |b| == 1 {
      PlacedOneWay(g[t], a[0], b[0]);
    }
  }

  // Fields in a list of visits, each as its path below `base`.
  function Below(base: seq<string>, v: Visit): seq<string>
    requires base <= v.route
  {
    v.route[|base|..] + [v.name]
  }

  ghost predicate InOrder(g: Types, t: TypeId, base: seq<string>, visits: seq<Visit>) {
    forall i, j :: 0 <= i < j < |visits| ==>
      && base <= visits[i].route && base <= visits[j].route
      && Precedes(g, t, Below(base, visits[i]), Below(base, visits[j]))
  }

  ghost predicate NamesInOrder(fields: seq<Field>, names: seq<string>) {
    forall i, j :: 0 <= i < j < |names| ==> PlacedBefore(fields, names[i], names[j])
  }

  function OwnNames(visits: seq<Visit>): seq<string> {
    seq(|visits|, i requires 0 <= i < |visits| => visits[i].name)
  }

  function EmbeddedNamesOf(es: seq<Embedded>): seq<string> {
    seq(|es|, i requires 0 <= i < |es| => es[i].name)
  }

  /** One more field goes behind all that are in order before it. */
  lemma OneMoreInOrder(fields: seq<Field>, names: seq<string>)
    requires fields != [] && NamesInOrder(fields[..|fields| - 1], names) && Walked(fields[|fields| - 1])
    requires forall k :: 0 <= k < |names| ==> HasWalked(fields[..|fields| - 1], names[k])
    ensures NamesInOrder(fields, names + [fields[|fields| - 1].name])
  {
    var n := |fields| - 1;
    PlacedStays(fields);
    var more := names + [fields[n].name];
    forall i, j | 0 <= i < j < |more| ensures PlacedBefore(fields, more[i], more[j]) {
      if j < |names| {
        assert PlacedBefore(fields[..n], names[i], names[j]);
      } else {
        assert HasWalked(fields[..n], names[i]);
        var k :| 0 <= k < n && Walked(fields[..n][k]) && fields[..n][k].name == names[i];
        assert fields[k] == fields[..n][k];
        Placed(fields, k, n);
      }
    }
  }

  predicate HasWalked(fields: seq<Field>, name: string) {
    exists i :: 0 <= i < |fields| && Walked(fields[i]) && fields[i].name == name
  }

  lemma {:induction false} OwnInOrder(fields: seq<Field>, route: seq<string>)
    ensures NamesInOrder(fields, OwnNames(OwnVisits(fields, route)))
  {
    if fields != [] {
      var n := |fields| - 1;
      var names := OwnNames(OwnVisits(fields[..n], route));
      OwnInOrder(fields[..n], route);
      PlacedStays(fields);
      if Checked(fields[n]) {
        forall k | 0 <= k < |names| ensures HasWalked(fields[..n], names[k]) {
          OwnVisited(fields[..n], route, OwnVisits(fields[..n], route)[k]);
        }
        OneMoreInOrder(fields, names);
        assert OwnNames(OwnVisits(fields, route)) == names + [fields[n].name];
      } else {
        assert OwnVisits(fields, route) == OwnVisits(fields[..n], route);
      }
    }
  }

  lemma Placed(fields: seq<Field>, i: nat, j: nat)
    requires i < j < |fields| && Walked(fields[i]) && Walked(fields[j])
    ensures PlacedBefore(fields, fields[i].name, fields[j].name)
  {
  }

  lemma PlacedStays(fields: seq<Field>)
    requires fields != []
    ensures forall x, y :: PlacedBefore(fields[..|fields| - 1], x, y) ==> PlacedBefore(fields, x, y)
  {
    var front := fields[..|fields| - 1];
    forall x, y | PlacedBefore(front, x, y) ensures PlacedBefore(fields, x, y) {
      var i, j :| 0 <= i < j < |front| && Walked(front[i]) && Walked(front[j]) && front[i].name == x && front[j].name == y;
      assert fields[i] == front[i] && fields[j] == front[j];
    }
  }

  lemma {:induction false} EmbedsInOrder(fields: seq<Field>)
    ensures NamesInOrder(fields, EmbeddedNamesOf(Embeds(fields)))
  {
    if fields != [] {
      var n := |fields| - 1;
      var names := EmbeddedNamesOf(Embeds(fields[..n]));
      EmbedsInOrder(fields[..n]);
      PlacedStays(fields);
      if IsEmbed(fields[n]) {
        forall k | 0 <= k < |names| ensures HasWalked(fields[..n], names[k]) {
          EmbedsFields(fields[..n], Embeds(fields[..n])[k]);
        }
        OneMoreInOrder(fields, names);
        assert EmbeddedNamesOf(Embeds(fields)) == names + [fields[n].name];
      } else {
        assert Embeds(fields) == Embeds(fields[..n]);
      }
    }
  }

  /** The walk visits fields in the order of their structs. */
  lemma {:induction false} VisitedInOrder(g: Types, seen: set<TypeId>, t: TypeId, base: seq<string>)
    requires GoTypes(g)
    ensures InOrder(g, t, base, Visited(g, seen, t, base))
    decreases Missing(g, seen), 0, 0
  {
    if t !in seen && t in g {
      EnteringIsProgress(g, seen, t);
      OwnInOrder(g[t], base);
      EmbedsInOrder(g[t]);
      forall e ensures e in Embeds(g[t]) <==> EmbeddedBy(g[t], e) {
        EmbedsFields(g[t], e);
      }
      VisitedInInOrder(g, seen + {t}, t, Embeds(g[t]), base);
      var own, below := OwnVisits(g[t], base), VisitedIn(g, seen + {t}, Embeds(g[t]), base);
      forall v | v in own ensures v.route == base {
        OwnVisited(g[t], base, v);
      }
      OwnThenBelow(g, t, base, own, below, Embeds(g[t]));
    }
  }

  lemma OwnThenBelow(g: Types, t: TypeId, base: seq<string>, own: seq<Visit>, below: seq<Visit>, es: seq<Embedded>)
    requires t in g && NamesInOrder(g[t], OwnNames(own)) && forall v :: v in own ==> v.route == base
    requires InOrder(g, t, base, below) && Through(es, base, below)
    ensures InOrder(g, t, base, own + below)
  {
    var visits, names := own + below, OwnNames(own);
    forall i, j | 0 <= i < j < |visits|
      ensures base <= visits[i].route && base <= visits[j].route
      ensures Precedes(g, t, Below(base, visits[i]), Below(base, visits[j]))
    {
      if j < |own| {
        assert visits[i] in own && visits[j] in own;
        assert PlacedBefore(g[t], names[i], names[j]);
      } else if i < |own| {
        assert visits[i] in own && visits[j] == below[j - |own|] && visits[j] in below;
      } else {
        assert visits[i] == below[i - |own|] && visits[j] == below[j - |own|];
      }
    }
  }

  /** Every visit goes on through one of these embedding fields. */
  ghost predicate Through(es: seq<Embedded>, base: seq<string>, visits: seq<Visit>) {
    forall v :: v in visits ==>
      base <= v.route && |v.route| > |base| && exists k :: 0 <= k < |es| && es[k].name == v.route[|base|]
  }

  /** What the embedded structs contribute: each behind its embedding field, and they in their own order. */
  lemma {:induction false} VisitedInInOrder(g: Types, seen: set<TypeId>, t: TypeId, es: seq<Embedded>, base: seq<string>)
    requires GoTypes(g) && t in g && forall k :: 0 <= k < |es| ==> EmbeddedBy(g[t], es[k])
    requires NamesInOrder(g[t], EmbeddedNamesOf(es))
    ensures InOrder(g, t, base, VisitedIn(g, seen, es, base)) && Through(es, base, VisitedIn(g, seen, es, base))
    decreases Missing(g, seen), 1, |es|
  {
    if es != [] {
      var under := base + [es[0].name];
      var first, rest := Visited(g, seen, es[0].typ, under), VisitedIn(g, seen, es[1..], base);
      var names := EmbeddedNamesOf(es);
      assert EmbeddedNamesOf(es[1..]) == names[1..];
      assert NamesInOrder(g[t], names[1..]) by {
        assert forall i :: 0 <= i < |names| - 1 ==> names[1..][i] == names[i + 1];
      }
      VisitedInOrder(g, seen, es[0].typ, under);
      VisitedInInOrder(g, seen, t, es[1..], base);
      forall v | v in first ensures under <= v.route {
        VisitedIsReached(g, seen, es[0].typ, under, v);
      }
      FirstInOrder(g, t, es[0], base, first);
      forall j | 0 < j < |es| ensures PlacedBefore(g[t], es[0].name, es[j].name) {
        assert PlacedBefore(g[t], names[0], names[j]);
      }
      FirstThenRest(g, t, es, base, first, rest);
    }
  }

  lemma FirstThenRest(g: Types, t: TypeId, es: seq<Embedded>, base: seq<string>, first: seq<Visit>, rest: seq<Visit>)
    requires t in g && GoNames(g[t]) && es != []
    requires forall j :: 0 < j < |es| ==> PlacedBefore(g[t], es[0].name, es[j].name)
    requires InOrder(g, t, base, first) && InOrder(g, t, base, rest) && Through(es[1..], base, rest)
    requires forall v :: v in first ==> base + [es[0].name] <= v.route
    ensures InOrder(g, t, base, first + rest) && Through(es, base, first + rest)
  {
    var visits := first + rest;
    forall v | v in rest
      ensures exists k :: 0 < k < |es| && es[k].name == v.route[|base|]
    {
      var k :| 0 <= k < |es[1..]| && es[1..][k].name == v.route[|base|];
      assert es[k + 1] == es[1..][k];
    }
    forall v | v in first ensures base <= v.route && |v.route| > |base| && v.route[|base|] == es[0].name {
      assert v.route[|base|] == (base + [es[0].name])[|base|];
    }
    forall i, j | 0 <= i < j < |visits|
      ensures base <= visits[i].route && base <= visits[j].route
      ensures Precedes(g, t, Below(base, visits[i]), Below(base, visits[j]))
    {
      if i >= |first| {
        assert visits[i] == rest[i - |first|] && visits[j] == rest[j - |first|];
      } else if j < |first| {
        assert visits[i] == first[i] && visits[j] == first[j];
      } else {
        assert visits[i] in first && visits[j] == rest[j - |first|] && visits[j] in rest;
        var k :| 0 < k < |es| && es[k].name == visits[j].route[|base|];
        assert PlacedBefore(g[t], es[0].name, es[k].name);
        if es[k].name == es[0].name {
          PlacedOneWay(g[t], es[0].name, es[k].name);
        }
        OneWayOrOther(g, t, Below(base, visits[i]), Below(base, visits[j]));
      }
    }
  }

  /** Where two paths part, the struct's own order decides. */
  lemma OneWayOrOther(g: Types, t: TypeId, a: seq<string>, b: seq<string>)
    requires t in g && |a| > 1 && |b| > 1 && a[0] != b[0] && PlacedBefore(g[t], a[0], b[0])
    ensures Precedes(g, t, a, b)
  {
  }

  /** In order below an embedding field is in order below its struct. */
  lemma FirstInOrder(g: Types, t: TypeId, e: Embedded, base: seq<string>, visits: seq<Visit>)
    requires t in g && EmbeddedBy(g[t], e) && InOrder(g, e.typ, base + [e.name], visits)
    requires forall v :: v in visits ==> base + [e.name] <= v.route
    ensures InOrder(g, t, base, visits)
  {
    var under := base + [e.name];
    forall i, j | 0 <= i < j < |visits|
      ensures base <= visits[i].route && base <= visits[j].route
      ensures Precedes(g, t, Below(base, visits[i]), Below(base, visits[j]))
    {
      var a, b := Below(under, visits[i]), Below(under, visits[j]);
      assert Below(base, visits[i]) == [e.name] + a && Below(base, visits[j]) == [e.name] + b;
      assert ([e.name] + a)[1..] == a && ([e.name] + b)[1..] == b;
      assert Precedes(g, e.typ, a, b);
      var k :| 0 <= k < |g[t]| && Is(g[t][k], e);
      assert IsEmbed(g[t][k]) && g[t][k].name == ([e.name] + a)[0];
    }
  }

  function Excluded(g: Types, t: TypeId): seq<string> {
    Decide(Decided([], {}), Visited(g, {}, t, [])).excluded
  }

  /** A field of the same name is reached before this one. */
  ghost predicate Shadowed(g: Types, t: TypeId, route: seq<string>, name: string) {
    exists other: seq<string> :: Reaches(g, {}, t, other, name) && Precedes(g, t, other + [name], route + [name])
  }

  lemma ReachedIsVisited(g: Types, t: TypeId, route: seq<string>, name: string) returns (i: nat)
    requires Reaches(g, {}, t, route, name)
    ensures i < |Visited(g, {}, t, [])| && Visited(g, {}, t, [])[i] == Visit(route, name)
    ensures Below([], Visit(route, name)) == route + [name]
  {
    var visits := Visited(g, {}, t, []);
    VisitedIsReached(g, {}, t, [], Visit(route, name));
    i :| 0 <= i < |visits| && visits[i] == Visit(route, name);
  }

  /**
   Of the fields a struct reaches, through whatever it embeds and over no type twice, exactly those are excluded that
   a field of the same name precedes, by the structs' own order.
   */
  lemma ExcludedExactly(g: Types, t: TypeId, route: seq<string>, name: string)
    requires GoTypes(g) && Reaches(g, {}, t, route, name)
    ensures Dotted(route + [name]) in Excluded(g, t) <==> Shadowed(g, t, route, name)
  {
    var visits := Visited(g, {}, t, []);
    var i := ReachedIsVisited(g, t, route, name);
    FirstOfANameIsKept(g, t, i);
    if SharedBefore(visits, i) {
      EarlierShadows(g, t, i);
    }
    if Shadowed(g, t, route, name) {
      ShadowingIsEarlier(g, t, i);
    }
  }

  lemma EarlierShadows(g: Types, t: TypeId, i: nat)
    requires GoTypes(g) && i < |Visited(g, {}, t, [])| && SharedBefore(Visited(g, {}, t, []), i)
    ensures var v := Visited(g, {}, t, [])[i]; Shadowed(g, t, v.route, v.name)
  {
    var visits := Visited(g, {}, t, []);
    VisitedInOrder(g, {}, t, []);
    var j :| 0 <= j < i && visits[j].name == visits[i].name;
    VisitedIsReached(g, {}, t, [], visits[j]);
    assert Below([], visits[j]) == visits[j].route + [visits[i].name];
    assert Below([], visits[i]) == visits[i].route + [visits[i].name];
    assert Reaches(g, {}, t, visits[j].route, visits[i].name);
  }

  lemma ShadowingIsEarlier(g: Types, t: TypeId, i: nat)
    requires GoTypes(g) && i < |Visited(g, {}, t, [])|
    requires var v := Visited(g, {}, t, [])[i]; Shadowed(g, t, v.route, v.name)
    ensures SharedBefore(Visited(g, {}, t, []), i)
  {
    var visits := Visited(g, {}, t, []);
    var v := visits[i];
    VisitedInOrder(g, {}, t, []);
    var other: seq<string> :| Reaches(g, {}, t, other, v.name) && Precedes(g, t, other + [v.name], v.route + [v.name]);
    var j := ReachedIsVisited(g, t, other, v.name);
    PrecedesOneWay(g, t, other + [v.name], v.route + [v.name]);
    assert Below([], visits[i]) == v.route + [v.name];
  }

  // ---- When the walk fails ----

  /** The embedding fields named by the route lead from `t`, over no type twice, to the struct `u`. */
  predicate Enters(g: Types, seen: set<TypeId>, t: TypeId, route: seq<string>, u: TypeId)
    decreases |route|
  {
    && t !in seen && t in g
    && if route == [] then u == t
       else exists e :: e in Embeds(g[t]) && EntersBy(g, seen + {t}, e, route, u)
  }

  predicate EntersBy(g: Types, seen: set<TypeId>, e: Embedded, route: seq<string>, u: TypeId)
    requires route != []
    decreases |route|, 0
  {
    e.name == route[0] && Enters(g, seen, e.typ, route[1..], u)
  }

  predicate ClashAt(g: Types, seen: set<TypeId>, t: TypeId, route: seq<string>, u: TypeId) {
    Enters(g, seen, t, route, u) && u in g && WireClash(g[u])
  }

  /** A struct that the walk enters has two checked fields of one wire name. */
  ghost predicate ClashEntered(g: Types, seen: set<TypeId>, t: TypeId) {
    exists route, u :: ClashAt(g, seen, t, route, u)
  }

  /** The walk fails exactly when some struct on the way has such a clash, however deep. */
  lemma {:induction false} ClashExactly(g: Types, seen: set<TypeId>, t: TypeId)
    ensures ClashBelow(g, seen, t) <==> ClashEntered(g, seen, t)
    decreases Missing(g, seen), 0, 0
  {
    if t !in seen && t in g {
      EnteringIsProgress(g, seen, t);
      ClashInExactly(g, seen + {t}, Embeds(g[t]));
      if ClashEntered(g, seen, t) {
        EnteredHereOrBelow(g, seen, t);
      }
      if WireClash(g[t]) || ClashInSome(g, seen + {t}, Embeds(g[t])) {
        HereOrBelowIsEntered(g, seen, t);
      }
    }
  }

  ghost predicate ClashInSome(g: Types, seen: set<TypeId>, es: seq<Embedded>) {
    exists k :: 0 <= k < |es| && ClashEntered(g, seen, es[k].typ)
  }

  lemma EnteredHereOrBelow(g: Types, seen: set<TypeId>, t: TypeId)
    requires t !in seen && t in g && ClashEntered(g, seen, t)
    ensures WireClash(g[t]) || ClashInSome(g, seen + {t}, Embeds(g[t]))
  {
    var es := Embeds(g[t]);
    var route, u :| ClashAt(g, seen, t, route, u);
    if route != [] {
      var e :| e in es && EntersBy(g, seen + {t}, e, route, u);
      var k :| 0 <= k < |es| && es[k] == e;
      assert ClashAt(g, seen + {t}, es[k].typ, route[1..], u);
      assert ClashEntered(g, seen + {t}, es[k].typ);
    }
  }

  lemma HereOrBelowIsEntered(g: Types, seen: set<TypeId>, t: TypeId)
    requires t !in seen && t in g && (WireClash(g[t]) || ClashInSome(g, seen + {t}, Embeds(g[t])))
    ensures ClashEntered(g, seen, t)
  {
    var es := Embeds(g[t]);
    if WireClash(g[t]) {
      assert ClashAt(g, seen, t, [], t);
    } else {
      var k :| 0 <= k < |es| && ClashEntered(g, seen + {t}, es[k].typ);
      var route, u :| ClashAt(g, seen + {t}, es[k].typ, route, u);
      EnteredByRoute(g, seen, t, es[k], route, u);
    }
  }

  lemma EnteredByRoute(g: Types, seen: set<TypeId>, t: TypeId, e: Embedded, route: seq<string>, u: TypeId)
    requires t !in seen && t in g && e in Embeds(g[t]) && ClashAt(g, seen + {t}, e.typ, route, u)
    ensures ClashAt(g, seen, t, [e.name] + route, u)
  {
    assert ([e.name] + route)[1..] == route;
    assert EntersBy(g, seen + {t}, e, [e.name] + route, u);
  }

  lemma {:induction false} ClashInExactly(g: Types, seen: set<TypeId>, es: seq<Embedded>)
    ensures ClashIn(g, seen, es) <==> ClashInSome(g, seen, es)
    decreases Missing(g, seen), 1, |es|
  {
    if es != [] {
      ClashExactly(g, seen, es[0].typ);
      ClashInExactly(g, seen, es[1..]);
      assert forall k :: 0 < k < |es| ==> es[k] == es[1..][k - 1];
    }
  }
}
