/**
 The one-pass nesting check over a JSON body, against the nesting of the JSON value it spells.

 A value here is a spelling in full: sections 4, 5 and 7 of RFC 8259, white space wherever section 2
 allows it and every way of escaping a character. The literal names of section 3 and the numbers of
 section 6 are runs of bytes none of which is a bracket, a quote or a backslash.
 */
module JsonDepth {
  type Byte = b: nat | b < 256

  const MAX_JSON_DEPTH := 32

  const QUOTE: Byte := 0x22
  const BACKSLASH: Byte := 0x5C
  const OPEN_BRACKET: Byte := 0x5B
  const CLOSE_BRACKET: Byte := 0x5D
  const OPEN_BRACE: Byte := 0x7B
  const CLOSE_BRACE: Byte := 0x7D
  const COMMA: Byte := 0x2C
  const COLON: Byte := 0x3A
  const LETTER_U: Byte := 0x75

  // ---- The scanner ----

  datatype Scan = At(depth: int, inString: bool, escape: bool) | Refused

  function StepOver(s: Scan, c: Byte): Scan {
    if s.Refused? then Refused
    else if s.escape then s.(escape := false)
    else if c == BACKSLASH then s.(escape := true)
    else if c == QUOTE then s.(inString := !s.inString)
    else if s.inString then s
    else if c == OPEN_BRACE || c == OPEN_BRACKET then
      if s.depth + 1 > MAX_JSON_DEPTH then Refused else s.(depth := s.depth + 1)
    else if c == CLOSE_BRACE || c == CLOSE_BRACKET then s.(depth := s.depth - 1)
    else s
  }

  function ScanFrom(s: Scan, body: seq<Byte>): Scan
    decreases |body|
  {
    if body == [] then s else ScanFrom(StepOver(s, body[0]), body[1..])
  }

  function Outside(depth: int): Scan {
    At(depth, false, false)
  }

  method CheckJSONDepth(body: array<Byte>) returns (accepted: bool)
    ensures accepted <==> ScanFrom(Outside(0), body[..]) != Refused
    ensures forall v :: Spells(body[..], v) ==> (accepted <==> Depth(v) <= 32)
  {
    forall v | Spells(body[..], v) ensures ScanFrom(Outside(0), body[..]) != Refused <==> Depth(v) <= 32 {
      var before, after :| Whitespace(before) && Whitespace(after) && body[..] == before + Spell(v) + after;
      AcceptedExactlyByNesting(before, v, after);
    }
    var depth, inString, escape := 0, false, false;
    for i := 0 to body.Length
      invariant ScanFrom(At(depth, inString, escape), body[i..]) == ScanFrom(Outside(0), body[..])
    {
      var c := body[i];
      assert body[i..][1..] == body[i + 1..];
      if escape {
        escape := false;
        continue;
      }
      if c == BACKSLASH {
        escape := true;
        continue;
      }
      if c == QUOTE {
        inString := !inString;
        continue;
      }
      if !inString {
        if c == OPEN_BRACE || c == OPEN_BRACKET {
          depth := depth + 1;
          if depth > MAX_JSON_DEPTH {
            RefusedForGood(body[i + 1..]);
            return false;
          }
        } else if c == CLOSE_BRACE || c == CLOSE_BRACKET {
          depth := depth - 1;
        }
      }
    }
    return true;
  }

  lemma {:induction false} RefusedForGood(body: seq<Byte>)
    ensures ScanFrom(Refused, body) == Refused
  {
    if body != [] {
      RefusedForGood(body[1..]);
    }
  }

  lemma {:induction false} ScanInTwo(s: Scan, a: seq<Byte>, b: seq<Byte>)
    ensures ScanFrom(s, a + b) == ScanFrom(ScanFrom(s, a), b)
    decreases |a|
  {
    if a == [] {
      assert a + b == b;
    } else {
      assert (a + b)[1..] == a[1..] + b;
      ScanInTwo(StepOver(s, a[0]), a[1..], b);
    }
  }

  // ---- Spellings of JSON values ----

  datatype Character =
    | Raw(b: Byte)
    | Escaped(b: Byte)
    | Unicode(h0: Byte, h1: Byte, h2: Byte, h3: Byte)

  datatype Value =
    | Scalar(spelling: seq<Byte>)
    | Text(characters: seq<Character>)
    | Array(blank: seq<Byte>, elements: Elements)
    | Object(blank: seq<Byte>, members: Members)

  datatype Elements =
    | NoElements
    | Element(before: seq<Byte>, value: Value, after: seq<Byte>, rest: Elements)

  datatype Members =
    | NoMembers
    | Member(before: seq<Byte>, name: seq<Character>, afterName: seq<Byte>,
             beforeValue: seq<Byte>, value: Value, after: seq<Byte>, rest: Members)

  predicate Plain(b: Byte) {
    b !in {QUOTE, BACKSLASH, OPEN_BRACKET, CLOSE_BRACKET, OPEN_BRACE, CLOSE_BRACE}
  }

  predicate AllPlain(s: seq<Byte>) {
    forall i :: 0 <= i < |s| ==> Plain(s[i])
  }

  predicate Whitespace(s: seq<Byte>) {
    forall i :: 0 <= i < |s| ==> s[i] in {0x20, 0x09, 0x0A, 0x0D}
  }

  predicate HexDigit(b: Byte) {
    0x30 <= b <= 0x39 || 0x41 <= b <= 0x46 || 0x61 <= b <= 0x66
  }

  /** Section 7: unescaped, one of the eight short escapes, or a \u escape. */
  predicate IsCharacter(c: Character) {
    match c
    case Raw(b) => b >= 0x20 && b != QUOTE && b != BACKSLASH
    case Escaped(b) => b in {QUOTE, BACKSLASH, 0x2F, 0x62, 0x66, 0x6E, 0x72, 0x74}
    case Unicode(h0, h1, h2, h3) => HexDigit(h0) && HexDigit(h1) && HexDigit(h2) && HexDigit(h3)
  }

  predicate IsText(cs: seq<Character>) {
    forall i :: 0 <= i < |cs| ==> IsCharacter(cs[i])
  }

  predicate IsValue(v: Value) {
    match v
    case Scalar(spelling) => AllPlain(spelling)
    case Text(characters) => IsText(characters)
    case Array(blank, elements) => Whitespace(blank) && AreElements(elements)
    case Object(blank, members) => Whitespace(blank) && AreMembers(members)
  }

  predicate AreElements(e: Elements) {
    e.Element? ==> Whitespace(e.before) && IsValue(e.value) && Whitespace(e.after) && AreElements(e.rest)
  }

  predicate AreMembers(m: Members) {
    m.Member? ==>
      && Whitespace(m.before) && IsText(m.name) && Whitespace(m.afterName) && Whitespace(m.beforeValue)
      && IsValue(m.value) && Whitespace(m.after) && AreMembers(m.rest)
  }

  function SpellCharacter(c: Character): seq<Byte> {
    match c
    case Raw(b) => [b]
    case Escaped(b) => [BACKSLASH, b]
    case Unicode(h0, h1, h2, h3) => [BACKSLASH, LETTER_U, h0, h1, h2, h3]
  }

  function SpellCharacters(cs: seq<Character>): seq<Byte> {
    if cs == [] then [] else SpellCharacter(cs[0]) + SpellCharacters(cs[1..])
  }

  function SpellText(cs: seq<Character>): seq<Byte> {
    [QUOTE] + SpellCharacters(cs) + [QUOTE]
  }

  function Spell(v: Value): seq<Byte> {
    match v
    case Scalar(spelling) => spelling
    case Text(characters) => SpellText(characters)
    case Array(blank, elements) => [OPEN_BRACKET] + blank + SpellElements(elements) + [CLOSE_BRACKET]
    case Object(blank, members) => [OPEN_BRACE] + blank + SpellMembers(members) + [CLOSE_BRACE]
  }

  function SpellElements(e: Elements): seq<Byte> {
    if e.NoElements? then []
    else e.before + Spell(e.value) + e.after + (if e.rest.NoElements? then [] else [COMMA]) + SpellElements(e.rest)
  }

  function SpellMembers(m: Members): seq<Byte> {
    if m.NoMembers? then []
    else
      m.before + SpellText(m.name) + m.afterName + [COLON] + m.beforeValue + Spell(m.value) + m.after
      + (if m.rest.NoMembers? then [] else [COMMA]) + SpellMembers(m.rest)
  }

  /** The text is a spelling of the value, with white space around it. */
  ghost predicate Spells(text: seq<Byte>, v: Value) {
    IsValue(v) &&
    exists before, after :: Whitespace(before) && Whitespace(after) && text == before + Spell(v) + after
  }

  // ---- Nesting ----

  function Max(a: nat, b: nat): nat {
    if a >= b then a else b
  }

  function Depth(v: Value): nat {
    match v
    case Scalar(_) => 0
    case Text(_) => 0
    case Array(_, elements) => 1 + ElementsDepth(elements)
    case Object(_, members) => 1 + MembersDepth(members)
  }

  function ElementsDepth(e: Elements): nat {
    if e.NoElements? then 0 else Max(Depth(e.value), ElementsDepth(e.rest))
  }

  function MembersDepth(m: Members): nat {
    if m.NoMembers? then 0 else Max(Depth(m.value), MembersDepth(m.rest))
  }

  /** Where the scanner stands behind something that nests `depth` deep, begun at level `d`. */
  function Behind(d: int, depth: nat): Scan {
    if d + depth <= MAX_JSON_DEPTH then Outside(d) else Refused
  }

  lemma {:induction false} PlainIsSkipped(d: int, s: seq<Byte>)
    requires AllPlain(s)
    ensures ScanFrom(Outside(d), s) == Outside(d)
  {
    if s != [] {
      PlainIsSkipped(d, s[1..]);
    }
  }

  lemma WhitespaceIsPlain(s: seq<Byte>)
    requires Whitespace(s)
    ensures AllPlain(s)
  {
  }

  lemma {:induction false} CharactersStayInside(d: int, cs: seq<Character>)
    requires IsText(cs)
    ensures ScanFrom(At(d, true, false), SpellCharacters(cs)) == At(d, true, false)
  {
    if cs != [] {
      CharacterStaysInside(d, cs[0]);
      CharactersStayInside(d, cs[1..]);
      ScanInTwo(At(d, true, false), SpellCharacter(cs[0]), SpellCharacters(cs[1..]));
    }
  }

  lemma CharacterStaysInside(d: int, c: Character)
    requires IsCharacter(c)
    ensures ScanFrom(At(d, true, false), SpellCharacter(c)) == At(d, true, false)
  {
    match c {
      case Raw(b) => UnquotedStaysInside(d, [b]);
      case Escaped(b) => EscapeStaysInside(d, b);
      case Unicode(h0, h1, h2, h3) =>
        assert SpellCharacter(c) == [BACKSLASH, LETTER_U] + [h0, h1, h2, h3];
        ScanInTwo(At(d, true, false), [BACKSLASH, LETTER_U], [h0, h1, h2, h3]);
        EscapeStaysInside(d, LETTER_U);
        UnquotedStaysInside(d, [h0, h1, h2, h3]);
    }
  }

  /** Whatever follows a backslash is taken for a character of the string. */
  lemma EscapeStaysInside(d: int, b: Byte)
    ensures ScanFrom(At(d, true, false), [BACKSLASH, b]) == At(d, true, false)
  {
    var after := StepOver(At(d, true, false), BACKSLASH);
    assert [BACKSLASH, b][1..] == [b] && [b][1..] == [];
    assert ScanFrom(after, [b]) == ScanFrom(StepOver(after, b), []);
  }

  lemma {:induction false} UnquotedStaysInside(d: int, s: seq<Byte>)
    requires forall i :: 0 <= i < |s| ==> s[i] != QUOTE && s[i] != BACKSLASH
    ensures ScanFrom(At(d, true, false), s) == At(d, true, false)
  {
    if s != [] {
      UnquotedStaysInside(d, s[1..]);
    }
  }

  /** No bracket and no escaped quote inside a string counts. */
  lemma TextIsSkipped(d: int, cs: seq<Character>)
    requires IsText(cs)
    ensures ScanFrom(Outside(d), SpellText(cs)) == Outside(d)
  {
    CharactersStayInside(d, cs);
    ScanInTwo(Outside(d), [QUOTE] + SpellCharacters(cs), [QUOTE]);
    ScanInTwo(Outside(d), [QUOTE], SpellCharacters(cs));
    assert [QUOTE][1..] == [];
  }

  /** One more part behind a prefix: the scanner's place is that of the deeper of the two. */
  lemma ThenPart(d: int, a: seq<Byte>, deepA: nat, b: seq<Byte>, deepB: nat)
    requires ScanFrom(Outside(d), a) == Behind(d, deepA)
    requires ScanFrom(Outside(d), b) == Behind(d, deepB)
    ensures ScanFrom(Outside(d), a + b) == Behind(d, Max(deepA, deepB))
  {
    ScanInTwo(Outside(d), a, b);
    RefusedForGood(b);
  }

  lemma ThenPlain(d: int, a: seq<Byte>, deep: nat, b: seq<Byte>)
    requires d <= MAX_JSON_DEPTH
    requires ScanFrom(Outside(d), a) == Behind(d, deep) && AllPlain(b)
    ensures ScanFrom(Outside(d), a + b) == Behind(d, deep)
  {
    PlainIsSkipped(d, b);
    ThenPart(d, a, deep, b, 0);
  }

  /** Brackets around what nests `deep` deep make it one deeper. */
  lemma Bracketed(d: int, open: Byte, blank: seq<Byte>, inner: seq<Byte>, close: Byte, deep: nat)
    requires (open, close) == (OPEN_BRACKET, CLOSE_BRACKET) || (open, close) == (OPEN_BRACE, CLOSE_BRACE)
    requires Whitespace(blank)
    requires d + 1 <= MAX_JSON_DEPTH ==> ScanFrom(Outside(d + 1), inner) == Behind(d + 1, deep)
    ensures ScanFrom(Outside(d), [open] + blank + inner + [close]) == Behind(d, 1 + deep)
  {
    var body := blank + inner + [close];
    assert [open] + blank + inner + [close] == [open] + body;
    assert ([open] + body)[1..] == body;
    if d + 1 > MAX_JSON_DEPTH {
      RefusedForGood(body);
    } else {
      WhitespaceIsPlain(blank);
      PlainIsSkipped(d + 1, blank);
      ThenPart(d + 1, blank, 0, inner, deep);
      ScanInTwo(Outside(d + 1), blank + inner, [close]);
      assert [close][1..] == [];
    }
  }

  /** Behind every spelling of a value the scanner is where it began, or has refused, by the nesting alone. */
  lemma {:induction false} ValueScanned(d: int, v: Value)
    requires IsValue(v) && d <= MAX_JSON_DEPTH
    ensures ScanFrom(Outside(d), Spell(v)) == Behind(d, Depth(v))
    decreases v
  {
    match v {
      case Scalar(spelling) => PlainIsSkipped(d, spelling);
      case Text(characters) => TextIsSkipped(d, characters);
      case Array(blank, elements) =>
        if d + 1 <= MAX_JSON_DEPTH {
          ElementsScanned(d + 1, elements);
        }
        Bracketed(d, OPEN_BRACKET, blank, SpellElements(elements), CLOSE_BRACKET, ElementsDepth(elements));
      case Object(blank, members) =>
        if d + 1 <= MAX_JSON_DEPTH {
          MembersScanned(d + 1, members);
        }
        Bracketed(d, OPEN_BRACE, blank, SpellMembers(members), CLOSE_BRACE, MembersDepth(members));
    }
  }

  lemma {:induction false} ElementsScanned(d: int, e: Elements)
    requires AreElements(e) && d <= MAX_JSON_DEPTH
    ensures ScanFrom(Outside(d), SpellElements(e)) == Behind(d, ElementsDepth(e))
    decreases e
  {
    if e.Element? {
      ValueScanned(d, e.value);
      ElementsScanned(d, e.rest);
      WhitespaceIsPlain(e.before);
      WhitespaceIsPlain(e.after);
      var comma := if e.rest.NoElements? then [] else [COMMA];
      PlainIsSkipped(d, e.before);
      ThenPart(d, e.before, 0, Spell(e.value), Depth(e.value));
      ThenPlain(d, e.before + Spell(e.value), Depth(e.value), e.after);
      ThenPlain(d, e.before + Spell(e.value) + e.after, Depth(e.value), comma);
      ThenPart(d, e.before + Spell(e.value) + e.after + comma, Depth(e.value), SpellElements(e.rest), ElementsDepth(e.rest));
    }
  }

  lemma {:induction false} MembersScanned(d: int, m: Members)
    requires AreMembers(m) && d <= MAX_JSON_DEPTH
    ensures ScanFrom(Outside(d), SpellMembers(m)) == Behind(d, MembersDepth(m))
    decreases m
  {
    if m.Member? {
      ValueScanned(d, m.value);
      MembersScanned(d, m.rest);
      var name := NameScanned(d, m);
      var whole := name + Spell(m.value);
      WhitespaceIsPlain(m.after);
      var comma := if m.rest.NoMembers? then [] else [COMMA];
      ThenPart(d, name, 0, Spell(m.value), Depth(m.value));
      ThenPlain(d, whole, Depth(m.value), m.after);
      ThenPlain(d, whole + m.after, Depth(m.value), comma);
      ThenPart(d, whole + m.after + comma, Depth(m.value), SpellMembers(m.rest), MembersDepth(m.rest));
    }
  }

  lemma NameScanned(d: int, m: Members) returns (name: seq<Byte>)
    requires AreMembers(m) && m.Member? && d <= MAX_JSON_DEPTH
    ensures name == m.before + SpellText(m.name) + m.afterName + [COLON] + m.beforeValue
    ensures ScanFrom(Outside(d), name) == Outside(d)
  {
    WhitespaceIsPlain(m.before);
    WhitespaceIsPlain(m.afterName);
    WhitespaceIsPlain(m.beforeValue);
    PlainIsSkipped(d, m.before);
    TextIsSkipped(d, m.name);
    ThenPart(d, m.before, 0, SpellText(m.name), 0);
    ThenPlain(d, m.before + SpellText(m.name), 0, m.afterName);
    ThenPlain(d, m.before + SpellText(m.name) + m.afterName, 0, [COLON]);
    ThenPlain(d, m.before + SpellText(m.name) + m.afterName + [COLON], 0, m.beforeValue);
    name := m.before + SpellText(m.name) + m.afterName + [COLON] + m.beforeValue;
  }

  /**
   A JSON text, white space around it included, is accepted exactly when it nests at most 32 deep, and
   the scanner then ends at depth zero outside any string.
   */
  lemma AcceptedExactlyByNesting(before: seq<Byte>, v: Value, after: seq<Byte>)
    requires Whitespace(before) && IsValue(v) && Whitespace(after)
    ensures ScanFrom(Outside(0), before + Spell(v) + after)
         == if Depth(v) <= 32 then Outside(0) else Refused
  {
    WhitespaceIsPlain(before);
    WhitespaceIsPlain(after);
    PlainIsSkipped(0, before);
    ValueScanned(0, v);
    ThenPart(0, before, 0, Spell(v), Depth(v));
    ThenPlain(0, before + Spell(v), Depth(v), after);
  }
}
