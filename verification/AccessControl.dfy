/**
 The access decisions: an entity for an operation, a field for reading, and the lists of readable
 fields, with the caller and what an entity says about ownership given.
 */
module AccessControl {
  import opened Options

  datatype Rule = Rule(allowed: bool, requiredRoles: seq<string>, deny: bool)

  type Rules = map<string, Rule>

  datatype Config = Config(
    fieldAccess: map<string, Rules>, operations: Rules, allowedLevels: seq<string>,
    allowGuests: bool, ownershipField: string, defaultFields: seq<string>)

  datatype State = Authenticated | Anonymous | Unresolved

  datatype Caller = Caller(state: State, user: Option<string>, roles: seq<string>)

  /**
   What is asked about: an entity with rules of its own, one that names its owner, one that does
   neither, or none. Rules of its own are fixed answers about this caller.
   */
  datatype Entity =
    | Accessible(isOwner: bool, level: string, readable: set<string>, listed: seq<string>)
    | Owned(owner: string)
    | Plain
    | Absent

  function FoldChar(c: char): char {
    if 'A' <= c <= 'Z' then c - 'A' + 'a' else c
  }

  /** Case folding, of ASCII letters. */
  function Lower(s: string): string {
    seq(|s|, i requires 0 <= i < |s| => FoldChar(s[i]))
  }

  predicate ContainsFold(values: seq<string>, want: string) {
    exists i :: 0 <= i < |values| && Lower(values[i]) == Lower(want)
  }

  predicate HasAnyRole(roles: seq<string>, required: seq<string>) {
    exists i :: 0 <= i < |roles| && ContainsFold(required, roles[i])
  }

  predicate Admits(c: Config, caller: Caller) {
    match caller.state
    case Unresolved => false
    case Anonymous => c.allowGuests
    case Authenticated => true
  }

  predicate RolesSuffice(caller: Caller, rule: Rule) {
    rule.requiredRoles == [] || HasAnyRole(caller.roles, rule.requiredRoles)
  }

  /** Whether the rule allows, when it is there to decide. */
  function EvaluateOperationRule(caller: Caller, rules: Rules, key: string): Option<bool> {
    if key !in rules then None
    else if rules[key].deny then Some(false)
    else if !rules[key].allowed then Some(false)
    else if rules[key].requiredRoles != [] && !HasAnyRole(caller.roles, rules[key].requiredRoles) then Some(false)
    else Some(true)
  }

  predicate LevelPermitted(c: Config, level: string) {
    level == "" || c.allowedLevels == [] || ContainsFold(c.allowedLevels, level)
  }

  /** A rule that an owner or a level selects ends the decision when it allows or says deny. */
  function Selected(caller: Caller, rules: Rules, key: string): Option<bool> {
    var answer := EvaluateOperationRule(caller, rules, key);
    if answer == Some(true) then answer
    else if answer == Some(false) && rules[key].deny then answer
    else None
  }

  predicate CanAccessEntity(c: Config, caller: Caller, entity: Entity, operation: string) {
    if !Admits(c, caller) then false
    else if entity.Accessible? && !LevelPermitted(c, entity.level) then false
    else
      var owner := if entity.Accessible? && entity.isOwner then Selected(caller, c.operations, operation + "_owner") else None;
      if owner.Some? then owner.value
      else
        var level := if entity.Accessible? && entity.level != ""
                     then Selected(caller, c.operations, operation + "_" + entity.level) else None;
        if level.Some? then level.value
        else
          operation in c.operations
          && c.operations[operation].allowed && !c.operations[operation].deny
          && RolesSuffice(caller, c.operations[operation])
  }

  predicate CanAccessEntityType(c: Config, caller: Caller, operation: string) {
    && Admits(c, caller)
    && operation in c.operations && c.operations[operation].allowed
    && RolesSuffice(caller, c.operations[operation])
  }

  predicate IsOwner(caller: Caller, entity: Entity) {
    caller.user.Some? &&
    match entity
    case Accessible(isOwner, _, _, _) => isOwner
    case Owned(owner) => owner == caller.user.value
    case Plain => false
    case Absent => false
  }

  predicate DomainReadable(c: Config, caller: Caller) {
    "read" in c.operations && c.operations["read"].allowed && RolesSuffice(caller, c.operations["read"])
  }

  predicate ReadRulePasses(c: Config, caller: Caller, field: string) {
    if Lower(field) !in c.fieldAccess then DomainReadable(c, caller)
    else
      var rules := c.fieldAccess[Lower(field)];
      "read" in rules && rules["read"].allowed && RolesSuffice(caller, rules["read"])
  }

  /** A field that declares an owner rule is for owners only, once the configuration names an ownership field. */
  predicate OwnerRulePasses(c: Config, caller: Caller, field: string, entity: Entity) {
    c.ownershipField != "" && Lower(field) in c.fieldAccess && "owner" in c.fieldAccess[Lower(field)] ==>
      var rule := c.fieldAccess[Lower(field)]["owner"];
      rule.allowed && !rule.deny && IsOwner(caller, entity)
  }

  predicate CanReadField(c: Config, caller: Caller, field: string, entity: Entity) {
    && Admits(c, caller)
    && if entity.Accessible? then field in entity.readable
       else ReadRulePasses(c, caller, field) && OwnerRulePasses(c, caller, field, entity)
  }

  // ---- The lists ----

  /** The fields a list is chosen from: the configured ones, or the default ones when there are none. */
  function Candidates(c: Config): set<string> {
    if c.fieldAccess.Keys != {} then c.fieldAccess.Keys else set f | f in c.defaultFields
  }

  function Elements(s: seq<string>): set<string> {
    set f | f in s
  }

  function ReadableSet(c: Config, caller: Caller, entity: Entity): set<string> {
    set f | f in Candidates(c) && CanReadField(c, caller, f, entity)
  }

  function CollectionSet(c: Config, caller: Caller): set<string> {
    set f | f in Candidates(c) && Admits(c, caller) && ReadRulePasses(c, caller, f)
  }

  /** The keys of the field map, in the order its iteration happens to give. */
  method AllFields(c: Config) returns (fields: seq<string>)
    ensures Elements(fields) == Candidates(c)
  {
    fields := [];
    var left := c.fieldAccess.Keys;
    while left != {}
      invariant left <= c.fieldAccess.Keys
      invariant forall f :: f in fields <==> f in c.fieldAccess && f !in left
      decreases |left|
    {
      var f :| f in left;
      fields := fields + [f];
      left := left - {f};
    }
    if fields == [] {
      fields := c.defaultFields;
    } else {
      assert fields[0] in c.fieldAccess.Keys;
    }
  }

  method GetReadableFields(c: Config, caller: Caller, entity: Entity) returns (readable: seq<string>)
    ensures caller.state == Unresolved || (caller.state == Anonymous && !c.allowGuests) ==> readable == []
    ensures Admits(c, caller) && entity.Accessible? ==> readable == entity.listed
    ensures !entity.Accessible? ==> Elements(readable) == ReadableSet(c, caller, entity)
  {
    readable := [];
    if !Admits(c, caller) {
      assert Elements(readable) == ReadableSet(c, caller, entity);
      return;
    }
    if entity.Accessible? {
      return entity.listed;
    }
    var fields := AllFields(c);
    for i := 0 to |fields|
      invariant forall f :: f in readable <==> f in fields[..i] && CanReadField(c, caller, f, entity)
    {
      assert fields[..i + 1] == fields[..i] + [fields[i]];
      if CanReadField(c, caller, fields[i], entity) {
        readable := readable + [fields[i]];
      }
    }
    assert fields[..|fields|] == fields;
    assert forall f :: f in fields <==> f in Elements(fields);
  }

  method GetReadableFieldsForCollection(c: Config, caller: Caller, entityType: Entity) returns (readable: seq<string>)
    ensures caller.state == Unresolved || (caller.state == Anonymous && !c.allowGuests) ==> readable == []
    ensures Admits(c, caller) && entityType.Accessible? ==> readable == entityType.listed
    ensures !entityType.Accessible? ==> Elements(readable) == CollectionSet(c, caller)
    ensures !entityType.Accessible? && c.ownershipField == "" ==>
      forall row: Entity :: !row.Accessible? ==> Elements(readable) == ReadableSet(c, caller, row)
  {
    forall row: Entity | !row.Accessible? && c.ownershipField == ""
      ensures CollectionSet(c, caller) == ReadableSet(c, caller, row)
    {
      ListsAgreeExactly(c, caller, row);
    }
    readable := [];
    if !Admits(c, caller) {
      assert Elements(readable) == CollectionSet(c, caller);
      return;
    }
    if entityType.Accessible? {
      return entityType.listed;
    }
    var fields := AllFields(c);
    for i := 0 to |fields|
      invariant forall f :: f in readable <==> f in fields[..i] && ReadRulePasses(c, caller, f)
    {
      assert fields[..i + 1] == fields[..i] + [fields[i]];
      var field := fields[i];
      if Lower(field) !in c.fieldAccess {
        if "read" in c.operations && c.operations["read"].allowed {
          if c.operations["read"].requiredRoles == [] || HasAnyRole(caller.roles, c.operations["read"].requiredRoles) {
            readable := readable + [field];
          }
        }
        continue;
      }
      var rules := c.fieldAccess[Lower(field)];
      if "read" !in rules {
        continue;
      }
      if !rules["read"].allowed {
        continue;
      }
      if rules["read"].requiredRoles == [] || HasAnyRole(caller.roles, rules["read"].requiredRoles) {
        readable := readable + [field];
      }
    }
    assert fields[..|fields|] == fields;
    assert forall f :: f in fields <==> f in Elements(fields);
  }

  method HasAnyRoleIn(userRoles: seq<string>, requiredRoles: seq<string>) returns (found: bool)
    ensures found <==> HasAnyRole(userRoles, requiredRoles)
  {
    for i := 0 to |userRoles|
      invariant forall k :: 0 <= k < i ==> !ContainsFold(requiredRoles, userRoles[k])
    {
      for j := 0 to |requiredRoles|
        invariant forall k :: 0 <= k < j ==> Lower(requiredRoles[k]) != Lower(userRoles[i])
      {
        if Lower(userRoles[i]) == Lower(requiredRoles[j]) {
          assert ContainsFold(requiredRoles, userRoles[i]);
          return true;
        }
      }
    }
    return false;
  }

  // ---- The entity decision as a list of rules ----

  /** The rules consulted for an entity, first to last. */
  function Consulted(entity: Entity, operation: string): seq<string> {
    (if entity.Accessible? && entity.isOwner then [operation + "_owner"] else [])
    + (if entity.Accessible? && entity.level != "" then [operation + "_" + entity.level] else [])
    + [operation]
  }

  /** The same letter, or the same ASCII letter in the other case. */
  predicate SameLetter(a: char, b: char) {
    || a == b
    || ('A' <= a <= 'Z' && b as int == a as int + 32)
    || ('A' <= b <= 'Z' && a as int == b as int + 32)
  }

  predicate SameUpToCase(a: string, b: string) {
    |a| == |b| && forall i :: 0 <= i < |a| ==> SameLetter(a[i], b[i])
  }

  lemma FoldsExactly(a: string, b: string)
    ensures Lower(a) == Lower(b) <==> SameUpToCase(a, b)
  {
    if |a| == |b| {
      forall i | 0 <= i < |a| ensures Lower(a)[i] == Lower(b)[i] <==> SameLetter(a[i], b[i]) {
        assert Lower(a)[i] == FoldChar(a[i]) && Lower(b)[i] == FoldChar(b[i]);
      }
      assert Lower(a) == Lower(b) <==> forall i :: 0 <= i < |a| ==> Lower(a)[i] == Lower(b)[i];
    } else {
      assert |Lower(a)| != |Lower(b)|;
    }
  }

  /** The caller has a role the rule asks for, up to case, or the rule asks for none. */
  predicate HasARoleFor(caller: Caller, rule: Rule) {
    rule.requiredRoles == [] ||
    exists i, j :: 0 <= i < |caller.roles| && 0 <= j < |rule.requiredRoles|
                   && SameUpToCase(caller.roles[i], rule.requiredRoles[j])
  }

  lemma RolesExactly(caller: Caller, rule: Rule)
    ensures RolesSuffice(caller, rule) <==> HasARoleFor(caller, rule)
  {
    forall i, j | 0 <= i < |caller.roles| && 0 <= j < |rule.requiredRoles|
      ensures Lower(rule.requiredRoles[j]) == Lower(caller.roles[i]) <==>
              SameUpToCase(caller.roles[i], rule.requiredRoles[j])
    {
      FoldsExactly(caller.roles[i], rule.requiredRoles[j]);
    }
  }

  predicate Grants(caller: Caller, rules: Rules, key: string) {
    key in rules && rules[key].allowed && !rules[key].deny && HasARoleFor(caller, rules[key])
  }

  predicate Denies(rules: Rules, key: string) {
    key in rules && rules[key].deny
  }

  /** A level outside the allowed ones, when any are named, refuses everything. */
  predicate LevelAllowed(c: Config, level: string) {
    level == "" || c.allowedLevels == [] ||
    exists i :: 0 <= i < |c.allowedLevels| && SameUpToCase(c.allowedLevels[i], level)
  }

  /**
   Access is granted exactly to an authenticated caller, or an anonymous one where guests are allowed, for whom some
   consulted rule grants it with no rule before that one saying deny.
   */
  lemma GrantedExactly(c: Config, caller: Caller, entity: Entity, operation: string)
    ensures CanAccessEntity(c, caller, entity, operation) <==>
      && (caller.state == Authenticated || (caller.state == Anonymous && c.allowGuests))
      && (entity.Accessible? ==> LevelAllowed(c, entity.level))
      && GrantedBy(caller, c.operations, Consulted(entity, operation))
  {
    var keys := Consulted(entity, operation);
    if entity.Accessible? {
      LevelsExactly(c, entity.level);
    }
    forall rule: Rule ensures RolesSuffice(caller, rule) <==> HasARoleFor(caller, rule) {
      RolesExactly(caller, rule);
    }
    FirstDecides(caller, c.operations, keys);
    if |keys| > 1 {
      FirstDecides(caller, c.operations, keys[1..]);
    }
    if |keys| > 2 {
      FirstDecides(caller, c.operations, keys[2..]);
    }
  }

  lemma LevelsExactly(c: Config, level: string)
    ensures LevelPermitted(c, level) <==> LevelAllowed(c, level)
  {
    forall i | 0 <= i < |c.allowedLevels|
      ensures Lower(c.allowedLevels[i]) == Lower(level) <==> SameUpToCase(c.allowedLevels[i], level)
    {
      FoldsExactly(c.allowedLevels[i], level);
    }
  }

  predicate GrantedBy(caller: Caller, rules: Rules, keys: seq<string>) {
    exists i :: 0 <= i < |keys| && Grants(caller, rules, keys[i]) && forall j :: 0 <= j < i ==> !Denies(rules, keys[j])
  }

  lemma FirstDecides(caller: Caller, rules: Rules, keys: seq<string>)
    requires keys != []
    ensures GrantedBy(caller, rules, keys) <==>
      Grants(caller, rules, keys[0]) || (!Denies(rules, keys[0]) && GrantedBy(caller, rules, keys[1..]))
  {
  }

  // ---- Monotony ----

  /** Every role of the one is, up to case, a role of the other. */
  predicate RolesWithin(roles: seq<string>, more: seq<string>) {
    forall i :: 0 <= i < |roles| ==> ContainsFold(more, roles[i])
  }

  /** More roles never lose an entity, a field, or a place on a list. */
  lemma MonotoneInRoles(c: Config, caller: Caller, more: Caller, entity: Entity, operation: string, field: string)
    requires caller.state == more.state && caller.user == more.user && RolesWithin(caller.roles, more.roles)
    ensures CanAccessEntity(c, caller, entity, operation) ==> CanAccessEntity(c, more, entity, operation)
    ensures CanReadField(c, caller, field, entity) ==> CanReadField(c, more, field, entity)
    ensures ReadableSet(c, caller, entity) <= ReadableSet(c, more, entity)
    ensures CollectionSet(c, caller) <= CollectionSet(c, more)
  {
  }

  function WithDeny(rules: Rules, keys: set<string>): Rules {
    map k | k in rules :: if k in keys then rules[k].(deny := true) else rules[k]
  }

  /** Deny put on the operation rules `keys`, and on rule `k` of each field `f` with `(f, k)` in `fieldKeys`. */
  function ConfigWithDeny(c: Config, keys: set<string>, fieldKeys: set<(string, string)>): Config {
    c.(operations := WithDeny(c.operations, keys),
       fieldAccess := map f | f in c.fieldAccess ::
         WithDeny(c.fieldAccess[f], set k | k in c.fieldAccess[f] && (f, k) in fieldKeys))
  }

  /** Deny on any rules at all never turns a refusal into a grant. */
  lemma DenyNeverGrants(c: Config, keys: set<string>, fieldKeys: set<(string, string)>, caller: Caller,
                        entity: Entity, operation: string, field: string)
    ensures CanAccessEntity(ConfigWithDeny(c, keys, fieldKeys), caller, entity, operation) ==>
              CanAccessEntity(c, caller, entity, operation)
    ensures CanReadField(ConfigWithDeny(c, keys, fieldKeys), caller, field, entity) ==>
              CanReadField(c, caller, field, entity)
  {
    var denied := ConfigWithDeny(c, keys, fieldKeys);
    GrantedExactly(c, caller, entity, operation);
    GrantedExactly(denied, caller, entity, operation);
    var order := Consulted(entity, operation);
    if CanAccessEntity(denied, caller, entity, operation) {
      var i :| 0 <= i < |order| && Grants(caller, denied.operations, order[i])
        && forall j :: 0 <= j < i ==> !Denies(denied.operations, order[j]);
      assert Grants(caller, c.operations, order[i]);
      assert forall j :: 0 <= j < i ==> Denies(c.operations, order[j]) ==> Denies(denied.operations, order[j]);
    }
  }

  // ---- Where deny is not looked at ----

  /** The check of a type alone agrees with the check of a bare entity, except that it passes over deny. */
  lemma TypeCheckDiffersExactly(c: Config, caller: Caller, operation: string)
    ensures CanAccessEntity(c, caller, Plain, operation) ==> CanAccessEntityType(c, caller, operation)
    ensures CanAccessEntityType(c, caller, operation) != CanAccessEntity(c, caller, Plain, operation) <==>
      && (caller.state == Authenticated || (caller.state == Anonymous && c.allowGuests))
      && DeniedGrant(caller, c.operations, operation)
  {
    if operation in c.operations {
      RolesExactly(caller, c.operations[operation]);
    }
  }

  /** The rules a field's read is decided by: its own when it is configured, those of the operations when not. */
  function ReadRules(c: Config, field: string): Rules {
    if Lower(field) in c.fieldAccess then c.fieldAccess[Lower(field)] else c.operations
  }

  /** The same decision with its one rule read the way every operation rule is. */
  predicate CanReadFieldByRule(c: Config, caller: Caller, field: string, entity: Entity) {
    && Admits(c, caller)
    && if entity.Accessible? then field in entity.readable
       else
         && EvaluateOperationRule(caller, ReadRules(c, field), "read") == Some(true)
         && OwnerRulePasses(c, caller, field, entity)
  }

  /** A deny rule that would grant if it did not say deny. */
  predicate DeniedGrant(caller: Caller, rules: Rules, key: string) {
    Denies(rules, key) && rules[key].allowed && HasARoleFor(caller, rules[key])
  }

  /** A field's own read rule, and the domain's, depart from the shared evaluation exactly on a deny that would otherwise grant. */
  lemma ReadRuleDepartsExactly(c: Config, caller: Caller, field: string)
    ensures var rules := ReadRules(c, field);
      ReadRulePasses(c, caller, field) != (EvaluateOperationRule(caller, rules, "read") == Some(true)) <==>
      DeniedGrant(caller, rules, "read")
  {
    if "read" in ReadRules(c, field) {
      RolesExactly(caller, ReadRules(c, field)["read"]);
    }
  }

  /** So does the whole decision, for an admitted caller, on an entity without rules of its own, that owns what it must. */
  lemma FieldReadDepartsExactly(c: Config, caller: Caller, field: string, entity: Entity)
    ensures CanReadField(c, caller, field, entity) != CanReadFieldByRule(c, caller, field, entity) <==>
      && (caller.state == Authenticated || (caller.state == Anonymous && c.allowGuests))
      && !entity.Accessible? && DeniedGrant(caller, ReadRules(c, field), "read")
      && AllowedToRead(c, caller, field, entity)
    ensures CanReadFieldByRule(c, caller, field, entity) ==> CanReadField(c, caller, field, entity)
  {
    ReadRuleDepartsExactly(c, caller, field);
  }

  /** The configuration names an ownership field, and the field has a rule for owners. */
  predicate OwnersOnly(c: Config, field: string) {
    c.ownershipField != "" && Lower(field) in c.fieldAccess && "owner" in c.fieldAccess[Lower(field)]
  }

  predicate OwnerRuleGrants(c: Config, field: string)
    requires OwnersOnly(c, field)
  {
    c.fieldAccess[Lower(field)]["owner"].allowed && !c.fieldAccess[Lower(field)]["owner"].deny
  }

  /**
   Nobody unresolved reads a field, and no guest where guests are not allowed. Of the others, an entity with rules of
   its own says who does; of any other entity exactly those whom the read rule that applies allows, deny or not, and,
   when the field is for owners only, who own it.
   */
  lemma ReadExactly(c: Config, caller: Caller, field: string, entity: Entity)
    ensures CanReadField(c, caller, field, entity) <==>
      && (caller.state == Authenticated || (caller.state == Anonymous && c.allowGuests))
      && (entity.Accessible? ==> field in entity.readable)
      && (!entity.Accessible? ==> AllowedToRead(c, caller, field, entity))
  {
    if "read" in ReadRules(c, field) {
      RolesExactly(caller, ReadRules(c, field)["read"]);
    }
  }

  predicate AllowedToRead(c: Config, caller: Caller, field: string, entity: Entity) {
    && (Grants(caller, ReadRules(c, field), "read") || DeniedGrant(caller, ReadRules(c, field), "read"))
    && (OwnersOnly(c, field) ==> OwnerRuleGrants(c, field) && caller.user.Some? && entity == Owned(caller.user.value))
  }

  /** A configuration that denies everybody the reading of entities, and of one field: the field is read all the same. */
  lemma DeniedFieldIsRead()
    ensures var rules := map["read" := Rule(true, [], true)];
            var c := Config(map["salary" := rules], rules, [], true, "", []);
            var guest := Caller(Anonymous, None, ["guest"]);
      && !CanAccessEntity(c, guest, Plain, "read")
      && CanReadField(c, guest, "salary", Plain) && CanReadField(c, guest, "name", Plain)
      && ReadableSet(c, guest, Plain) == {"salary"}
  {
    var rules := map["read" := Rule(true, [], true)];
    var c := Config(map["salary" := rules], rules, [], true, "", []);
    var guest := Caller(Anonymous, None, ["guest"]);
    assert Lower("salary") == "salary";
    assert Lower("name") == "name" && |"name"| != |"salary"|;
    assert Candidates(c) == {"salary"} by {
      assert "salary" in c.fieldAccess.Keys;
    }
  }

  // ---- The lists against each other ----

  /**
   Every row's list is within the collection's, and equal to it exactly when no field of the collection has an
   owner rule that refuses the row.
   */
  lemma ListsAgreeExactly(c: Config, caller: Caller, entity: Entity)
    requires !entity.Accessible?
    ensures ReadableSet(c, caller, entity) <= CollectionSet(c, caller)
    ensures ReadableSet(c, caller, entity) == CollectionSet(c, caller) <==>
      forall f :: f in CollectionSet(c, caller) ==> OwnerRulePasses(c, caller, f, entity)
    ensures c.ownershipField == "" ==> ReadableSet(c, caller, entity) == CollectionSet(c, caller)
  {
  }
}
