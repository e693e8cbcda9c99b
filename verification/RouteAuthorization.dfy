/**
 * Deciding a request by its route: the operations the route needs are filled in with the request's parameters,
 * and every one of them must be granted.
 */
module RouteAuthorization {
  import opened Prelude
  import opened PermissionKeys
  import opened PermissionStore
  import opened Authorization

  /** A piece of a subject template: literal text, or the name of a parameter to put in. */
  datatype Segment = Text(text: string) | Param(name: string)

  type Template = seq<Segment>

  datatype OperationTemplate = OperationTemplate(
    action: Action,
    subjectType: Template,
    subjectId: Template,
    field: Option<string>,
    attributes: map<string, Template>)

  datatype RouteDecision = RouteAllowed | RouteForbidden | RouteNotSecured | ParamNotFound | RouteTooManyIdentities

  const SPECIAL: string := "^$\\.*+?()[]{}|"

  function Escaped(c: char): string {
    if c in SPECIAL then ['\\', c] else [c]
  }

  /** Puts a backslash before every character that a regular expression would read specially. */
  function Escape(s: string): string {
    if s == [] then [] else Escaped(s[0]) + Escape(s[1..])
  }

  /** A value is put in as it is exactly when it has no such character. */
  lemma {:induction false} EscapeKeepsIff(s: string)
    ensures |Escape(s)| >= |s|
    ensures Escape(s) == s <==> forall i :: 0 <= i < |s| ==> s[i] !in SPECIAL
  {
    if s == [] {
    } else {
      EscapeKeepsIff(s[1..]);
      assert s == [s[0]] + s[1..];
      if s[0] in SPECIAL {
        assert |Escape(s)| > |s|;
      } else {
        assert Escape(s)[1..] == Escape(s[1..]);
      }
    }
  }

  lemma EscapeCons(c: char, s: string)
    ensures Escape([c] + s) == Escaped(c) + Escape(s)
  {
    assert ([c] + s)[1..] == s;
  }

  lemma {:induction false} EscapeConcat(s: string, t: string)
    ensures Escape(s + t) == Escape(s) + Escape(t)
  {
    if s == [] {
      assert s + t == t;
    } else {
      EscapeConcat(s[1..], t);
      assert s == [s[0]] + s[1..] && s + t == [s[0]] + (s[1..] + t);
      EscapeCons(s[0], s[1..]);
      EscapeCons(s[0], s[1..] + t);
      hide Escape, Escaped;
      Associative(Escaped(s[0]), Escape(s[1..]), Escape(t));
    }
  }

  /** Character by character: a special one gets a backslash in front of it, any other stays what it is. */
  lemma EscapeEach(s: string, c: char)
    ensures Escape("") == ""
    ensures
      var special := {'^', '$', '\\', '.', '*', '+', '?', '(', ')', '[', ']', '{', '}', '|'};
      Escape(s + [c]) == Escape(s) + if c in special then ['\\', c] else [c]
  {
    EscapeConcat(s, [c]);
    assert Escape([c]) == (if c in SPECIAL then ['\\', c] else [c]) + Escape([]);
    assert SPECIAL == ['^', '$', '\\', '.', '*', '+', '?', '(', ')', '[', ']', '{', '}', '|'];
  }

  /** Fills a template; a missing or empty parameter is an error. */
  function Fill(t: Template, params: map<string, string>): Option<string> {
    if t == [] then Some("")
    else
      var rest := Fill(t[1..], params);
      match t[0]
      case Text(text) => if rest.Some? then Some(text + rest.value) else None
      case Param(name) =>
        if name in params && params[name] != "" && rest.Some? then Some(Escape(params[name]) + rest.value) else None
  }

  function Literal(t: Template): string {
    if t == [] then "" else (match t[0] case Text(text) => text case Param(_) => "") + Literal(t[1..])
  }

  ghost predicate Constant(t: Template) {
    forall i :: 0 <= i < |t| ==> t[i].Text?
  }

  lemma {:induction false} EscapedIsLonger(s: string)
    requires s != ""
    ensures Escape(s) != "" && Escape(s) != WILDCARD
  {
    EscapeKeepsIff(s);
    if s[0] in SPECIAL {
      assert Escape(s)[0] == '\\';
    } else {
      assert Escape(s)[0] == s[0];
      assert '*' in SPECIAL;
    }
  }

  lemma {:induction false} ConstantFill(t: Template, params: map<string, string>)
    requires Constant(t)
    ensures Fill(t, params) == Some(Literal(t))
  {
    if t == [] {
    } else {
      ConstantFill(t[1..], params);
    }
  }

  lemma SplitWildcard(head: string, rest: string)
    requires head + rest == "" || head + rest == WILDCARD
    ensures rest == "" || rest == WILDCARD
    ensures head != "" ==> head == WILDCARD
  {
    assert head + rest == [] || head + rest == ['*'];
    if head != "" {
      assert head[0] == (head + rest)[0];
    } else {
      assert head + rest == rest;
    }
  }

  lemma {:induction false} ShortFillIsConstant(t: Template, params: map<string, string>)
    requires Fill(t, params) == Some("") || Fill(t, params) == Some(WILDCARD)
    ensures Constant(t)
  {
    if t == [] {
    } else {
      var rest := Fill(t[1..], params).value;
      match t[0]
      case Param(name) =>
        SplitWildcard(Escape(params[name]), rest);
        EscapedIsLonger(params[name]);
      case Text(text) =>
        SplitWildcard(text, rest);
        ShortFillIsConstant(t[1..], params);
        assert forall i :: 0 < i < |t| ==> t[i] == t[1..][i - 1];
    }
  }

  /**
   * No parameter can turn a template into the wildcard: a filled template is the wildcard exactly when it has no
   * parameters and its text is the wildcard.
   */
  lemma WildcardOnlyIfLiteral(t: Template, params: map<string, string>)
    ensures Fill(t, params) == Some("*") <==> Constant(t) && Literal(t) == "*"
  {
    if Fill(t, params) == Some(WILDCARD) {
      ShortFillIsConstant(t, params);
    }
    if Constant(t) {
      ConstantFill(t, params);
    }
  }

  // ----- What a filled template says -----

  /** What one piece puts into the text: itself, or the escaped value of its parameter, which must not be empty. */
  ghost predicate Puts(piece: Segment, params: map<string, string>, text: string) {
    match piece
    case Text(own) => text == own
    case Param(name) => name in params && params[name] != "" && text == Escape(params[name])
  }

  /** The text is what the pieces put in, one after the other. */
  ghost predicate Spells(t: Template, params: map<string, string>, text: string) {
    exists parts: seq<string> ::
      && |parts| == |t| && text == Joined(parts)
      && forall i :: 0 <= i < |t| ==> Puts(t[i], params, parts[i])
  }

  /** Some piece asks for a parameter that is missing or empty. */
  ghost predicate Lacks(t: Template, params: map<string, string>) {
    exists i :: 0 <= i < |t| && t[i].Param? && (t[i].name !in params || params[t[i].name] == "")
  }

  lemma {:induction false} FillFails(t: Template, params: map<string, string>)
    ensures Fill(t, params).None? <==> Lacks(t, params)
  {
    if t == [] {
    } else {
      FillFails(t[1..], params);
      assert forall i :: 0 < i < |t| ==> t[i] == t[1..][i - 1];
      if Lacks(t[1..], params) {
        var i :| 0 <= i < |t| - 1 && t[1..][i].Param? && (t[1..][i].name !in params || params[t[1..][i].name] == "");
        assert t[i + 1] == t[1..][i];
      }
    }
  }

  lemma {:induction false} FillSpells(t: Template, params: map<string, string>) returns (parts: seq<string>)
    requires Fill(t, params).Some?
    ensures |parts| == |t| && Fill(t, params).value == Joined(parts)
    ensures forall i :: 0 <= i < |t| ==> Puts(t[i], params, parts[i])
  {
    if t == [] {
      parts := [];
    } else {
      var rest := FillSpells(t[1..], params);
      var first := match t[0] case Text(own) => own case Param(name) => Escape(params[name]);
      parts := [first] + rest;
      JoinedCons(first, rest);
      assert forall i :: 0 < i < |t| ==> t[i] == t[1..][i - 1] && parts[i] == rest[i - 1];
    }
  }

  /** A template spells one text at most. */
  lemma {:induction false} SpellsOne(t: Template, params: map<string, string>, a: seq<string>, b: seq<string>)
    requires |a| == |t| == |b|
    requires forall i :: 0 <= i < |t| ==> Puts(t[i], params, a[i]) && Puts(t[i], params, b[i])
    ensures a == b
  {}

  /** A template is filled with the text it spells, which there is exactly if it lacks nothing. */
  lemma FillIs(t: Template, params: map<string, string>)
    ensures Fill(t, params).Some? <==> !Lacks(t, params)
    ensures forall text :: Fill(t, params) == Some(text) <==> Spells(t, params, text)
  {
    FillFails(t, params);
    if Fill(t, params).Some? {
      var parts := FillSpells(t, params);
      forall text | Spells(t, params, text)
        ensures text == Fill(t, params).value
      {
        var other :| |other| == |t| && text == Joined(other)
          && forall i :: 0 <= i < |t| ==> Puts(t[i], params, other[i]);
        SpellsOne(t, params, parts, other);
      }
      assert Spells(t, params, Fill(t, params).value);
    } else {
      forall text {
        SpellsLacksNothing(t, params, text);
      }
    }
  }

  lemma SpellsLacksNothing(t: Template, params: map<string, string>, text: string)
    ensures Spells(t, params, text) ==> !Lacks(t, params)
  {
    if parts :| |parts| == |t| && text == Joined(parts) && forall i :: 0 <= i < |t| ==> Puts(t[i], params, parts[i]) {
      forall i | 0 <= i < |t| && t[i].Param?
        ensures t[i].name in params && params[t[i].name] != ""
      {
        assert Puts(t[i], params, parts[i]);
      }
    }
  }

  // ----- The decision -----

  predicate Fillable(op: OperationTemplate, params: map<string, string>) {
    && Fill(op.subjectType, params).Some? && Fill(op.subjectId, params).Some?
    && forall name :: name in op.attributes ==> Fill(op.attributes[name], params).Some?
  }

  function Filled(op: OperationTemplate, params: map<string, string>): Operation
    requires Fillable(op, params)
  {
    Operation(op.action, Fill(op.subjectType, params).value, Fill(op.subjectId, params).value, op.field,
              map name | name in op.attributes :: Fill(op.attributes[name], params).value)
  }

  /** The operation lacks a parameter somewhere in its subject. */
  ghost predicate LacksParameter(op: OperationTemplate, params: map<string, string>) {
    || Lacks(op.subjectType, params) || Lacks(op.subjectId, params)
    || exists name :: name in op.attributes && Lacks(op.attributes[name], params)
  }

  /** The operation that is asked for: as declared, with every part of its subject spelled out. */
  ghost predicate Asks(op: OperationTemplate, params: map<string, string>, asked: Operation) {
    && asked.action == op.action && asked.field == op.field
    && Spells(op.subjectType, params, asked.subjectType) && Spells(op.subjectId, params, asked.subjectId)
    && AttributesSpelled(op.attributes, params, asked.attributes)
  }

  /** The same attributes, each spelled out. */
  ghost predicate AttributesSpelled(attributes: map<string, Template>, params: map<string, string>,
                                    asked: map<string, string>) {
    && asked.Keys == attributes.Keys
    && forall name :: name in attributes ==> Spells(attributes[name], params, asked[name])
  }

  lemma AttributesIff(attributes: map<string, Template>, params: map<string, string>, asked: map<string, string>)
    ensures AttributesSpelled(attributes, params, asked) <==>
      && (forall name :: name in attributes ==> Fill(attributes[name], params).Some?)
      && asked == map name | name in attributes :: Fill(attributes[name], params).value
  {
    hide Fill, Spells;
    if AttributesSpelled(attributes, params, asked) {
      forall name | name in attributes
        ensures Fill(attributes[name], params) == Some(asked[name])
      {
        FillIsAt(attributes[name], params, asked[name]);
      }
    }
    if forall name :: name in attributes ==> Fill(attributes[name], params).Some? {
      forall name | name in attributes
        ensures Spells(attributes[name], params, Fill(attributes[name], params).value)
      {
        FillIsAt(attributes[name], params, Fill(attributes[name], params).value);
      }
    }
  }

  lemma FillIsAt(t: Template, params: map<string, string>, text: string)
    ensures Fill(t, params) == Some(text) <==> Spells(t, params, text)
  {
    FillIs(t, params);
  }

  lemma FilledAsks(op: OperationTemplate, params: map<string, string>)
    ensures Fillable(op, params) <==> !LacksParameter(op, params)
    ensures forall asked :: Asks(op, params, asked) <==> Fillable(op, params) && asked == Filled(op, params)
  {
    FillIs(op.subjectType, params);
    FillIs(op.subjectId, params);
    forall name | name in op.attributes
      ensures Fill(op.attributes[name], params).Some? <==> !Lacks(op.attributes[name], params)
    {
      FillIs(op.attributes[name], params);
    }
    forall asked
      ensures Asks(op, params, asked) <==> Fillable(op, params) && asked == Filled(op, params)
    {
      AsksIff(op, params, asked);
    }
    hide *;
  }

  lemma AsksIff(op: OperationTemplate, params: map<string, string>, asked: Operation)
    ensures Asks(op, params, asked) <==> Fillable(op, params) && asked == Filled(op, params)
  {
    FillIs(op.subjectType, params);
    FillIs(op.subjectId, params);
    AttributesIff(op.attributes, params, asked.attributes);
    hide Fill, Spells, AttributesSpelled;
  }

  /** Fills in every operation of a route, or none if a parameter is missing. */
  method FillAll(ops: seq<OperationTemplate>, params: map<string, string>) returns (r: Option<seq<Operation>>)
    ensures r.None? <==> exists op :: op in ops && LacksParameter(op, params)
    ensures r.Some? ==> |r.value| == |ops| && forall i :: 0 <= i < |ops| ==>
      && r.value[i].action == ops[i].action && r.value[i].field == ops[i].field
      && r.value[i].attributes.Keys == ops[i].attributes.Keys
      && Asks(ops[i], params, r.value[i])
  {
    var filled: seq<Operation> := [];
    for i := 0 to |ops|
      invariant |filled| == i
      invariant forall j :: 0 <= j < i ==> !LacksParameter(ops[j], params) && Asks(ops[j], params, filled[j])
    {
      FilledAsks(ops[i], params);
      if !Fillable(ops[i], params) {
        return None;
      }
      filled := filled + [Filled(ops[i], params)];
    }
    r := Some(filled);
  }

  /** Every operation that is asked for is granted. */
  ghost predicate AllGranted(perms: Perms, ops: seq<OperationTemplate>, params: map<string, string>,
                             identities: set<Identity>, matches: Matcher) {
    forall op, asked :: op in ops && Asks(op, params, asked) ==> Grants(perms, asked, identities, matches)
  }

  /** Checks operations one after the other and stops at the first that is refused. */
  method AuthorizeAll(table: PermissionTable, userId: string, validGroups: seq<string>, ops: seq<Operation>,
                      matches: Matcher)
    returns (r: RouteDecision)
    requires table.Valid()
    ensures r in {RouteAllowed, RouteForbidden, RouteTooManyIdentities}
    ensures r == RouteTooManyIdentities <==> |validGroups| >= MAX_BATCH && ops != []
    ensures |validGroups| < MAX_BATCH ==>
      (r == RouteAllowed <==> forall i :: 0 <= i < |ops| ==>
          Grants(table.perms, ops[i], Identities(userId, validGroups), matches))
  {
    hide Grants, Identities;
    for i := 0 to |ops|
      invariant i > 0 ==> |validGroups| < MAX_BATCH
      invariant |validGroups| < MAX_BATCH ==>
        forall j :: 0 <= j < i ==> Grants(table.perms, ops[j], Identities(userId, validGroups), matches)
    {
      var decision := IsAuthorizedOnSubject(table, userId, validGroups, ops[i], matches);
      if decision == TooManyIdentities {
        return RouteTooManyIdentities;
      }
      if decision == Forbidden {
        return RouteForbidden;
      }
    }
    return RouteAllowed;
  }

  /**
   * Decides a route. `routed` holds the operations and path parameters the route matcher finds; parameters the
   * caller provides go before those.
   */
  method IsAuthorizedOnRoute(table: PermissionTable, userId: string, validGroups: seq<string>, ignored: bool,
                             routed: Option<(seq<OperationTemplate>, map<string, string>)>,
                             provided: map<string, string>, matches: Matcher)
    returns (r: RouteDecision)
    requires table.Valid()
    ensures r == RouteNotSecured <==> !ignored && routed.None?
    ensures r == ParamNotFound <==>
      !ignored && routed.Some? && exists op :: op in routed.value.0 && LacksParameter(op, routed.value.1 + provided)
    ensures ignored ==> r == RouteAllowed
    ensures r == RouteTooManyIdentities <==>
      !ignored && routed.Some? && r != ParamNotFound && routed.value.0 != [] && |validGroups| >= MAX_BATCH
    ensures |validGroups| < MAX_BATCH && r != ParamNotFound ==>
      (r == RouteAllowed <==>
        || ignored
        || (routed.Some?
            && AllGranted(table.perms, routed.value.0, routed.value.1 + provided, Identities(userId, validGroups),
              matches)))
  {
    if ignored {
      return RouteAllowed;
    }
    if routed.None? {
      return RouteNotSecured;
    }
    var templates, params := routed.value.0, routed.value.1 + provided;
    var ops := FillAll(templates, params);
    if ops.None? {
      return ParamNotFound;
    }
    r := AuthorizeAll(table, userId, validGroups, ops.value, matches);
    AskedAre(table.perms, templates, params, ops.value, Identities(userId, validGroups), matches);
    hide Grants, Identities, Asks, LacksParameter, AllGranted;
  }

  /** An operation asks for one thing at most. */
  lemma AsksOne(op: OperationTemplate, params: map<string, string>, a: Operation, b: Operation)
    requires Asks(op, params, a) && Asks(op, params, b)
    ensures a == b
  {
    AsksIff(op, params, a);
    AsksIff(op, params, b);
    hide Asks;
  }

  /** What is asked for is granted exactly if what was filled in is. */
  lemma AskedAre(perms: Perms, templates: seq<OperationTemplate>, params: map<string, string>, ops: seq<Operation>,
                 identities: set<Identity>, matches: Matcher)
    requires |ops| == |templates| && forall i :: 0 <= i < |ops| ==> Asks(templates[i], params, ops[i])
    ensures AllGranted(perms, templates, params, identities, matches)
       <==> forall i :: 0 <= i < |ops| ==> Grants(perms, ops[i], identities, matches)
  {
    hide Asks, Grants;
    if forall i :: 0 <= i < |ops| ==> Grants(perms, ops[i], identities, matches) {
      forall op, asked | op in templates && Asks(op, params, asked)
        ensures Grants(perms, asked, identities, matches)
      {
        var i :| 0 <= i < |templates| && templates[i] == op;
        AsksOne(op, params, asked, ops[i]);
      }
    }
    if AllGranted(perms, templates, params, identities, matches) {
      forall i | 0 <= i < |ops|
        ensures Grants(perms, ops[i], identities, matches)
      {
        assert templates[i] in templates;
      }
    }
  }
}
