/**
 `Registry.register` and the checks it runs (`internal/api/registry.go`): the registry
 accepts exactly the declarations that keep every rule, reports the first rule a
 declaration breaks, and keeps its two records of them in step.
 */
module Registry {
  import opened Options
  import opened Text
  import opened Uploads
  import opened Endpoints

  // ---------------------------------------------------------------------------
  // Path and schema agree
  // ---------------------------------------------------------------------------

  predicate IsRefusedSyntax(c: char) {
    c in "*+?<"
  }

  /** A placeholder is declared, read from the path, and has one spelling. */
  predicate SegmentDeclared(e: Endpoint, name: string) {
    var prop := Lookup(e.parameters, name);
    && prop.Some?
    && (prop.value.source.AutoSource? || prop.value.source.PathSource?)
    && prop.value.alias == ""
  }

  /** A parameter the gate could read under its name or alias is read from the path by the handler too. */
  predicate ParamAgrees(e: Endpoint, p: Param) {
    && (p.prop.source.PathSource? ==> p.name in PathNames(e.path))
    && (IsGateName(p.name) ==> SourceOf(e, p).PathSource?)
    && (EqualFold(p.prop.alias, CLUSTER_ID) && RunsClusterGate(e.permissions) ==> SourceOf(e, p).PathSource?)
  }

  predicate PathParamsAgree(e: Endpoint) {
    && (forall i :: 0 <= i < |e.path| ==> !IsRefusedSyntax(e.path[i]))
    && (forall k :: 0 <= k < |PathNames(e.path)| ==> SegmentDeclared(e, PathNames(e.path)[k]))
    && (forall i :: 0 <= i < |e.parameters| ==> ParamAgrees(e, e.parameters[i]))
  }

  /** `checkPathParams`: three passes with early returns. */
  method CheckPathParams(e: Endpoint, names: seq<string>) returns (ok: bool)
    requires names == PathNames(e.path)
    ensures ok <==> PathParamsAgree(e)
  {
    if exists i :: 0 <= i < |e.path| && (e.path[i] == '*' || e.path[i] == '+') {
      return false;
    }
    if exists i :: 0 <= i < |e.path| && (e.path[i] == '?' || e.path[i] == '<') {
      return false;
    }
    for k := 0 to |names|
      invariant forall j :: 0 <= j < k ==> SegmentDeclared(e, names[j])
    {
      var prop := Lookup(e.parameters, names[k]);
      if prop.None? {
        return false;
      }
      if !prop.value.source.AutoSource? && !prop.value.source.PathSource? {
        return false;
      }
      if prop.value.alias != "" {
        return false;
      }
    }
    for i := 0 to |e.parameters|
      invariant forall j :: 0 <= j < i ==> ParamAgrees(e, e.parameters[j])
    {
      var p := e.parameters[i];
      var src := ResolveSource(p.name, p.prop, e.verb, names);
      if p.prop.source.PathSource? && p.name !in names {
        return false;
      }
      if (EqualFold(p.name, CLUSTER_ID) || EqualFold(p.name, ID)) && !src.PathSource? {
        return false;
      }
      if EqualFold(p.prop.alias, CLUSTER_ID) && !src.PathSource? && RunsClusterGate(e.permissions) {
        return false;
      }
    }
    return true;
  }

  // ---------------------------------------------------------------------------
  // Node names
  // ---------------------------------------------------------------------------

  predicate IsCheckedNodeParam(e: Endpoint, p: Param) {
    p.name !in e.nodesCheckedByHandler && HoldsNodeNames(p.prop)
  }

  function NamesOfChecked(e: Endpoint, params: seq<Param>): seq<string> {
    if params == [] then []
    else
      var last := params[|params| - 1];
      NamesOfChecked(e, params[..|params| - 1]) + if IsCheckedNodeParam(e, last) then [last.name] else []
  }

  /** The parameters whose node names `serve` checks, in name order. */
  function CheckedNodes(e: Endpoint): seq<string> {
    NamesOfChecked(e, e.parameters)
  }

  /** `checkedNodeParams`. */
  method CheckedNodeParams(e: Endpoint) returns (out: seq<string>)
    ensures out == CheckedNodes(e)
  {
    out := [];
    for i := 0 to |e.parameters|
      invariant out == NamesOfChecked(e, e.parameters[..i])
    {
      assert e.parameters[..i + 1][..i] == e.parameters[..i];
      var p := e.parameters[i];
      if p.name in e.nodesCheckedByHandler {
        continue;
      }
      if HoldsNodeNames(p.prop) {
        out := out + [p.name];
      }
    }
    assert e.parameters[..|e.parameters|] == e.parameters;
  }

  lemma {:induction false} CheckedAreListed(e: Endpoint, params: seq<Param>, i: nat)
    requires i < |params| && IsCheckedNodeParam(e, params[i])
    ensures params[i].name in NamesOfChecked(e, params)
  {
    if i == |params| - 1 {
    } else {
      CheckedAreListed(e, params[..|params| - 1], i);
    }
  }

  lemma {:induction false} ListedAreChecked(e: Endpoint, params: seq<Param>, name: string)
    requires name in NamesOfChecked(e, params)
    ensures exists i :: 0 <= i < |params| && params[i].name == name && IsCheckedNodeParam(e, params[i])
  {
    var front := params[..|params| - 1];
    if name in NamesOfChecked(e, front) {
      ListedAreChecked(e, front, name);
      var i :| 0 <= i < |front| && front[i].name == name && IsCheckedNodeParam(e, front[i]);
      assert params[i] == front[i];
    } else {
      assert params[|params| - 1].name == name;
    }
  }

  /** A parameter whose node names are to be checked needs a path that names the cluster to check them against. */
  predicate NodesAnchored(e: Endpoint) {
    forall i :: 0 <= i < |e.parameters| && IsCheckedNodeParam(e, e.parameters[i]) ==>
                  NamesACluster(PathNames(e.path), e.path)
  }

  method CheckNodes(e: Endpoint, names: seq<string>) returns (ok: bool)
    requires names == PathNames(e.path)
    ensures ok <==> NodesAnchored(e)
  {
    var nodes := CheckedNodeParams(e);
    if nodes != [] {
      ListedAreChecked(e, e.parameters, nodes[0]);
    }
    forall i | 0 <= i < |e.parameters| && IsCheckedNodeParam(e, e.parameters[i]) ensures nodes != [] {
      CheckedAreListed(e, e.parameters, i);
    }
    return |nodes| == 0 || NamesACluster(names, e.path);
  }

  /** An entry names a body parameter that holds node names, and says why. */
  predicate HandlerEntryOk(e: Endpoint, name: string)
    requires name in e.nodesCheckedByHandler
  {
    var prop := Lookup(e.parameters, name);
    && prop.Some? && HoldsNodeNames(prop.value)
    && ResolveSource(name, prop.value, e.verb, PathNames(e.path)).BodySource?
    && !IsBlankText(e.nodesCheckedByHandler[name])
  }

  predicate HandlerEntriesOk(e: Endpoint) {
    forall name :: name in e.nodesCheckedByHandler ==> HandlerEntryOk(e, name)
  }

  // ---------------------------------------------------------------------------
  // The rules, in the order they are asked
  // ---------------------------------------------------------------------------

  datatype Rule =
    | VerbIsKnown | PathHasPrefix | HasDescription | HasGroup | HasHandler
    | InteractiveSaysWhy | EndedSessionSaysWhy | InteractiveHasCaller
    | IsNew | PathAgreesWithSchema | PermissionsAreValid | HandlerNodesAreBody | NodesHaveACluster | SchemaCompiles

  function Key(e: Endpoint): string {
    e.verb + " " + e.path
  }

  predicate Keeps(e: Endpoint, seen: set<string>, r: Rule) {
    match r
    case VerbIsKnown => KnownMethod(e.verb)
    case PathHasPrefix => HasPrefix(e.path, PATH_PREFIX)
    case HasDescription => !IsBlankText(e.description)
    case HasGroup => !IsBlankText(e.group)
    case HasHandler => e.hasHandler
    case InteractiveSaysWhy => e.interactiveOnly == "" || !IsBlankText(e.interactiveOnly)
    case EndedSessionSaysWhy =>
      e.admitsEndedSession == "" || (e.interactiveOnly != "" && !IsBlankText(e.admitsEndedSession))
    case InteractiveHasCaller => e.interactiveOnly == "" || Authenticated(e.permissions)
    case IsNew => Key(e) !in seen
    case PathAgreesWithSchema => PathParamsAgree(e)
    case PermissionsAreValid => ValidPermissions(e.permissions, e.path, PathNames(e.path))
    case HandlerNodesAreBody => HandlerEntriesOk(e)
    case NodesHaveACluster => NodesAnchored(e)
    case SchemaCompiles => Compiles(e.parameters)
  }

  const TEXT_RULES: seq<Rule> := [VerbIsKnown, PathHasPrefix, HasDescription, HasGroup, HasHandler]
  const CALLER_RULES: seq<Rule> := [InteractiveSaysWhy, EndedSessionSaysWhy, InteractiveHasCaller, IsNew]
  const PATH_RULES: seq<Rule> := [PathAgreesWithSchema, PermissionsAreValid]
  const SCHEMA_RULES: seq<Rule> := [HandlerNodesAreBody, NodesHaveACluster, SchemaCompiles]

  /** Every rule, in the order they are asked. */
  const RULES: seq<Rule> := TEXT_RULES + CALLER_RULES + PATH_RULES + SCHEMA_RULES

  predicate FirstBroken(e: Endpoint, seen: set<string>, rules: seq<Rule>, k: nat)
    requires k < |rules|
  {
    !Keeps(e, seen, rules[k]) && forall j :: 0 <= j < k ==> Keeps(e, seen, rules[j])
  }

  /** The answer of a scan of these rules: the first one that is broken, or none when all are kept. */
  predicate Reports(e: Endpoint, seen: set<string>, rules: seq<Rule>, broken: Option<Rule>) {
    if broken.None? then forall k :: 0 <= k < |rules| ==> Keeps(e, seen, rules[k])
    else exists k :: 0 <= k < |rules| && rules[k] == broken.value && FirstBroken(e, seen, rules, k)
  }

  /** A scan has one answer. */
  lemma {:induction false} ReportsUnique(
    e: Endpoint, seen: set<string>, rules: seq<Rule>, a: Option<Rule>, b: Option<Rule>)
    requires Reports(e, seen, rules, a) && Reports(e, seen, rules, b)
    ensures a == b
  {}

  /** A scan in two parts. */
  lemma {:induction false} ReportsConcat(
    e: Endpoint, seen: set<string>, front: seq<Rule>, back: seq<Rule>, a: Option<Rule>, b: Option<Rule>)
    requires Reports(e, seen, front, a) && (a.None? ==> Reports(e, seen, back, b))
    ensures Reports(e, seen, front + back, if a.Some? then a else b)
  {
    if a.Some? {
      var k :| 0 <= k < |front| && front[k] == a.value && FirstBroken(e, seen, front, k);
      assert (front + back)[k] == a.value && FirstBroken(e, seen, front + back, k);
    } else if b.Some? {
      var k :| 0 <= k < |back| && back[k] == b.value && FirstBroken(e, seen, back, k);
      assert (front + back)[|front| + k] == b.value && FirstBroken(e, seen, front + back, |front| + k);
    }
  }

  lemma {:induction false} EveryRuleIsAsked(r: Rule)
    ensures r in RULES
  {
    assert r in TEXT_RULES || r in CALLER_RULES || r in PATH_RULES || r in SCHEMA_RULES by {
      assert TEXT_RULES[0] == VerbIsKnown && TEXT_RULES[1] == PathHasPrefix && TEXT_RULES[2] == HasDescription;
      assert TEXT_RULES[3] == HasGroup && TEXT_RULES[4] == HasHandler;
      assert CALLER_RULES[0] == InteractiveSaysWhy && CALLER_RULES[1] == EndedSessionSaysWhy;
      assert CALLER_RULES[2] == InteractiveHasCaller && CALLER_RULES[3] == IsNew;
      assert PATH_RULES[0] == PathAgreesWithSchema && PATH_RULES[1] == PermissionsAreValid;
      assert SCHEMA_RULES[0] == HandlerNodesAreBody && SCHEMA_RULES[1] == NodesHaveACluster;
      assert SCHEMA_RULES[2] == SchemaCompiles;
    }
  }

  /** A declaration a registry accepts, whatever else is registered under other keys. */
  ghost predicate Accepted(e: Endpoint) {
    forall r: Rule :: Keeps(e, {}, r)
  }

  lemma {:induction false} SeenOnlyMattersForKeys(e: Endpoint, seen: set<string>, r: Rule)
    ensures Keeps(e, seen, r) <==> Keeps(e, {}, r) && (r == IsNew ==> Key(e) !in seen)
  {}

  lemma {:induction false} NothingReported(e: Endpoint, seen: set<string>)
    ensures Reports(e, seen, RULES, None) <==> forall r: Rule :: Keeps(e, seen, r)
  {
    if Reports(e, seen, RULES, None) {
      forall r: Rule ensures Keeps(e, seen, r) {
        EveryRuleIsAsked(r);
        assert exists k :: 0 <= k < |RULES| && RULES[k] == r;
      }
    }
  }

  /** Nothing is reported exactly when every rule holds of the declaration and its key is new. */
  lemma {:induction false} AcceptedUnderNewKey(e: Endpoint, seen: set<string>)
    ensures Reports(e, seen, RULES, None) <==> Accepted(e) && Key(e) !in seen
  {
    NothingReported(e, seen);
    forall r: Rule ensures Keeps(e, seen, r) <==> Keeps(e, {}, r) && (r == IsNew ==> Key(e) !in seen) {
      SeenOnlyMattersForKeys(e, seen, r);
    }
    assert Keeps(e, seen, IsNew) <==> Key(e) !in seen;
  }

  function KeysOf(endpoints: seq<Endpoint>): set<string> {
    set i | 0 <= i < |endpoints| :: Key(endpoints[i])
  }

  /** The registry: declared endpoints in order, and the keys already taken. */
  class EndpointRegistry {
    var endpoints: seq<Endpoint>
    var seen: set<string>

    ghost predicate Valid()
      reads this
    {
      && seen == KeysOf(endpoints)
      && (forall i, j :: 0 <= i < j < |endpoints| ==> Key(endpoints[i]) != Key(endpoints[j]))
      && (forall i :: 0 <= i < |endpoints| ==> Accepted(endpoints[i]))
    }

    constructor ()
      ensures Valid() && endpoints == []
    {
      endpoints, seen := [], {};
    }

    method CheckTexts(e: Endpoint) returns (broken: Option<Rule>)
      ensures Reports(e, seen, TEXT_RULES, broken)
    {
      if !KnownMethod(e.verb) {
        assert FirstBroken(e, seen, TEXT_RULES, 0);
        return Some(VerbIsKnown);
      }
      if !HasPrefix(e.path, PATH_PREFIX) {
        assert FirstBroken(e, seen, TEXT_RULES, 1);
        return Some(PathHasPrefix);
      }
      if TrimSpace(e.description) == "" {
        assert FirstBroken(e, seen, TEXT_RULES, 2);
        return Some(HasDescription);
      }
      if TrimSpace(e.group) == "" {
        assert FirstBroken(e, seen, TEXT_RULES, 3);
        return Some(HasGroup);
      }
      if !e.hasHandler {
        assert FirstBroken(e, seen, TEXT_RULES, 4);
        return Some(HasHandler);
      }
      return None;
    }

    method CheckCaller(e: Endpoint) returns (broken: Option<Rule>)
      ensures Reports(e, seen, CALLER_RULES, broken)
    {
      if e.interactiveOnly != "" && TrimSpace(e.interactiveOnly) == "" {
        assert FirstBroken(e, seen, CALLER_RULES, 0);
        return Some(InteractiveSaysWhy);
      }
      if e.admitsEndedSession != "" && (e.interactiveOnly == "" || TrimSpace(e.admitsEndedSession) == "") {
        assert FirstBroken(e, seen, CALLER_RULES, 1);
        return Some(EndedSessionSaysWhy);
      }
      if e.interactiveOnly != "" && !Authenticated(e.permissions) {
        assert FirstBroken(e, seen, CALLER_RULES, 2);
        return Some(InteractiveHasCaller);
      }
      if Key(e) in seen {
        assert FirstBroken(e, seen, CALLER_RULES, 3);
        return Some(IsNew);
      }
      return None;
    }

    method CheckPathAndPermissions(e: Endpoint, names: seq<string>) returns (broken: Option<Rule>)
      requires names == PathNames(e.path)
      ensures Reports(e, seen, PATH_RULES, broken)
    {
      var agrees := CheckPathParams(e, names);
      if !agrees {
        assert FirstBroken(e, seen, PATH_RULES, 0);
        return Some(PathAgreesWithSchema);
      }
      var valid := ValidatePermissions(e.permissions, e.path, names);
      if !valid {
        assert FirstBroken(e, seen, PATH_RULES, 1);
        return Some(PermissionsAreValid);
      }
      return None;
    }

    method CheckNodesAndSchema(e: Endpoint, names: seq<string>) returns (broken: Option<Rule>)
      requires names == PathNames(e.path)
      ensures Reports(e, seen, SCHEMA_RULES, broken)
    {
      if !HandlerEntriesOk(e) {
        assert FirstBroken(e, seen, SCHEMA_RULES, 0);
        return Some(HandlerNodesAreBody);
      }
      var anchored := CheckNodes(e, names);
      if !anchored {
        assert FirstBroken(e, seen, SCHEMA_RULES, 1);
        return Some(NodesHaveACluster);
      }
      if !Compiles(e.parameters) {
        assert FirstBroken(e, seen, SCHEMA_RULES, 2);
        return Some(SchemaCompiles);
      }
      return None;
    }

    /** All the checks, in order. */
    method CheckRules(e: Endpoint) returns (broken: Option<Rule>)
      ensures Reports(e, seen, RULES, broken)
    {
      var first := CheckTexts(e);
      var second, third, fourth: Option<Rule> := None, None, None;
      if first.None? {
        second := CheckCaller(e);
      }
      broken := if first.Some? then first else second;
      ReportsConcat(e, seen, TEXT_RULES, CALLER_RULES, first, second);
      if broken.None? {
        var names := PathParamNames(e.path);
        third := CheckPathAndPermissions(e, names);
        if third.None? {
          fourth := CheckNodesAndSchema(e, names);
        }
      }
      ghost var upTo := TEXT_RULES + CALLER_RULES;
      ReportsConcat(e, seen, upTo, PATH_RULES, broken, third);
      broken := if broken.Some? then broken else third;
      ReportsConcat(e, seen, upTo + PATH_RULES, SCHEMA_RULES, broken, fourth);
      broken := if broken.Some? then broken else fourth;
    }

    /** `register`: refuses with the first broken rule and changes nothing, or records the endpoint. */
    method Register(e: Endpoint) returns (broken: Option<Rule>)
      requires Valid()
      modifies this
      ensures Valid()
      ensures Reports(e, old(seen), RULES, broken)
      ensures broken.None? <==> Accepted(e) && Key(e) !in old(seen)
      ensures broken.Some? ==> endpoints == old(endpoints) && seen == old(seen)
      ensures broken.None? ==> endpoints == old(endpoints) + [e] && seen == old(seen) + {Key(e)}
    {
      AcceptedUnderNewKey(e, seen);
      broken := CheckRules(e);
      if broken.Some? {
        NotNone(e, seen, broken);
        return;
      }
      KeysAppend(endpoints, e);
      seen := seen + {Key(e)};
      endpoints := endpoints + [e];
    }
  }

  lemma {:induction false} NotNone(e: Endpoint, seen: set<string>, broken: Option<Rule>)
    requires Reports(e, seen, RULES, broken) && broken.Some?
    ensures !Reports(e, seen, RULES, None)
  {}

  lemma {:induction false} KeysAppend(endpoints: seq<Endpoint>, e: Endpoint)
    ensures KeysOf(endpoints + [e]) == KeysOf(endpoints) + {Key(e)}
  {
    var all := endpoints + [e];
    forall k | k in KeysOf(endpoints) + {Key(e)} ensures k in KeysOf(all) {
      if k == Key(e) {
        assert all[|endpoints|] == e;
      } else {
        var i :| 0 <= i < |endpoints| && k == Key(endpoints[i]);
        assert all[i] == endpoints[i];
      }
    }
  }
}
