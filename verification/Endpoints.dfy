/**
 A declared endpoint: its path, its parameters and its permissions
 (`internal/api/registry.go`, `internal/api/permissions.go`), and the rules a
 declaration has to keep.

 Parameters are listed in name order, the order every loop over them visits. What a
 request supplies is in module GateAgreement.
 */
module Endpoints {
  import opened Options
  import opened Text
  import opened Uploads
  import opened DeclaredPath

  // ---------------------------------------------------------------------------
  // The data of a declaration
  // ---------------------------------------------------------------------------

  datatype Source = AutoSource | PathSource | QuerySource | BodySource

  datatype Kind = StringKind | IntegerKind | NumberKind | BooleanKind | ArrayKind | ObjectKind

  /** A parameter value: JSON null, a string, an array of scalars in string form, anything else. */
  datatype Value = Null | Str(text: string) | List(elems: seq<string>) | Scalar(code: int)

  /** The shape of an array's elements. */
  datatype Items = Items(kind: Kind, format: string, pattern: string)

  datatype Property = Property(
    kind: Kind, optional: bool, default: Option<Value>, format: string, pattern: string,
    alias: string, source: Source, items: Option<Items>)

  datatype Param = Param(name: string, prop: Property)

  datatype Scope = ClusterScope | GlobalScope | UnknownScope

  datatype Check = Check(action: string, resource: string, scope: Scope)

  datatype Advisory = Advisory(check: Check, reason: string)

  datatype Permissions = Permissions(
    check: Option<Check>, alternatives: seq<Check>, allOf: seq<Check>, deferred: string,
    advisory: Option<Advisory>, public: string, selfService: string)

  datatype Endpoint = Endpoint(
    verb: string, path: string, description: string, group: string, permissions: Permissions,
    interactiveOnly: string, admitsEndedSession: string, parameters: seq<Param>,
    hasRateLimiter: bool, hasHandler: bool, nodesCheckedByHandler: map<string, string>)

  const PATH_PREFIX := "/api/v1/"
  const LEGACY_CLUSTER_PREFIX := "/api/v1/clusters/:id"
  const CLUSTER_ID := "cluster_id"
  const ID := "id"
  const NODE_NAME := "node-name"
  const EMPTY_OR_NODE_NAME := "node-name-or-empty"

  predicate KnownMethod(verb: string) {
    verb in ["GET", "HEAD", "POST", "PUT", "PATCH", "DELETE", "OPTIONS"]
  }

  predicate IsBlankText(s: string) {
    TrimSpace(s) == ""
  }

  // ---------------------------------------------------------------------------
  // The path scanner
  // ---------------------------------------------------------------------------

  /** The end of the identifier run that starts at `i`. */
  function RunEnd(path: string, i: nat): (j: nat)
    requires i <= |path|
    ensures i <= j <= |path|
    ensures forall k :: i <= k < j ==> IsNameChar(path[k])
    ensures j < |path| ==> !IsNameChar(path[j])
    decreases |path| - i
  {
    if i < |path| && IsNameChar(path[i]) then RunEnd(path, i + 1) else i
  }

  /** A colon with an identifier right after it. */
  predicate NamesParam(path: string, i: nat) {
    i + 1 < |path| && path[i] == ':' && IsNameChar(path[i + 1])
  }

  /** The maximal identifier run after a colon. */
  function NameAt(path: string, i: nat): string
    requires NamesParam(path, i)
  {
    path[i + 1..RunEnd(path, i + 1)]
  }

  /** The placeholder names from `i` on, in order. */
  function NamesFrom(path: string, i: nat): seq<string>
    decreases |path| - i
  {
    if i >= |path| then []
    else if NamesParam(path, i) then [NameAt(path, i)] + NamesFrom(path, i + 1)
    else NamesFrom(path, i + 1)
  }

  /** A route's placeholder names, in order. */
  function PathNames(path: string): seq<string> {
    NamesFrom(path, 0)
  }

  lemma {:induction false} NoColonsInRun(path: string, i: nat, j: nat)
    requires i <= j <= |path| && forall k :: i <= k < j ==> path[k] != ':'
    ensures NamesFrom(path, i) == NamesFrom(path, j)
    decreases j - i
  {
    if i == j {
    } else {
      NoColonsInRun(path, i + 1, j);
    }
  }

  /** The scanning loop, which jumps past each name it reads, finds every placeholder and nothing else. */
  method PathParamNames(path: string) returns (out: seq<string>)
    ensures out == PathNames(path)
  {
    out := [];
    var i := 0;
    while i < |path|
      invariant 0 <= i <= |path|
      invariant out + NamesFrom(path, i) == PathNames(path)
      decreases |path| - i
    {
      if path[i] != ':' {
        i := i + 1;
        continue;
      }
      var j := i + 1;
      while j < |path| && IsNameChar(path[j])
        invariant i + 1 <= j <= |path|
        invariant RunEnd(path, i + 1) == RunEnd(path, j)
      {
        j := j + 1;
      }
      if j > i + 1 {
        out := out + [path[i + 1..j]];
      }
      NoColonsInRun(path, i + 1, j);
      i := j;
    }
  }

  /** `colons` are the positions of the named colons of `path[i..]`, in order. */
  ghost predicate ColonsOf(path: string, i: nat, colons: seq<nat>) {
    && (forall k :: 0 <= k < |colons| ==> i <= colons[k] && NamesParam(path, colons[k]))
    && (forall j, k :: 0 <= j < k < |colons| ==> colons[j] < colons[k])
    && (forall n: nat :: i <= n && NamesParam(path, n) ==> n in colons)
  }

  lemma {:induction false} ColonsStep(path: string, i: nat, rest: seq<nat>)
    requires ColonsOf(path, i + 1, rest)
    ensures ColonsOf(path, i, if NamesParam(path, i) then [i] + rest else rest)
  {
    var colons := if NamesParam(path, i) then [i] + rest else rest;
    forall n: nat | i <= n && NamesParam(path, n) ensures n in colons {
      if n != i {
        assert n in rest;
      }
    }
    forall j, k | 0 <= j < k < |colons| ensures colons[j] < colons[k] {
      if NamesParam(path, i) && j > 0 {
        assert rest[j - 1] < rest[k - 1];
      }
    }
  }

  function NamedColons(path: string, i: nat): (colons: seq<nat>)
    ensures forall k :: 0 <= k < |colons| ==> NamesParam(path, colons[k])
    decreases |path| - i
  {
    if i >= |path| then []
    else if NamesParam(path, i) then [i] + NamedColons(path, i + 1)
    else NamedColons(path, i + 1)
  }

  /** Every named colon is listed, in order, and nothing else. */
  lemma {:induction false} NamedColonsExact(path: string, i: nat)
    ensures ColonsOf(path, i, NamedColons(path, i))
    decreases |path| - i
  {
    if i >= |path| {
    } else {
      NamedColonsExact(path, i + 1);
      ColonsStep(path, i, NamedColons(path, i + 1));
    }
  }

  /** The names are the maximal identifier runs after each colon, one per colon and in order. */
  lemma {:induction false} NamesExact(path: string, i: nat)
    ensures |NamesFrom(path, i)| == |NamedColons(path, i)|
    ensures forall k :: 0 <= k < |NamedColons(path, i)| ==>
              NamesFrom(path, i)[k] == NameAt(path, NamedColons(path, i)[k])
    decreases |path| - i
  {
    if i >= |path| {
    } else {
      NamesExact(path, i + 1);
    }
  }

  // ---------------------------------------------------------------------------
  // Which cluster a path names
  // ---------------------------------------------------------------------------

  /** `namesACluster`. */
  predicate NamesACluster(names: seq<string>, path: string) {
    if names != [] && EqualFold(names[0], CLUSTER_ID) then true
    else
      && HasPrefix(Lower(path), LEGACY_CLUSTER_PREFIX)
      && (var rest := path[|LEGACY_CLUSTER_PREFIX|..]; rest == "" || rest[0] == '/')
      && forall k :: 0 <= k < |names| ==> !EqualFold(names[k], CLUSTER_ID)
  }

  // ---------------------------------------------------------------------------
  // Permissions
  // ---------------------------------------------------------------------------

  predicate Authenticated(p: Permissions) {
    p.public == ""
  }

  /** `setFields`: the names of the fields a declaration populates. */
  method SetFields(p: Permissions) returns (fields: seq<string>)
    ensures |fields| == ShapesDeclared(p)
    ensures forall name :: name in fields <==> Declares(p, name)
  {
    fields := GateFields(p);
    if p.deferred != "" { fields := fields + ["Deferred"]; }
    if p.advisory.Some? { fields := fields + ["Advisory"]; }
    if p.public != "" { fields := fields + ["Public"]; }
    if p.selfService != "" { fields := fields + ["SelfService"]; }
  }

  /** Its first three tests: the shapes that install a gate. */
  method GateFields(p: Permissions) returns (fields: seq<string>)
    ensures |fields| == Count(p.check.Some?) + Count(p.alternatives != []) + Count(p.allOf != [])
    ensures forall name :: name in fields <==> DeclaresGate(p, name)
  {
    fields := [];
    if p.check.Some? { fields := fields + ["Check"]; }
    if p.alternatives != [] { fields := fields + ["Alternatives"]; }
    if p.allOf != [] { fields := fields + ["AllOf"]; }
  }

  predicate DeclaresGate(p: Permissions, field: string) {
    || (field == "Check" && p.check.Some?)
    || (field == "Alternatives" && p.alternatives != [])
    || (field == "AllOf" && p.allOf != [])
  }

  /** The declaration populates the field of this name. */
  predicate Declares(p: Permissions, field: string) {
    || DeclaresGate(p, field)
    || (field == "Deferred" && p.deferred != "")
    || (field == "Advisory" && p.advisory.Some?)
    || (field == "Public" && p.public != "")
    || (field == "SelfService" && p.selfService != "")
  }

  function Count(b: bool): nat {
    if b then 1 else 0
  }

  function ShapesDeclared(p: Permissions): nat {
    Count(p.check.Some?) + Count(p.alternatives != []) + Count(p.allOf != []) + Count(p.deferred != "") +
    Count(p.advisory.Some?) + Count(p.public != "") + Count(p.selfService != "")
  }

  predicate ValidVocabulary(c: Check) {
    !IsBlankText(c.action) && !IsBlankText(c.resource) && !c.scope.UnknownScope?
  }

  /** `validateCheck`: a gate that resolves a cluster needs a path that names one. */
  predicate ValidCheck(c: Check, path: string, names: seq<string>) {
    ValidVocabulary(c) && (c.scope.ClusterScope? ==> NamesACluster(names, path))
  }

  predicate ValidChecks(checks: seq<Check>, path: string, names: seq<string>) {
    |checks| >= 2 && forall k :: 0 <= k < |checks| ==> ValidCheck(checks[k], path, names)
  }

  /** `Permissions.validate`: one shape, and that shape well-formed. */
  predicate ValidPermissions(p: Permissions, path: string, names: seq<string>) {
    && ShapesDeclared(p) == 1
    && (if p.check.Some? then ValidCheck(p.check.value, path, names)
        else if p.alternatives != [] then ValidChecks(p.alternatives, path, names)
        else if p.allOf != [] then ValidChecks(p.allOf, path, names)
        else if p.advisory.Some? then !IsBlankText(p.advisory.value.reason) && ValidVocabulary(p.advisory.value.check)
        else if p.deferred != "" then !IsBlankText(p.deferred)
        else if p.public != "" then !IsBlankText(p.public)
        else !IsBlankText(p.selfService))
  }

  /** The loop over the checks of Alternatives or AllOf. */
  method ValidateChecks(checks: seq<Check>, path: string, names: seq<string>) returns (ok: bool)
    ensures ok <==> ValidChecks(checks, path, names)
  {
    if |checks| < 2 {
      return false;
    }
    for i := 0 to |checks|
      invariant forall k :: 0 <= k < i ==> ValidCheck(checks[k], path, names)
    {
      if !ValidCheck(checks[i], path, names) {
        return false;
      }
    }
    return true;
  }

  method ValidatePermissions(p: Permissions, path: string, names: seq<string>) returns (ok: bool)
    ensures ok <==> ValidPermissions(p, path, names)
  {
    var fields := SetFields(p);
    if |fields| != 1 {
      return false;
    }
    if p.check.Some? {
      return ValidCheck(p.check.value, path, names);
    } else if |p.alternatives| > 0 {
      ok := ValidateChecks(p.alternatives, path, names);
    } else if |p.allOf| > 0 {
      ok := ValidateChecks(p.allOf, path, names);
    } else if p.advisory.Some? {
      return !IsBlankText(p.advisory.value.reason) && ValidVocabulary(p.advisory.value.check);
    } else if p.deferred != "" {
      return !IsBlankText(p.deferred);
    } else if p.public != "" {
      return !IsBlankText(p.public);
    } else {
      return !IsBlankText(p.selfService);
    }
  }

  /** `runsClusterGate`. */
  predicate RunsClusterGate(p: Permissions) {
    || (p.check.Some? && p.check.value.scope.ClusterScope?)
    || (exists k :: 0 <= k < |p.alternatives| && p.alternatives[k].scope.ClusterScope?)
    || (exists k :: 0 <= k < |p.allOf| && p.allOf[k].scope.ClusterScope?)
  }

  /** A cluster gate is only ever declared on a path that names the cluster it acts on. */
  lemma {:induction false} ClusterGateHasCluster(p: Permissions, path: string, names: seq<string>)
    requires ValidPermissions(p, path, names) && RunsClusterGate(p)
    ensures NamesACluster(names, path)
  {
    assert p.check.Some? ==> p.alternatives == [] && p.allOf == [];
    assert p.alternatives != [] ==> p.allOf == [];
  }

  // ---------------------------------------------------------------------------
  // Parameters
  // ---------------------------------------------------------------------------

  /** `ResolveSource`: an explicit source, then the path, then the query or the body by method. */
  function ResolveSource(name: string, p: Property, verb: string, names: seq<string>): Source {
    if !p.source.AutoSource? then p.source
    else if name in names then PathSource
    else if verb in ["GET", "HEAD", "DELETE", "OPTIONS"] then QuerySource
    else BodySource
  }

  function SourceOf(e: Endpoint, p: Param): Source {
    ResolveSource(p.name, p.prop, e.verb, PathNames(e.path))
  }

  predicate IsGateName(name: string) {
    EqualFold(name, CLUSTER_ID) || EqualFold(name, ID)
  }

  predicate IsNodeName(format: string, pattern: string) {
    format == NODE_NAME || pattern == EMPTY_OR_NODE_NAME
  }

  /** `holdsNodeNames`: one node name, or one per element. */
  predicate HoldsNodeNames(p: Property) {
    if p.kind.ArrayKind? && p.items.Some? then IsNodeName(p.items.value.format, p.items.value.pattern)
    else IsNodeName(p.format, p.pattern)
  }

  /** The parts of a schema's own rules the models rest on: distinct wire names, facets only where they apply. */
  predicate CompilesProperty(p: Property) {
    && (p.kind.StringKind? || (p.format == "" && p.pattern == ""))
    && (p.kind.ArrayKind? <==> p.items.Some?)
    && (p.items.Some? ==> p.items.value.kind.StringKind? || (p.items.value.format == "" && p.items.value.pattern == ""))
    && (p.default.Some? ==> p.optional)
  }

  predicate Compiles(params: seq<Param>) {
    && (forall i :: 0 <= i < |params| ==> params[i].name != "" && CompilesProperty(params[i].prop))
    && (forall i, j :: 0 <= i < j < |params| ==> params[i].name != params[j].name)
    && (forall i, j :: 0 <= i < |params| && 0 <= j < |params| && params[i].prop.alias != "" ==>
          params[i].prop.alias != params[j].name && (i != j ==> params[i].prop.alias != params[j].prop.alias))
  }

  function Lookup(params: seq<Param>, name: string): Option<Property> {
    if params == [] then None
    else if params[0].name == name then Some(params[0].prop)
    else Lookup(params[1..], name)
  }

  lemma {:induction false} LookupFinds(params: seq<Param>, name: string)
    ensures Lookup(params, name).Some? <==> exists i :: 0 <= i < |params| && params[i].name == name
    ensures Lookup(params, name).Some? ==> Param(name, Lookup(params, name).value) in params
  {
    if params == [] || params[0].name == name {
    } else {
      LookupFinds(params[1..], name);
      if Lookup(params[1..], name).Some? {
        var i :| 0 <= i < |params[1..]| && params[1..][i].name == name;
        assert params[i + 1].name == name;
      }
      if i :| 0 <= i < |params| && params[i].name == name {
        assert params[1..][i - 1].name == name;
      }
    }
  }
}
