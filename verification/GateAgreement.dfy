/**
 What the permission gate and the handler of an accepted endpoint read from one request:
 the gate resolves its cluster from the path (`clusterIDFromParam`), the handler gets
 validated parameters (`extract`, `Validate`, `serve`). A property's own rules (type,
 format, bounds) are the parameter `check`: the value they turn an input into, if any.
 */
module GateAgreement {
  import opened Options
  import opened Text
  import opened Uploads
  import opened DeclaredPath
  import opened Endpoints
  import opened Registry

  /** A request the router matched: one segment per placeholder, a query and a decoded body. */
  datatype Request = Request(values: seq<string>, query: map<string, Value>, body: map<string, Value>)

  /** No placeholder of an accepted path is optional, so no segment is empty. */
  predicate Routed(e: Endpoint, req: Request) {
    |req.values| == |PathNames(e.path)| && forall k :: 0 <= k < |req.values| ==> req.values[k] != ""
  }

  type Checker = (Property, Value) -> Option<Value>

  // ---------------------------------------------------------------------------
  // The gate's side
  // ---------------------------------------------------------------------------

  /** The router's parameter lookup: the first placeholder of that name, letter case ignored. */
  function PathValue(names: seq<string>, values: seq<string>, key: string): string
    requires |names| == |values|
  {
    if names == [] then "" else if EqualFold(names[0], key) then values[0] else PathValue(names[1..], values[1..], key)
  }

  /** `clusterIDFromParam`: cluster_id, else id. */
  function GateCluster(e: Endpoint, req: Request): string
    requires Routed(e, req)
  {
    var names := PathNames(e.path);
    var raw := PathValue(names, req.values, CLUSTER_ID);
    if raw == "" then PathValue(names, req.values, ID) else raw
  }

  // ---------------------------------------------------------------------------
  // The handler's side
  // ---------------------------------------------------------------------------

  function ReadFrom(e: Endpoint, req: Request, src: Source, key: string): Option<Value>
    requires Routed(e, req)
  {
    match src
    case PathSource =>
      var v := PathValue(PathNames(e.path), req.values, key);
      if v == "" then None else Some(Str(v))
    case QuerySource => if key in req.query then Some(req.query[key]) else None
    case BodySource => if key in req.body then Some(req.body[key]) else None
    case AutoSource => None
  }

  function Present(v: Option<Value>): bool {
    v.Some? && !v.value.Null?
  }

  predicate Answers(p: Param, key: string) {
    p.name == key || (p.prop.alias != "" && p.prop.alias == key)
  }

  /** A declared parameter sent to a place it is not read from. */
  predicate Misplaced(e: Endpoint, req: Request) {
    exists i, key ::
      0 <= i < |e.parameters| && key in req.query.Keys + req.body.Keys && Answers(e.parameters[i], key) &&
      ((key in req.query && !SourceOf(e, e.parameters[i]).QuerySource?) ||
       (key in req.body && !SourceOf(e, e.parameters[i]).BodySource?))
  }

  predicate HasUnknown(e: Endpoint, req: Request) {
    exists key :: key in req.query.Keys + req.body.Keys &&
                  !exists i :: 0 <= i < |e.parameters| && Answers(e.parameters[i], key)
  }

  function ByName(e: Endpoint, req: Request, p: Param): Option<Value>
    requires Routed(e, req)
  {
    ReadFrom(e, req, SourceOf(e, p), p.name)
  }

  function ByAlias(e: Endpoint, req: Request, p: Param): Option<Value>
    requires Routed(e, req)
  {
    if p.prop.alias == "" then None else ReadFrom(e, req, SourceOf(e, p), p.prop.alias)
  }

  /** What the request supplies for a parameter, under its name or its alias. */
  function Supplied(e: Endpoint, req: Request, p: Param): Option<Value>
    requires Routed(e, req)
  {
    if Present(ByName(e, req, p)) then ByName(e, req, p)
    else if Present(ByAlias(e, req, p)) then ByAlias(e, req, p)
    else None
  }

  /** What the handler reads for it: the supplied value or the default, through the property's rules. */
  function Received(e: Endpoint, req: Request, p: Param, check: Checker): Option<Value>
    requires Routed(e, req)
  {
    var raw := Supplied(e, req, p);
    if raw.Some? then check(p.prop, raw.value)
    else if p.prop.default.Some? then check(p.prop, p.prop.default.value)
    else None
  }

  /** Extraction and validation accept the request. */
  predicate Validates(e: Endpoint, req: Request, check: Checker)
    requires Routed(e, req)
  {
    && !Misplaced(e, req) && !HasUnknown(e, req)
    && forall i :: 0 <= i < |e.parameters| ==>
         var p := e.parameters[i];
         && !(Present(ByName(e, req, p)) && Present(ByAlias(e, req, p)))
         && (Supplied(e, req, p).None? ==> p.prop.optional)
         && (Supplied(e, req, p).Some? || p.prop.default.Some? ==> Received(e, req, p, check).Some?)
  }

  // ---------------------------------------------------------------------------
  // The cluster anchor
  // ---------------------------------------------------------------------------

  lemma {:induction false} SameKey(names: seq<string>, values: seq<string>, a: string, b: string)
    requires |names| == |values| && EqualFold(a, b)
    ensures PathValue(names, values, a) == PathValue(names, values, b)
  {
    if names == [] {
    } else {
      SameKey(names[1..], values[1..], a, b);
    }
  }

  lemma {:induction false} NoSuchKey(names: seq<string>, values: seq<string>, key: string)
    requires |names| == |values| && forall k :: 0 <= k < |names| ==> !EqualFold(names[k], key)
    ensures PathValue(names, values, key) == ""
  {
    if names == [] {
    } else {
      NoSuchKey(names[1..], values[1..], key);
    }
  }

  /** On the legacy routes the first placeholder is :id, however it is cased. */
  lemma {:induction false} LegacyFirstName(path: string)
    requires HasPrefix(Lower(path), LEGACY_CLUSTER_PREFIX)
    requires |path| == |LEGACY_CLUSTER_PREFIX| || path[|LEGACY_CLUSTER_PREFIX|] == '/'
    ensures PathNames(path) != [] && EqualFold(PathNames(path)[0], ID)
  {
    var n := |LEGACY_CLUSTER_PREFIX|;
    assert n == 20;
    forall k | 0 <= k < n ensures LowerChar(path[k]) == LEGACY_CLUSTER_PREFIX[k] {
      assert Lower(path)[..n][k] == Lower(path)[k];
    }
    LegacyColon(path);
    NoColonsInRun(path, 0, 17);
    assert NamesParam(path, 17);
    assert RunEnd(path, 18) == 20 by {
      assert RunEnd(path, 20) == 20;
      assert RunEnd(path, 19) == 20;
    }
    var name := NameAt(path, 17);
    assert name == path[18..20] && Lower(name) == "id" == Lower(ID);
  }

  lemma {:induction false} LegacyColon(path: string)
    requires |path| >= 20 && forall k :: 0 <= k < 20 ==> LowerChar(path[k]) == LEGACY_CLUSTER_PREFIX[k]
    ensures forall k :: 0 <= k < 17 ==> path[k] != ':'
    ensures path[17] == ':' && IsNameChar(path[18]) && IsNameChar(path[19])
    ensures LowerChar(path[18]) == 'i' && LowerChar(path[19]) == 'd'
  {
    assert LowerChar(path[17]) == ':' && LowerChar(path[18]) == 'i' && LowerChar(path[19]) == 'd';
    assert forall k :: 0 <= k < 17 ==> LEGACY_CLUSTER_PREFIX[k] != ':';
    assert LowerChar(':') == ':';
  }

  /**
   Whenever a path names a cluster, the gate's two-name lookup resolves to the first
   placeholder, whatever the segments hold.
   */
  lemma {:induction false} GateReadsFirstPlaceholder(e: Endpoint, req: Request)
    requires NamesACluster(PathNames(e.path), e.path) && Routed(e, req)
    ensures req.values != [] && GateCluster(e, req) == req.values[0]
    ensures EqualFold(PathNames(e.path)[0], CLUSTER_ID) || EqualFold(PathNames(e.path)[0], ID)
  {
    var names := PathNames(e.path);
    if names == [] || !EqualFold(names[0], CLUSTER_ID) {
      LegacyFirstName(e.path);
      NoSuchKey(names, req.values, CLUSTER_ID);
    }
  }

  // ---------------------------------------------------------------------------
  // Gate and handler agree
  // ---------------------------------------------------------------------------

  /** What the registry's rules say of one parameter. */
  lemma {:induction false} AcceptedParam(e: Endpoint, i: nat)
    requires Accepted(e) && i < |e.parameters|
    ensures ParamAgrees(e, e.parameters[i])
    ensures SourceOf(e, e.parameters[i]).PathSource? ==>
              e.parameters[i].name in PathNames(e.path) && e.parameters[i].prop.alias == ""
  {
    assert Keeps(e, {}, PathAgreesWithSchema) && Keeps(e, {}, SchemaCompiles);
    var p, names := e.parameters[i], PathNames(e.path);
    if SourceOf(e, p).PathSource? {
      var k :| 0 <= k < |names| && names[k] == p.name;
      assert SegmentDeclared(e, names[k]);
      LookupIsTheParam(e.parameters, i);
    }
  }

  lemma {:induction false} LookupIsTheParam(params: seq<Param>, i: nat)
    requires Compiles(params) && i < |params|
    ensures Lookup(params, params[i].name) == Some(params[i].prop)
  {
    LookupFinds(params, params[i].name);
    var found := Param(params[i].name, Lookup(params, params[i].name).value);
    var j :| 0 <= j < |params| && params[j] == found;
    assert params[j].name == params[i].name;
  }

  lemma {:induction false} AcceptedGate(e: Endpoint)
    requires Accepted(e) && RunsClusterGate(e.permissions)
    ensures NamesACluster(PathNames(e.path), e.path)
  {
    assert Keeps(e, {}, PermissionsAreValid);
    ClusterGateHasCluster(e.permissions, e.path, PathNames(e.path));
  }

  /** A parameter that claims to be the cluster: by its name, by its alias, or :id where :id is the cluster. */
  predicate ClaimsCluster(e: Endpoint, p: Param) {
    || EqualFold(p.name, CLUSTER_ID)
    || EqualFold(p.prop.alias, CLUSTER_ID)
    || (EqualFold(p.name, ID) && PathNames(e.path) != [] && EqualFold(PathNames(e.path)[0], ID))
  }

  /**
   For every accepted endpoint with a cluster gate and every request: whatever parameter
   claims to be the cluster reaches the handler with the very segment the gate authorized.
   */
  lemma {:induction false} GateAndHandlerAgree(e: Endpoint, req: Request, check: Checker, i: nat)
    requires Accepted(e) && RunsClusterGate(e.permissions) && Routed(e, req) && i < |e.parameters|
    requires ClaimsCluster(e, e.parameters[i])
    ensures Received(e, req, e.parameters[i], check) == check(e.parameters[i].prop, Str(GateCluster(e, req)))
  {
    var p, names := e.parameters[i], PathNames(e.path);
    AcceptedGate(e);
    AcceptedParam(e, i);
    GateReadsFirstPlaceholder(e, req);
    assert SourceOf(e, p).PathSource?;
    assert !EqualFold(p.prop.alias, CLUSTER_ID);
    if EqualFold(p.name, CLUSTER_ID) {
      FirstIsCluster(names, e.path, p.name);
    }
    assert EqualFold(names[0], p.name);
    assert PathValue(names, req.values, p.name) == req.values[0];
  }

  /** A path with a :cluster_id anywhere names its cluster only by having it first. */
  lemma {:induction false} FirstIsCluster(names: seq<string>, path: string, name: string)
    requires NamesACluster(names, path) && name in names && EqualFold(name, CLUSTER_ID)
    ensures EqualFold(names[0], CLUSTER_ID)
  {}

  // ---------------------------------------------------------------------------
  // Node names reach the handler only from the path's own cluster
  // ---------------------------------------------------------------------------

  /** The texts a value holds. */
  function Texts(v: Option<Value>): seq<string> {
    if v.None? then [] else match v.value
      case Str(text) => [text]
      case List(elems) => elems
      case _ => []
  }

  function NonEmpty(texts: seq<string>): seq<string> {
    if texts == [] then [] else (if texts[0] == "" then [] else [texts[0]]) + NonEmpty(texts[1..])
  }

  lemma {:induction false} NonEmptyExact(texts: seq<string>, t: string)
    ensures t in NonEmpty(texts) <==> t in texts && t != ""
  {
    if texts == [] {
    } else {
      NonEmptyExact(texts[1..], t);
    }
  }

  lemma {:induction false} NonEmptyAppend(texts: seq<string>, t: string)
    ensures NonEmpty(texts + [t]) == NonEmpty(texts) + if t == "" then [] else [t]
  {
    if texts == [] {
      assert (texts + [t])[1..] == [];
    } else {
      assert (texts + [t])[1..] == texts[1..] + [t];
      NonEmptyAppend(texts[1..], t);
    }
  }

  /** The parameters a handler is called with, read by name. */
  function ReceivedUnder(e: Endpoint, req: Request, check: Checker, name: string): Option<Value>
    requires Routed(e, req)
  {
    var prop := Lookup(e.parameters, name);
    if prop.Some? then Received(e, req, Param(name, prop.value), check) else None
  }

  /** `t` is a node name the handler can read under one of these names. */
  predicate Names(e: Endpoint, req: Request, check: Checker, names: seq<string>, t: string)
    requires Routed(e, req)
  {
    t != "" && exists k :: 0 <= k < |names| && t in Texts(ReceivedUnder(e, req, check, names[k]))
  }

  /** Its inner loop, over the elements of one value. */
  method WithoutEmpty(values: seq<string>) returns (out: seq<string>)
    ensures out == NonEmpty(values)
  {
    out := [];
    for j := 0 to |values|
      invariant out == NonEmpty(values[..j])
    {
      assert values[..j + 1] == values[..j] + [values[j]];
      NonEmptyAppend(values[..j], values[j]);
      if values[j] != "" {
        out := out + [values[j]];
      }
    }
    assert values[..|values|] == values;
  }

  /** `namedNodes`: the non-empty node names the handler can read, array elements and defaults included. */
  method NamedNodes(e: Endpoint, req: Request, check: Checker, names: seq<string>) returns (out: seq<string>)
    requires Routed(e, req)
    ensures forall t :: t in out <==> Names(e, req, check, names, t)
  {
    out := [];
    for i := 0 to |names|
      invariant forall t :: t in out <==> Names(e, req, check, names[..i], t)
    {
      var values := Texts(ReceivedUnder(e, req, check, names[i]));
      var named := WithoutEmpty(values);
      out := out + named;
      forall t ensures t in out <==> Names(e, req, check, names[..i + 1], t) {
        NonEmptyExact(values, t);
        NamesStep(e, req, check, names, i, t);
      }
    }
    assert names[..|names|] == names;
  }

  lemma {:induction false} NamesStep(e: Endpoint, req: Request, check: Checker, names: seq<string>, i: nat, t: string)
    requires Routed(e, req) && i < |names|
    ensures Names(e, req, check, names[..i + 1], t) <==>
            Names(e, req, check, names[..i], t) || (t != "" && t in Texts(ReceivedUnder(e, req, check, names[i])))
  {
    var shorter, longer := names[..i], names[..i + 1];
    assert longer == shorter + [names[i]];
    if Names(e, req, check, shorter, t) {
      var k :| 0 <= k < |shorter| && t in Texts(ReceivedUnder(e, req, check, shorter[k]));
      assert longer[k] == shorter[k];
    }
    if t in Texts(ReceivedUnder(e, req, check, names[i])) {
      assert longer[i] == names[i];
    }
  }

  /** The node table: which cluster ids parse, and which nodes each cluster has. */
  datatype Directory = Directory(parses: string -> bool, member: (string, string) -> bool)

  /** `serve`: validate, refuse a node the cluster does not hold, then call. */
  method Serve(e: Endpoint, req: Request, check: Checker, dir: Directory) returns (called: bool)
    requires Routed(e, req)
    ensures called <==> HandlerCalled(e, req, check, dir)
  {
    var names := CheckedNodeParams(e);
    if !Validates(e, req, check) {
      return false;
    }
    if |names| == 0 {
      return true;
    }
    var nodes := NamedNodes(e, req, check, names);
    if |nodes| == 0 {
      return true;
    }
    var cluster := GateCluster(e, req);
    assert nodes[0] in nodes;
    if !dir.parses(cluster) {
      return false;
    }
    for k := 0 to |nodes|
      invariant forall j :: 0 <= j < k ==> dir.member(cluster, nodes[j])
    {
      if !dir.member(cluster, nodes[k]) {
        assert nodes[k] in nodes;
        return false;
      }
    }
    return true;
  }

  /** The request is valid and every node name it gives the handler is one of the cluster's. */
  ghost predicate HandlerCalled(e: Endpoint, req: Request, check: Checker, dir: Directory)
    requires Routed(e, req)
  {
    && Validates(e, req, check)
    && forall t :: Names(e, req, check, CheckedNodes(e), t) ==>
         dir.parses(GateCluster(e, req)) && dir.member(GateCluster(e, req), t)
  }

  /**
   For every accepted endpoint and every request that reaches its handler: a node name
   the handler receives is a node of the cluster the path names, unless the endpoint
   lists that parameter as its handler's own, in which case it is a body parameter and
   the declaration says why.
   */
  lemma {:induction false} NodesBelongToThePathCluster(
    e: Endpoint, req: Request, check: Checker, dir: Directory, i: nat)
    requires Accepted(e) && Routed(e, req) && HandlerCalled(e, req, check, dir)
    requires i < |e.parameters| && HoldsNodeNames(e.parameters[i].prop)
    ensures var p := e.parameters[i];
            if p.name in e.nodesCheckedByHandler
            then SourceOf(e, p).BodySource? && !IsBlankText(e.nodesCheckedByHandler[p.name])
            else req.values != [] &&
                 forall t :: t in Texts(Received(e, req, p, check)) && t != "" ==> dir.member(req.values[0], t)
  {
    assert Keeps(e, {}, HandlerNodesAreBody) && Keeps(e, {}, NodesHaveACluster) && Keeps(e, {}, SchemaCompiles);
    var p := e.parameters[i];
    LookupIsTheParam(e.parameters, i);
    if p.name in e.nodesCheckedByHandler {
      assert HandlerEntryOk(e, p.name);
    } else {
      CheckedAreListed(e, e.parameters, i);
      GateReadsFirstPlaceholder(e, req);
      assert p == Param(p.name, p.prop);
      forall t | t in Texts(Received(e, req, p, check)) && t != "" ensures dir.member(req.values[0], t) {
        var k :| 0 <= k < |CheckedNodes(e)| && CheckedNodes(e)[k] == p.name;
        assert Names(e, req, check, CheckedNodes(e), t);
      }
    }
  }

  // ---------------------------------------------------------------------------
  // Outside the path the caller chooses
  // ---------------------------------------------------------------------------

  function With(fields: map<string, Value>, p: Param, v: string): map<string, Value> {
    (fields - {p.prop.alias})[p.name := Str(v)]
  }

  /** The request with `v` sent for a parameter that is read from the body or the query. */
  function Sending(e: Endpoint, req: Request, p: Param, v: string): Request {
    if SourceOf(e, p).BodySource? then req.(body := With(req.body, p, v)) else req.(query := With(req.query, p, v))
  }

  /** A parameter the caller supplies outside the path. */
  predicate CallerSupplied(e: Endpoint, i: nat) {
    && Compiles(e.parameters) && i < |e.parameters|
    && (SourceOf(e, e.parameters[i]).BodySource? || SourceOf(e, e.parameters[i]).QuerySource?)
  }

  lemma {:induction false} OthersAreSentAsBefore(e: Endpoint, req: Request, i: nat, v: string, j: nat)
    requires CallerSupplied(e, i) && Routed(e, req) && j < |e.parameters| && j != i
    ensures var req', p := Sending(e, req, e.parameters[i], v), e.parameters[j];
            Routed(e, req') && ByName(e, req', p) == ByName(e, req, p) && ByAlias(e, req', p) == ByAlias(e, req, p)
  {
    var own, p := e.parameters[i], e.parameters[j];
    assert p.name != own.name && p.name != own.prop.alias;
    assert p.prop.alias != "" ==> p.prop.alias != own.name && p.prop.alias != own.prop.alias;
  }

  lemma {:induction false} OwnValueIsSent(e: Endpoint, req: Request, i: nat, v: string)
    requires CallerSupplied(e, i) && Routed(e, req)
    ensures var req', p := Sending(e, req, e.parameters[i], v), e.parameters[i];
            Routed(e, req') && ByName(e, req', p) == Some(Str(v)) && ByAlias(e, req', p) == None
  {
    assert e.parameters[i].prop.alias != "" ==> e.parameters[i].prop.alias != e.parameters[i].name;
  }

  /** Only the parameter itself answers to its name. */
  lemma {:induction false} OneAnswers(params: seq<Param>, i: nat, j: nat)
    requires Compiles(params) && i < |params| && j < |params| && Answers(params[j], params[i].name)
    ensures i == j
  {
    assert params[j].prop.alias != "" ==> params[j].prop.alias != params[i].name;
  }

  lemma {:induction false} NothingIsMisplaced(e: Endpoint, req: Request, i: nat, v: string)
    requires CallerSupplied(e, i) && !Misplaced(e, req) && !HasUnknown(e, req)
    ensures var req' := Sending(e, req, e.parameters[i], v); !Misplaced(e, req') && !HasUnknown(e, req')
  {
    var p := e.parameters[i];
    var req' := Sending(e, req, p, v);
    assert forall key :: key in req'.query.Keys + req'.body.Keys ==>
                           key == p.name || key in req.query.Keys + req.body.Keys;
    assert Answers(p, p.name);
    forall j, key | 0 <= j < |e.parameters| && key in req'.query.Keys + req'.body.Keys && Answers(e.parameters[j], key)
      ensures key in req'.query ==> SourceOf(e, e.parameters[j]).QuerySource?
      ensures key in req'.body ==> SourceOf(e, e.parameters[j]).BodySource?
    {
      if key == p.name {
        OneAnswers(e.parameters, i, j);
      }
    }
  }

  lemma {:induction false} StillValidates(e: Endpoint, req: Request, check: Checker, i: nat, v: string)
    requires CallerSupplied(e, i) && Routed(e, req) && Validates(e, req, check)
    requires check(e.parameters[i].prop, Str(v)).Some?
    ensures var req' := Sending(e, req, e.parameters[i], v); Routed(e, req') && Validates(e, req', check)
  {
    NothingIsMisplaced(e, req, i, v);
    OwnValueIsSent(e, req, i, v);
    var req' := Sending(e, req, e.parameters[i], v);
    forall j | 0 <= j < |e.parameters|
      ensures var p := e.parameters[j];
              && !(Present(ByName(e, req', p)) && Present(ByAlias(e, req', p)))
              && (Supplied(e, req', p).None? ==> p.prop.optional)
              && (Supplied(e, req', p).Some? || p.prop.default.Some? ==> Received(e, req', p, check).Some?)
    {
      if j != i {
        OthersAreSentAsBefore(e, req, i, v, j);
      }
    }
  }

  lemma {:induction false} ReceivedAsBefore(e: Endpoint, req: Request, check: Checker, i: nat, v: string, j: nat)
    requires CallerSupplied(e, i) && Routed(e, req) && j < |e.parameters| && j != i
    ensures var req', name := Sending(e, req, e.parameters[i], v), e.parameters[j].name;
            Routed(e, req') && ReceivedUnder(e, req', check, name) == ReceivedUnder(e, req, check, name)
  {
    LookupIsTheParam(e.parameters, j);
    assert e.parameters[j] == Param(e.parameters[j].name, e.parameters[j].prop);
    OthersAreSentAsBefore(e, req, i, v, j);
  }

  /** The checked node names are those of other parameters, and they have not moved. */
  lemma {:induction false} NodesUnmoved(e: Endpoint, req: Request, check: Checker, i: nat, v: string, t: string)
    requires CallerSupplied(e, i) && Routed(e, req) && !IsCheckedNodeParam(e, e.parameters[i])
    ensures var req' := Sending(e, req, e.parameters[i], v);
            Routed(e, req') && (Names(e, req', check, CheckedNodes(e), t) ==> Names(e, req, check, CheckedNodes(e), t))
  {
    var req' := Sending(e, req, e.parameters[i], v);
    OwnValueIsSent(e, req, i, v);
    var names := CheckedNodes(e);
    if Names(e, req', check, names, t) {
      var k :| 0 <= k < |names| && t in Texts(ReceivedUnder(e, req', check, names[k]));
      ListedAreChecked(e, e.parameters, names[k]);
      var j :| 0 <= j < |e.parameters| && e.parameters[j].name == names[k] && IsCheckedNodeParam(e, e.parameters[j]);
      ReceivedAsBefore(e, req, check, i, v, j);
    }
  }

  lemma {:induction false} GateUnmoved(e: Endpoint, req: Request, p: Param, v: string)
    requires Routed(e, req)
    ensures Routed(e, Sending(e, req, p, v)) && GateCluster(e, Sending(e, req, p, v)) == GateCluster(e, req)
  {}

  lemma {:induction false} StillCalled(e: Endpoint, req: Request, check: Checker, dir: Directory, i: nat, v: string)
    requires CallerSupplied(e, i) && Routed(e, req) && HandlerCalled(e, req, check, dir)
    requires !IsCheckedNodeParam(e, e.parameters[i]) && check(e.parameters[i].prop, Str(v)).Some?
    ensures var req' := Sending(e, req, e.parameters[i], v); Routed(e, req') && HandlerCalled(e, req', check, dir)
  {
    var req' := Sending(e, req, e.parameters[i], v);
    StillValidates(e, req, check, i, v);
    GateUnmoved(e, req, e.parameters[i], v);
    forall t | Names(e, req', check, CheckedNodes(e), t)
      ensures dir.parses(GateCluster(e, req')) && dir.member(GateCluster(e, req'), t)
    {
      NodesUnmoved(e, req, check, i, v, t);
    }
  }

  /**
   Why the rules insist on the path: take any request that reaches the handler and any
   value the property's rules accept. The same request with that value for a body or query
   parameter reaches the handler too, the handler receives that value, and the gate
   authorizes the same cluster as before.
   */
  lemma {:induction false} OutsideThePathTheCallerChooses(
    e: Endpoint, req: Request, check: Checker, dir: Directory, i: nat, v: string)
    requires CallerSupplied(e, i) && Routed(e, req) && HandlerCalled(e, req, check, dir)
    requires !IsCheckedNodeParam(e, e.parameters[i]) && check(e.parameters[i].prop, Str(v)).Some?
    ensures var p := e.parameters[i];
            var req' := Sending(e, req, p, v);
            && Routed(e, req') && HandlerCalled(e, req', check, dir)
            && Received(e, req', p, check) == check(p.prop, Str(v))
            && GateCluster(e, req') == GateCluster(e, req)
  {
    OwnValueIsSent(e, req, i, v);
    GateUnmoved(e, req, e.parameters[i], v);
    StillCalled(e, req, check, dir, i, v);
  }
}
