/**
 `mountRegistry` and the middleware chain of a mounted route (`internal/api/registry.go`,
 `internal/api/permissions.go`): authentication, the interactive-only gate, the rate
 limiter, the permission, then the handler. The RBAC engine, the session store and the
 limiter's bucket are parameters.
 */
module Mounting {
  import opened Options
  import opened Endpoints
  import opened Registry
  import opened GateAgreement

  datatype Link =
    | Authenticate
    | InteractiveOnly(endedAdmitted: bool)
    | RateLimit
    | RequireOne(check: Check)
    | RequireAny(checks: seq<Check>)
    | RequireAll(checks: seq<Check>)
    | ServeHandler

  datatype Route = Route(key: string, endpoint: Endpoint, chain: seq<Link>)

  function When(b: bool, link: Link): seq<Link> {
    if b then [link] else []
  }

  /** The gate a permission declaration installs, if any. */
  function PermissionLinks(p: Permissions): seq<Link> {
    if p.check.Some? then [RequireOne(p.check.value)]
    else if p.alternatives != [] then [RequireAny(p.alternatives)]
    else if p.allOf != [] then [RequireAll(p.allOf)]
    else []
  }

  function ChainOf(e: Endpoint): seq<Link> {
    When(Authenticated(e.permissions), Authenticate) +
    When(e.interactiveOnly != "", InteractiveOnly(e.admitsEndedSession != "")) +
    When(e.hasRateLimiter, RateLimit) +
    PermissionLinks(e.permissions) +
    [ServeHandler]
  }

  function RouteOf(e: Endpoint): Route {
    Route(Key(e), e, ChainOf(e))
  }

  function RoutesOf(endpoints: seq<Endpoint>): (routes: seq<Route>)
    ensures |routes| == |endpoints| && forall i :: 0 <= i < |endpoints| ==> routes[i] == RouteOf(endpoints[i])
  {
    seq(|endpoints|, i requires 0 <= i < |endpoints| => RouteOf(endpoints[i]))
  }

  /** What mounting an endpoint needs from outside. */
  predicate Mountable(e: Endpoint, hasNodes: bool, hasSessions: bool) {
    && (CheckedNodes(e) != [] ==> hasNodes)
    && (e.interactiveOnly != "" && e.admitsEndedSession == "" ==> hasSessions)
  }

  /** The route table, appended to in registration order. */
  class Router {
    var routes: seq<Route>

    constructor ()
      ensures routes == []
    {
      routes := [];
    }

    method Add(r: Route)
      modifies this
      ensures routes == old(routes) + [r]
    {
      routes := routes + [r];
    }
  }

  /** The first loop: what every endpoint needs is there. */
  method CheckMountable(endpoints: seq<Endpoint>, hasNodes: bool, hasSessions: bool) returns (ok: bool)
    ensures ok <==> forall i :: 0 <= i < |endpoints| ==> Mountable(endpoints[i], hasNodes, hasSessions)
  {
    for i := 0 to |endpoints|
      invariant forall k :: 0 <= k < i ==> Mountable(endpoints[k], hasNodes, hasSessions)
    {
      var names := CheckedNodeParams(endpoints[i]);
      if !hasNodes && |names| > 0 {
        return false;
      }
      if !hasSessions && endpoints[i].interactiveOnly != "" && endpoints[i].admitsEndedSession == "" {
        return false;
      }
    }
    return true;
  }

  /** The links of one route, appended in order. */
  method BuildChain(e: Endpoint) returns (chain: seq<Link>)
    ensures chain == ChainOf(e)
  {
    chain := [];
    if Authenticated(e.permissions) {
      chain := chain + [Authenticate];
    }
    if e.interactiveOnly != "" && e.admitsEndedSession != "" {
      chain := chain + [InteractiveOnly(true)];
    } else if e.interactiveOnly != "" {
      chain := chain + [InteractiveOnly(false)];
    }
    if e.hasRateLimiter {
      chain := chain + [RateLimit];
    }
    chain := chain + PermissionLinks(e.permissions);
    chain := chain + [ServeHandler];
  }

  lemma {:induction false} OneMoreRoute(endpoints: seq<Endpoint>, i: nat, before: seq<Route>)
    requires i < |endpoints|
    ensures before + RoutesOf(endpoints[..i + 1]) == before + RoutesOf(endpoints[..i]) + [RouteOf(endpoints[i])]
  {
    var longer, shorter := RoutesOf(endpoints[..i + 1]), RoutesOf(endpoints[..i]);
    assert forall k :: 0 <= k < i ==> longer[k] == shorter[k];
    assert longer == shorter + [RouteOf(endpoints[i])];
  }

  /** Every endpoint is checked before any is mounted: all of them are, in order, or none. */
  method MountRegistry(router: Router, endpoints: seq<Endpoint>, hasAuth: bool, hasNodes: bool, hasSessions: bool)
    returns (ok: bool)
    modifies router
    ensures ok <==> hasAuth && forall i :: 0 <= i < |endpoints| ==> Mountable(endpoints[i], hasNodes, hasSessions)
    ensures router.routes == if ok then old(router.routes) + RoutesOf(endpoints) else old(router.routes)
  {
    if !hasAuth {
      return false;
    }
    ok := CheckMountable(endpoints, hasNodes, hasSessions);
    if !ok {
      return;
    }
    for i := 0 to |endpoints|
      invariant router.routes == old(router.routes) + RoutesOf(endpoints[..i])
    {
      var chain := BuildChain(endpoints[i]);
      router.Add(Route(Key(endpoints[i]), endpoints[i], chain));
      OneMoreRoute(endpoints, i, old(router.routes));
    }
    assert endpoints[..|endpoints|] == endpoints;
  }

  // ---------------------------------------------------------------------------
  // A request through a chain
  // ---------------------------------------------------------------------------

  datatype Liveness = Live | Ended | CannotTell

  datatype Caller = Anonymous | ApiKey | Session(liveness: Liveness)

  /** The permission engine, and which cluster ids parse. */
  datatype Engine = Engine(
    onCluster: (string, string, string) -> bool, everywhere: (string, string) -> bool, parses: string -> bool)

  datatype Outcome = Handled | Refused(status: nat)

  /** A caller and a bucket meet a mounted route. */
  datatype Call = Call(endpoint: Endpoint, request: Request, caller: Caller)

  predicate ValidCall(call: Call) {
    Routed(call.endpoint, call.request)
  }

  predicate Holds(engine: Engine, c: Check, cluster: string) {
    if c.scope.ClusterScope? then engine.onCluster(c.action, c.resource, cluster)
    else engine.everywhere(c.action, c.resource)
  }

  predicate WantsCluster(checks: seq<Check>) {
    exists k :: 0 <= k < |checks| && checks[k].scope.ClusterScope?
  }

  /** The gates refuse with 400 when the cluster they need does not parse, with 403 when the grant is missing. */
  function Permit(checks: seq<Check>, granted: bool, engine: Engine, cluster: string): Option<nat> {
    if WantsCluster(checks) && !engine.parses(cluster) then Some(400) else if !granted then Some(403) else None
  }

  /** The status a link refuses with, or None when it calls the next one. */
  ghost function Verdict(
    link: Link, call: Call, bucket: nat, engine: Engine, check: Checker, dir: Directory): Option<nat>
    requires ValidCall(call)
  {
    var cluster := GateCluster(call.endpoint, call.request);
    match link
    case Authenticate => if call.caller.Anonymous? then Some(401) else None
    case InteractiveOnly(endedAdmitted) =>
      if !call.caller.Session? then Some(403)
      else if !endedAdmitted && call.caller.liveness.Ended? then Some(401)
      else if !endedAdmitted && call.caller.liveness.CannotTell? then Some(503)
      else None
    case RateLimit => if bucket == 0 then Some(429) else None
    case RequireOne(c) => Permit([c], Holds(engine, c, cluster), engine, cluster)
    case RequireAny(checks) =>
      Permit(checks, exists k :: 0 <= k < |checks| && Holds(engine, checks[k], cluster), engine, cluster)
    case RequireAll(checks) =>
      Permit(checks, forall k :: 0 <= k < |checks| ==> Holds(engine, checks[k], cluster), engine, cluster)
    case ServeHandler => if HandlerCalled(call.endpoint, call.request, check, dir) then None else Some(400)
  }

  /** The chain's answer and the bucket it leaves. */
  ghost function Through(
    chain: seq<Link>, call: Call, bucket: nat, engine: Engine, check: Checker, dir: Directory): (Outcome, nat)
    requires ValidCall(call)
    decreases |chain|
  {
    if chain == [] then (Handled, bucket)
    else
      var verdict := Verdict(chain[0], call, bucket, engine, check, dir);
      if verdict.Some? then (Refused(verdict.value), bucket)
      else Through(chain[1..], call, if chain[0].RateLimit? then bucket - 1 else bucket, engine, check, dir)
  }

  // ---------------------------------------------------------------------------
  // What the chain guarantees
  // ---------------------------------------------------------------------------

  predicate PassesAuthentication(call: Call) {
    Authenticated(call.endpoint.permissions) ==> !call.caller.Anonymous?
  }

  predicate PassesInteractive(call: Call) {
    call.endpoint.interactiveOnly != "" ==>
      call.caller.Session? && (call.endpoint.admitsEndedSession != "" || call.caller.liveness.Live?)
  }

  /** The declared requirement, read off the declaration alone. */
  predicate Permitted(p: Permissions, engine: Engine, cluster: string) {
    && (RunsClusterGate(p) ==> engine.parses(cluster))
    && (p.check.Some? ==> Holds(engine, p.check.value, cluster))
    && (p.alternatives != [] ==> exists k :: 0 <= k < |p.alternatives| && Holds(engine, p.alternatives[k], cluster))
    && (forall k :: 0 <= k < |p.allOf| ==> Holds(engine, p.allOf[k], cluster))
  }

  lemma {:induction false} ThroughConcat(
    a: seq<Link>, b: seq<Link>, call: Call, bucket: nat, engine: Engine, check: Checker, dir: Directory)
    requires ValidCall(call)
    ensures var first := Through(a, call, bucket, engine, check, dir);
            Through(a + b, call, bucket, engine, check, dir) ==
              if first.0.Handled? then Through(b, call, first.1, engine, check, dir) else first
    decreases |a|
  {
    if a == [] {
      assert a + b == b;
    } else {
      assert (a + b)[1..] == a[1..] + b;
      if Verdict(a[0], call, bucket, engine, check, dir).None? {
        ThroughConcat(a[1..], b, call, if a[0].RateLimit? then bucket - 1 else bucket, engine, check, dir);
      }
    }
  }

  /** A chain of one link, or none. */
  lemma {:induction false} ThroughOne(
    present: bool, link: Link, call: Call, bucket: nat, engine: Engine, check: Checker, dir: Directory)
    requires ValidCall(call)
    ensures var verdict := Verdict(link, call, bucket, engine, check, dir);
            Through(When(present, link), call, bucket, engine, check, dir) ==
              if !present then (Handled, bucket)
              else if verdict.Some? then (Refused(verdict.value), bucket)
              else (Handled, if link.RateLimit? then bucket - 1 else bucket)
  {
    assert [link][1..] == [];
  }

  /** At most one of the three shapes that install a gate. */
  predicate OneGate(p: Permissions) {
    && (p.check.Some? ==> p.alternatives == [] && p.allOf == [])
    && (p.alternatives != [] ==> p.allOf == [])
  }

  lemma {:induction false} AcceptedHasOneGate(e: Endpoint)
    requires Accepted(e)
    ensures OneGate(e.permissions)
  {
    assert Keeps(e, {}, PermissionsAreValid);
  }

  /** The permission gate of a valid declaration asks exactly what was declared. */
  lemma {:induction false} PermissionGateExact(
    call: Call, bucket: nat, engine: Engine, check: Checker, dir: Directory)
    requires ValidCall(call) && OneGate(call.endpoint.permissions)
    ensures var r := Through(PermissionLinks(call.endpoint.permissions), call, bucket, engine, check, dir);
            && r.1 == bucket
            && (r.0.Handled? <==>
                  Permitted(call.endpoint.permissions, engine, GateCluster(call.endpoint, call.request)))
  {
    var p := call.endpoint.permissions;
    if p.check.Some? {
      ThroughOne(true, RequireOne(p.check.value), call, bucket, engine, check, dir);
      assert [p.check.value][0] == p.check.value;
    } else if p.alternatives != [] {
      ThroughOne(true, RequireAny(p.alternatives), call, bucket, engine, check, dir);
    } else if p.allOf != [] {
      ThroughOne(true, RequireAll(p.allOf), call, bucket, engine, check, dir);
    }
  }

  /** The links ahead of the permission. */
  function FrontOf(e: Endpoint): seq<Link> {
    When(Authenticated(e.permissions), Authenticate) +
    When(e.interactiveOnly != "", InteractiveOnly(e.admitsEndedSession != "")) +
    When(e.hasRateLimiter, RateLimit)
  }

  lemma {:induction false} FrontExact(call: Call, bucket: nat, engine: Engine, check: Checker, dir: Directory)
    requires ValidCall(call)
    ensures var e := call.endpoint;
            var reaches := PassesAuthentication(call) && PassesInteractive(call);
            var r := Through(FrontOf(e), call, bucket, engine, check, dir);
            && (r.0.Handled? <==> reaches && (e.hasRateLimiter ==> bucket > 0))
            && r.1 == if reaches && e.hasRateLimiter && bucket > 0 then bucket - 1 else bucket
  {
    var e := call.endpoint;
    var auth := When(Authenticated(e.permissions), Authenticate);
    var gate := When(e.interactiveOnly != "", InteractiveOnly(e.admitsEndedSession != ""));
    var limit := When(e.hasRateLimiter, RateLimit);
    ThroughOne(Authenticated(e.permissions), Authenticate, call, bucket, engine, check, dir);
    ThroughOne(e.interactiveOnly != "", InteractiveOnly(e.admitsEndedSession != ""), call, bucket, engine, check, dir);
    ThroughOne(e.hasRateLimiter, RateLimit, call, bucket, engine, check, dir);
    ThroughConcat(auth, gate, call, bucket, engine, check, dir);
    ThroughConcat(auth + gate, limit, call, bucket, engine, check, dir);
  }

  /** The handler's links: the permission, then serve. */
  lemma {:induction false} BackExact(call: Call, bucket: nat, engine: Engine, check: Checker, dir: Directory)
    requires ValidCall(call) && OneGate(call.endpoint.permissions)
    ensures var e := call.endpoint;
            var r := Through(PermissionLinks(e.permissions) + [ServeHandler], call, bucket, engine, check, dir);
            && r.1 == bucket
            && (r.0.Handled? <==>
                  && Permitted(e.permissions, engine, GateCluster(e, call.request))
                  && HandlerCalled(e, call.request, check, dir))
  {
    ThroughConcat(PermissionLinks(call.endpoint.permissions), [ServeHandler], call, bucket, engine, check, dir);
    PermissionGateExact(call, bucket, engine, check, dir);
    ThroughOne(true, ServeHandler, call, bucket, engine, check, dir);
  }

  /**
   On every request to a mounted route of an accepted endpoint: the handler is called
   exactly when authentication (unless public), the interactive gate, the limiter, the
   declared permission and validation all pass; and the limiter's bucket is spent
   exactly when authentication and the interactive gate passed.
   */
  lemma {:induction false} ChainExact(call: Call, bucket: nat, engine: Engine, check: Checker, dir: Directory)
    requires ValidCall(call) && Accepted(call.endpoint)
    ensures var e := call.endpoint;
            var reaches := PassesAuthentication(call) && PassesInteractive(call);
            var r := Through(ChainOf(e), call, bucket, engine, check, dir);
            && (r.0.Handled? <==>
                  && reaches && (e.hasRateLimiter ==> bucket > 0)
                  && Permitted(e.permissions, engine, GateCluster(e, call.request))
                  && HandlerCalled(e, call.request, check, dir))
            && r.1 == if reaches && e.hasRateLimiter && bucket > 0 then bucket - 1 else bucket
  {
    var e := call.endpoint;
    AcceptedHasOneGate(e);
    var front, back := FrontOf(e), PermissionLinks(e.permissions) + [ServeHandler];
    assert ChainOf(e) == front + back;
    FrontExact(call, bucket, engine, check, dir);
    var mid := Through(front, call, bucket, engine, check, dir);
    ThroughConcat(front, back, call, bucket, engine, check, dir);
    BackExact(call, mid.1, engine, check, dir);
  }

  /** A refusal at the interactive gate costs no bucket, whatever the permission would have said. */
  lemma {:induction false} InteractiveRefusalIsFree(
    call: Call, bucket: nat, engine: Engine, check: Checker, dir: Directory)
    requires ValidCall(call) && Accepted(call.endpoint) && !PassesInteractive(call)
    ensures var r := Through(ChainOf(call.endpoint), call, bucket, engine, check, dir); r.0.Refused? && r.1 == bucket
  {
    ChainExact(call, bucket, engine, check, dir);
  }

  /**
   End to end: when the handler of a route with a cluster gate runs, the caller holds on
   the cluster the path names what the declaration asks: its check, all of its checks, or
   one of its alternatives; and that is the cluster every parameter of the handler that
   claims to be the cluster carries.
   */
  lemma {:induction false} HandlerActsWhereAuthorized(
    call: Call, bucket: nat, engine: Engine, check: Checker, dir: Directory, i: nat)
    requires ValidCall(call) && Accepted(call.endpoint) && i < |call.endpoint.parameters|
    requires RunsClusterGate(call.endpoint.permissions) && ClaimsCluster(call.endpoint, call.endpoint.parameters[i])
    requires Through(ChainOf(call.endpoint), call, bucket, engine, check, dir).0.Handled?
    ensures call.request.values != []
    ensures var p, cluster := call.endpoint.permissions, call.request.values[0];
            && (forall c :: p.check == Some(c) || c in p.allOf ==> Holds(engine, c, cluster))
            && (p.alternatives != [] ==> exists c :: c in p.alternatives && Holds(engine, c, cluster))
    ensures Received(call.endpoint, call.request, call.endpoint.parameters[i], check) ==
            check(call.endpoint.parameters[i].prop, Str(call.request.values[0]))
  {
    var e := call.endpoint;
    ChainExact(call, bucket, engine, check, dir);
    AcceptedGate(e);
    GateReadsFirstPlaceholder(e, call.request);
    GateAndHandlerAgree(e, call.request, check, i);
    PermittedHolds(e.permissions, engine, call.request.values[0]);
  }

  lemma {:induction false} PermittedHolds(p: Permissions, engine: Engine, cluster: string)
    requires Permitted(p, engine, cluster)
    ensures forall c :: p.check == Some(c) || c in p.allOf ==> Holds(engine, c, cluster)
    ensures p.alternatives != [] ==> exists c :: c in p.alternatives && Holds(engine, c, cluster)
  {
    if p.alternatives != [] {
      var k :| 0 <= k < |p.alternatives| && Holds(engine, p.alternatives[k], cluster);
      assert p.alternatives[k] in p.alternatives;
    }
  }
}
