/**
 The app-level gates of `setupMiddleware` (`internal/api/middleware.go`): the scan for a
 content coding, and the ordered stack that every request passes before a route.
 */
module RequestGates {
  import opened Options
  import opened Text
  import opened HeadReadings
  import opened DeclaredPath
  import opened Uploads
  import opened DotSegments
  import opened Connection

  // ---------------------------------------------------------------------------
  // Content codings
  // ---------------------------------------------------------------------------

  const CONTENT_ENCODING := "content-encoding"

  /** A list element that names a coding: neither empty nor the no-op identity. */
  predicate NamesCoding(element: string) {
    TrimSpace(element) != "" && !EqualFold(TrimSpace(element), IDENTITY)
  }

  predicate AnyCoding(elements: seq<string>) {
    exists k :: 0 <= k < |elements| && NamesCoding(elements[k])
  }

  /** The combined value of section 5.2 of RFC 9110: every line's value, in order, comma-separated. */
  function Combined(headers: seq<Field>): string {
    Join(ValuesOf(headers, CONTENT_ENCODING), ',')
  }

  lemma {:induction false} AnyCodingConcat(a: seq<string>, b: seq<string>)
    ensures AnyCoding(a + b) <==> AnyCoding(a) || AnyCoding(b)
  {
    if AnyCoding(a) {
      var k :| 0 <= k < |a| && NamesCoding(a[k]);
      assert (a + b)[k] == a[k];
    }
    if AnyCoding(b) {
      var k :| 0 <= k < |b| && NamesCoding(b[k]);
      assert (a + b)[|a| + k] == b[k];
    }
  }

  /** One more line at the front of the list. */
  lemma {:induction false} CombinedStep(value: string, values: seq<string>)
    ensures AnyCoding(Split(Join([value] + values, ','), ',')) <==>
            AnyCoding(Split(value, ',')) || AnyCoding(Split(Join(values, ','), ','))
  {
    assert ([value] + values)[1..] == values;
    if values == [] {
      EmptyNamesNothing();
    } else {
      SplitConcat(value, Join(values, ','), ',');
      AnyCodingConcat(Split(value, ','), Split(Join(values, ','), ','));
    }
  }

  lemma {:induction false} ValuesOfStep(headers: seq<Field>)
    requires headers != []
    ensures ValuesOf(headers, CONTENT_ENCODING) ==
            if EqualFold(headers[0].name, CONTENT_ENCODING)
            then [headers[0].value] + ValuesOf(headers[1..], CONTENT_ENCODING)
            else ValuesOf(headers[1..], CONTENT_ENCODING)
  {}

  lemma {:induction false} EmptyNamesNothing()
    ensures !AnyCoding(Split("", ','))
  {
    assert Split("", ',') == [""];
  }

  /** The combined list of these field lines names a coding. */
  predicate Coded(headers: seq<Field>) {
    AnyCoding(Split(Combined(headers), ','))
  }

  lemma {:induction false} CodedStep(headers: seq<Field>)
    requires headers != []
    ensures Coded(headers) <==>
            || Coded(headers[1..])
            || (EqualFold(headers[0].name, CONTENT_ENCODING) && AnyCoding(Split(headers[0].value, ',')))
  {
    ValuesOfStep(headers);
    if EqualFold(headers[0].name, CONTENT_ENCODING) {
      CombinedStep(headers[0].value, ValuesOf(headers[1..], CONTENT_ENCODING));
    }
  }

  /** The inner loop, over the elements of one field line. */
  method LineNamesCoding(line: string) returns (coded: bool)
    ensures coded <==> AnyCoding(Split(line, ','))
  {
    var elements := Split(line, ',');
    for k := 0 to |elements|
      invariant forall m :: 0 <= m < k ==> !NamesCoding(elements[m])
    {
      var coding := TrimSpace(elements[k]);
      if |coding| > 0 && !EqualFold(coding, IDENTITY) {
        assert NamesCoding(elements[k]);
        return true;
      }
    }
    return false;
  }

  /**
   The scan, line by line and element by element. It answers what splitting the
   combined list would: no spread over lines or empty elements hides a coding.
   */
  method HasContentCoding(headers: seq<Field>) returns (coded: bool)
    ensures coded <==> Coded(headers)
  {
    var i := 0;
    assert headers[0..] == headers;
    while i < |headers|
      invariant 0 <= i <= |headers|
      invariant Coded(headers) <==> Coded(headers[i..])
    {
      var line := headers[i];
      CodedStep(headers[i..]);
      assert headers[i..][1..] == headers[i + 1..];
      i := i + 1;
      if !EqualFold(line.name, CONTENT_ENCODING) {
        continue;
      }
      var named := LineNamesCoding(line.value);
      if named {
        return true;
      }
    }
    EmptyNamesNothing();
    return false;
  }

  // ---------------------------------------------------------------------------
  // The limiters
  // ---------------------------------------------------------------------------

  /** The app-level limiters, each with a budget of its own. */
  datatype Limiter = AuthCap | RefreshCap | WsTokenCap | ResyncCap | GeneralCap

  const AUTH_SCOPE := "/api/v1/auth/"
  const WS_PREFIX := "/ws"
  const RESYNC_SUFFIX := "/guest-snapshots/resync"

  /** The paths of the auth cap, below the auth scope. */
  const AUTH_LIMITED: seq<string> :=
    ["login", "register", "change-password", "totp/setup", "totp/verify-login", "totp",
     "totp/recovery-codes/regenerate", "oidc/authorize", "oidc/callback"]

  predicate IsAuthPath(spelled: string, name: string) {
    spelled == AUTH_SCOPE + name
  }

  /** Each limiter tests the spelling the router matches, `limiterPath`. */
  predicate SelectsSpelling(l: Limiter, spelled: string) {
    match l
    case AuthCap => exists k :: 0 <= k < |AUTH_LIMITED| && IsAuthPath(spelled, AUTH_LIMITED[k])
    case RefreshCap => IsAuthPath(spelled, "refresh")
    case WsTokenCap => IsAuthPath(spelled, "ws-token")
    case ResyncCap => HasSuffix(spelled, RESYNC_SUFFIX)
    case GeneralCap => !HasPrefix(spelled, AUTH_SCOPE) && !HasPrefix(spelled, WS_PREFIX)
  }

  predicate Selects(l: Limiter, path: string) {
    SelectsSpelling(l, Routed(path))
  }

  /** Some limiter counts the requests on this path. */
  predicate Metered(path: string) {
    exists l: Limiter :: Selects(l, path)
  }

  lemma {:induction false} RoutedSlash(path: string)
    requires path != "" && path != "/"
    ensures Routed(path + "/") == Routed(path)
  {
    assert Lower(path + "/") == Lower(path) + "/";
    assert (Lower(path) + "/")[..|path|] == Lower(path);
    if |path| == 1 {
      assert Lower(path)[0] == LowerChar(path[0]) != '/';
      assert TrimRight(Lower(path), IsSlash) == Lower(path);
    }
  }

  lemma {:induction false} RootSpellings(l: Limiter)
    ensures SelectsSpelling(l, "") <==> SelectsSpelling(l, "/")
  {}

  lemma {:induction false} SlashIsNoOtherSpelling(l: Limiter, path: string)
    ensures Selects(l, path + "/") <==> Selects(l, path)
  {
    if path == "" || path == "/" {
      RootSpellings(l);
      assert Lower("") == "" && Lower("/") == "/" && Lower("/" + "/") == "//";
      assert "//"[..1] == "/" && "/"[..0] == "";
      assert Routed("") == "" && Routed("/") == "/" && Routed("/" + "/") == "";
    } else {
      RoutedSlash(path);
    }
  }

  /** A limiter cannot be spelled around: neither letter case nor trailing slashes change which limiters count. */
  lemma {:induction false} SpellingsShareTheirLimiters(l: Limiter, path: string, cased: string, slashes: string)
    requires EqualFold(path, cased) && AllOf(slashes, IsSlash)
    ensures Selects(l, cased + slashes) <==> Selects(l, path)
    decreases |slashes|
  {
    if slashes == "" {
      assert cased + slashes == cased;
      assert |path| == |Lower(path)| == |Lower(cased)| == |cased|;
    } else {
      var fewer := slashes[..|slashes| - 1];
      assert slashes == fewer + "/";
      assert cased + slashes == cased + fewer + "/";
      SlashIsNoOtherSpelling(l, cased + fewer);
      SpellingsShareTheirLimiters(l, path, cased, fewer);
    }
  }

  // ---------------------------------------------------------------------------
  // The stack
  // ---------------------------------------------------------------------------

  const API_BODY_LIMIT: nat := 10 * 1024 * 1024

  /** A request as the gates see it: the head the server parsed. */
  datatype Incoming = Incoming(
    raw: string, headers: seq<Field>, framing: int, verb: string, path: string, contentType: string)

  /** The request whose head the server parsed at byte `p`. */
  function Arriving(w: Wire, p: nat): Incoming
    requires ServerReading(w.heads(p).raw, w.lengthOf).Some?
  {
    var head := w.heads(p);
    var reading := ServerReading(head.raw, w.lengthOf).value;
    Incoming(head.raw, reading.fields, reading.framing, head.verb, head.path, head.contentType)
  }

  datatype Gate =
    | AmbiguousFraming
    | ContentCoding
    | ChunkedBody
    | Cors
    | BodySize
    | Limit(limiter: Limiter)
    | TrailingSlash

  /** What each limiter has left for this caller. */
  datatype Budgets = Budgets(auth: nat, refresh: nat, wsToken: nat, resync: nat, general: nat)

  function Left(b: Budgets, l: Limiter): nat {
    match l
    case AuthCap => b.auth
    case RefreshCap => b.refresh
    case WsTokenCap => b.wsToken
    case ResyncCap => b.resync
    case GeneralCap => b.general
  }

  function Charged(b: Budgets, l: Limiter): Budgets
    requires Left(b, l) > 0
  {
    match l
    case AuthCap => b.(auth := b.auth - 1)
    case RefreshCap => b.(refresh := b.refresh - 1)
    case WsTokenCap => b.(wsToken := b.wsToken - 1)
    case ResyncCap => b.(resync := b.resync - 1)
    case GeneralCap => b.(general := b.general - 1)
  }

  ghost predicate Exempt(r: Incoming, parses: string -> bool) {
    IsStreamedUpload(r.verb, r.path, r.contentType, parses)
  }

  /** The value of the first field line of this name, or nothing. */
  function FirstValue(headers: seq<Field>, name: string): string {
    var values := ValuesOf(headers, name);
    if values == [] then "" else values[0]
  }

  /** What CORS answers itself: an OPTIONS request that names its origin and the method it asks for. */
  predicate IsPreflight(r: Incoming) {
    && r.verb == "OPTIONS"
    && FirstValue(r.headers, "origin") != ""
    && FirstValue(r.headers, "access-control-request-method") != ""
  }

  predicate OverLimit(l: Limiter, r: Incoming, b: Budgets) {
    Selects(l, r.path) && Left(b, l) == 0
  }

  /** The status a gate answers with, or None when it calls the next one. */
  ghost function Answer(g: Gate, r: Incoming, b: Budgets, parses: string -> bool): Option<nat> {
    match g
    case AmbiguousFraming => if RefusalOf(r.raw) != Clear then Some(400) else None
    case ContentCoding => if Coded(r.headers) then Some(415) else None
    case ChunkedBody => if r.framing == CHUNKED_FRAMING && !Exempt(r, parses) then Some(411) else None
    case Cors => if IsPreflight(r) then Some(204) else None
    case BodySize => if r.framing > API_BODY_LIMIT && !Exempt(r, parses) then Some(413) else None
    case Limit(l) => if OverLimit(l, r, b) then Some(429) else None
    case TrailingSlash => if RefusesTrailingSlash(r.verb, r.path) then Some(400) else None
  }

  /** What a gate that passes the request leaves of the budgets: a limiter charges what it selects. */
  function Spent(g: Gate, r: Incoming, b: Budgets): Budgets {
    if g.Limit? && Selects(g.limiter, r.path) && Left(b, g.limiter) > 0 then Charged(b, g.limiter) else b
  }

  /** The first gate that answers, or None when the request reaches its route; and the budgets it leaves. */
  ghost function Dispatch(stack: seq<Gate>, r: Incoming, b: Budgets, parses: string -> bool): (Option<nat>, Budgets) {
    if stack == [] then (None, b)
    else if Answer(stack[0], r, b, parses).Some? then (Answer(stack[0], r, b, parses), b)
    else Dispatch(stack[1..], r, Spent(stack[0], r, b), parses)
  }

  predicate Distinct(stack: seq<Gate>) {
    forall i, j :: 0 <= i < j < |stack| ==> stack[i] != stack[j]
  }

  /** Both gates are registered, `a` before `b`. */
  predicate Ahead(stack: seq<Gate>, a: Gate, b: Gate) {
    exists i, j :: 0 <= i < j < |stack| && stack[i] == a && stack[j] == b
  }

  predicate ReadsOnlyTheHead(g: Gate) {
    !g.Limit? && !g.TrailingSlash?
  }

  /** The order the source insists on: head gates, then every limiter, then the trailing-slash gate. */
  ghost predicate Ordered(stack: seq<Gate>) {
    && Distinct(stack)
    && (forall g: Gate, l: Limiter :: ReadsOnlyTheHead(g) ==> Ahead(stack, g, Limit(l)))
    && (forall l: Limiter :: Ahead(stack, Limit(l), TrailingSlash))
  }

  /** The application's middleware list, appended to at start-up. */
  class App {
    var stack: seq<Gate>

    constructor ()
      ensures stack == []
    {
      stack := [];
    }

    method Use(g: Gate)
      modifies this
      ensures stack == old(stack) + [g]
    {
      stack := stack + [g];
    }

    method SetupMiddleware()
      requires stack == []
      modifies this
      ensures Ordered(stack)
    {
      Use(AmbiguousFraming);
      Use(ContentCoding);
      Use(ChunkedBody);
      Use(Cors);
      Use(BodySize);
      Use(Limit(AuthCap));
      Use(Limit(RefreshCap));
      Use(Limit(WsTokenCap));
      Use(Limit(ResyncCap));
      Use(Limit(GeneralCap));
      Use(TrailingSlash);
      RegisteredInOrder(stack);
    }
  }

  function PlaceOf(g: Gate): nat {
    match g
    case AmbiguousFraming => 0
    case ContentCoding => 1
    case ChunkedBody => 2
    case Cors => 3
    case BodySize => 4
    case Limit(l) =>
      (match l case AuthCap => 5 case RefreshCap => 6 case WsTokenCap => 7 case ResyncCap => 8 case GeneralCap => 9)
    case TrailingSlash => 10
  }

  lemma {:induction false} RegisteredInOrder(stack: seq<Gate>)
    requires |stack| == 11 && forall k :: 0 <= k < 11 ==> PlaceOf(stack[k]) == k
    ensures Ordered(stack)
  {
    forall g: Gate ensures 0 <= PlaceOf(g) < 11 && stack[PlaceOf(g)] == g {
      assert PlaceOf(stack[PlaceOf(g)]) == PlaceOf(g);
    }
    forall g: Gate, l: Limiter | ReadsOnlyTheHead(g) ensures Ahead(stack, g, Limit(l)) {
      assert PlaceOf(g) < PlaceOf(Limit(l));
    }
    forall l: Limiter ensures Ahead(stack, Limit(l), TrailingSlash) {
      assert PlaceOf(Limit(l)) < PlaceOf(TrailingSlash);
    }
  }

  /** The gates ahead of the k-th all pass the request. */
  ghost predicate Reaches(stack: seq<Gate>, k: nat, r: Incoming, b: Budgets, parses: string -> bool)
    requires k <= |stack|
  {
    forall j :: 0 <= j < k ==> Answer(stack[j], r, b, parses).None?
  }

  /** `after` is `b` with the limiters of `passed` charged that select the path, and no other. */
  predicate ChargedBy(after: Budgets, b: Budgets, passed: seq<Gate>, path: string) {
    forall l: Limiter :: Left(after, l) == if Limit(l) in passed && Selects(l, path) then Left(b, l) - 1 else Left(b, l)
  }

  /** Gates are asked one by one: a stack in two parts. */
  lemma {:induction false} DispatchConcat(
    front: seq<Gate>, back: seq<Gate>, r: Incoming, b: Budgets, parses: string -> bool)
    ensures var first := Dispatch(front, r, b, parses);
            Dispatch(front + back, r, b, parses) == if first.0.Some? then first else Dispatch(back, r, first.1, parses)
    decreases |front|
  {
    if front == [] {
      assert front + back == back;
    } else {
      assert (front + back)[1..] == front[1..] + back;
      DispatchConcat(front[1..], back, r, Spent(front[0], r, b), parses);
    }
  }

  lemma {:induction false} OneGate(g: Gate, r: Incoming, b: Budgets, parses: string -> bool)
    ensures Dispatch([g], r, b, parses) ==
            if Answer(g, r, b, parses).Some? then (Answer(g, r, b, parses), b) else (None, Spent(g, r, b))
  {
    assert [g][1..] == [];
  }

  /** One more limiter passed. */
  lemma {:induction false} ChargedByOneMore(after: Budgets, b: Budgets, passed: seq<Gate>, g: Gate, r: Incoming)
    requires ChargedBy(after, b, passed, r.path) && g !in passed
    requires g.Limit? ==> !OverLimit(g.limiter, r, b)
    ensures ChargedBy(Spent(g, r, after), b, passed + [g], r.path)
  {
    forall l: Limiter
      ensures Left(Spent(g, r, after), l) ==
              if Limit(l) in passed + [g] && Selects(l, r.path) then Left(b, l) - 1 else Left(b, l)
    {
      assert Limit(l) in passed + [g] <==> Limit(l) in passed || g == Limit(l);
    }
  }

  /** A gate that was not passed yet answers as if nothing had been charged. */
  lemma {:induction false} SameAnswer(
    after: Budgets, b: Budgets, passed: seq<Gate>, g: Gate, r: Incoming, parses: string -> bool)
    requires ChargedBy(after, b, passed, r.path) && g !in passed
    ensures Answer(g, r, after, parses) == Answer(g, r, b, parses)
  {
    if g.Limit? {
      assert Left(after, g.limiter) == Left(b, g.limiter);
    }
  }

  /** A stretch of gates that passes the request. */
  lemma {:induction false} PassedStretch(stack: seq<Gate>, r: Incoming, b: Budgets, parses: string -> bool)
    requires Distinct(stack) && Reaches(stack, |stack|, r, b, parses)
    ensures Dispatch(stack, r, b, parses).0.None? && ChargedBy(Dispatch(stack, r, b, parses).1, b, stack, r.path)
    decreases |stack|
  {
    if stack == [] {
    } else {
      var front, last := stack[..|stack| - 1], stack[|stack| - 1];
      assert stack == front + [last];
      PassedStretch(front, r, b, parses);
      var mid := Dispatch(front, r, b, parses).1;
      assert Answer(last, r, b, parses).None?;
      SameAnswer(mid, b, front, last, r, parses);
      DispatchConcat(front, [last], r, b, parses);
      OneGate(last, r, mid, parses);
      ChargedByOneMore(mid, b, front, last, r);
    }
  }

  lemma {:induction false} FirstRefusal(stack: seq<Gate>, r: Incoming, b: Budgets, parses: string -> bool)
    returns (k: nat)
    ensures k <= |stack| && Reaches(stack, k, r, b, parses)
    ensures k < |stack| ==> Answer(stack[k], r, b, parses).Some?
  {
    k := 0;
    while k < |stack| && Answer(stack[k], r, b, parses).None?
      invariant k <= |stack| && Reaches(stack, k, r, b, parses)
    {
      k := k + 1;
    }
  }

  /**
   For every stack without repetitions and every request: the first gate that refuses
   answers, or the request reaches its route when there is none; and a limiter is charged
   exactly when it selects the request's path and stands ahead of where it ended up.
   */
  lemma {:induction false} DispatchExact(stack: seq<Gate>, r: Incoming, b: Budgets, parses: string -> bool)
    returns (k: nat)
    requires Distinct(stack)
    ensures k <= |stack| && Reaches(stack, k, r, b, parses)
    ensures k < |stack| ==> Answer(stack[k], r, b, parses).Some?
    ensures Dispatch(stack, r, b, parses).0 == if k < |stack| then Answer(stack[k], r, b, parses) else None
    ensures ChargedBy(Dispatch(stack, r, b, parses).1, b, stack[..k], r.path)
  {
    k := FirstRefusal(stack, r, b, parses);
    var front, back := stack[..k], stack[k..];
    assert stack == front + back;
    PassedStretch(front, r, b, parses);
    DispatchConcat(front, back, r, b, parses);
    if k < |stack| {
      assert stack[k] !in front;
      SameAnswer(Dispatch(front, r, b, parses).1, b, front, stack[k], r, parses);
    }
  }

  /**
   Why the order matters, for any stack: a request that one gate alone refuses has been
   charged by a limiter exactly when that limiter selects its path and comes first.
   */
  lemma {:induction false} OrderDecidesTheCharge(
    stack: seq<Gate>, g: nat, l: Limiter, r: Incoming, b: Budgets, parses: string -> bool)
    requires Distinct(stack) && g < |stack| && stack[g] != Limit(l)
    requires forall j :: 0 <= j < |stack| ==> (Answer(stack[j], r, b, parses).Some? <==> j == g)
    ensures Dispatch(stack, r, b, parses).0 == Answer(stack[g], r, b, parses)
    ensures Left(Dispatch(stack, r, b, parses).1, l) < Left(b, l) <==>
            Selects(l, r.path) && Ahead(stack, Limit(l), stack[g])
  {
    var k := DispatchExact(stack, r, b, parses);
    assert k == g;
    if Ahead(stack, Limit(l), stack[g]) {
      var i, j :| 0 <= i < j < |stack| && stack[i] == Limit(l) && stack[j] == stack[g];
      assert j == g && stack[..g][i] == Limit(l);
    }
    if Limit(l) in stack[..g] {
      var i :| 0 <= i < g && stack[..g][i] == Limit(l);
      assert stack[i] == Limit(l);
    }
  }

  lemma {:induction false} SameBudgets(after: Budgets, b: Budgets)
    requires forall l: Limiter :: Left(after, l) == Left(b, l)
    ensures after == b
  {
    assert Left(after, AuthCap) == Left(b, AuthCap) && Left(after, RefreshCap) == Left(b, RefreshCap);
    assert Left(after, WsTokenCap) == Left(b, WsTokenCap) && Left(after, ResyncCap) == Left(b, ResyncCap);
    assert Left(after, GeneralCap) == Left(b, GeneralCap);
  }

  lemma {:induction false} EveryGateIsRegistered(stack: seq<Gate>, g: Gate)
    requires Ordered(stack)
    ensures g in stack
  {
    assert ReadsOnlyTheHead(g) ==> Ahead(stack, g, Limit(AuthCap));
    assert g.Limit? ==> Ahead(stack, Limit(g.limiter), TrailingSlash);
    assert Ahead(stack, Limit(AuthCap), TrailingSlash);
  }

  /** A refusal by a gate that reads the head alone is free: no limiter was asked. */
  lemma {:induction false} HeadRefusalIsFree(
    stack: seq<Gate>, g: Gate, r: Incoming, b: Budgets, parses: string -> bool)
    requires Ordered(stack) && ReadsOnlyTheHead(g) && Answer(g, r, b, parses).Some?
    ensures Dispatch(stack, r, b, parses).0.Some? && Dispatch(stack, r, b, parses).1 == b
    ensures exists h :: ReadsOnlyTheHead(h) && Dispatch(stack, r, b, parses).0 == Answer(h, r, b, parses)
  {
    EveryGateIsRegistered(stack, g);
    var k := DispatchExact(stack, r, b, parses);
    forall l: Limiter ensures Limit(l) !in stack[..k] {
      NoLimiterBefore(stack, g, l, k, r, b, parses);
    }
    SameBudgets(Dispatch(stack, r, b, parses).1, b);
    forall l: Limiter ensures stack[k] != Limit(l) {
      NoLimiterBefore(stack, g, l, k, r, b, parses);
    }
    NoLimiterBefore(stack, g, AuthCap, k, r, b, parses);
    assert Ahead(stack, Limit(AuthCap), TrailingSlash);
    var i, j :| 0 <= i < j < |stack| && stack[i] == Limit(AuthCap) && stack[j] == TrailingSlash;
    assert k < i;
    assert ReadsOnlyTheHead(stack[k]);
  }

  lemma {:induction false} NoLimiterBefore(
    stack: seq<Gate>, g: Gate, l: Limiter, k: nat, r: Incoming, b: Budgets, parses: string -> bool)
    requires Ordered(stack) && ReadsOnlyTheHead(g) && Answer(g, r, b, parses).Some?
    requires k < |stack| && Reaches(stack, k, r, b, parses)
    ensures forall n :: 0 <= n <= k ==> stack[n] != Limit(l)
  {
    assert Ahead(stack, g, Limit(l));
    var i, j :| 0 <= i < j < |stack| && stack[i] == g && stack[j] == Limit(l);
    assert k <= i;
  }

  /** A preflight is answered by CORS or by another gate that reads the head alone, and costs no budget. */
  lemma {:induction false} PreflightStopsAtCors(stack: seq<Gate>, r: Incoming, b: Budgets, parses: string -> bool)
    requires Ordered(stack) && IsPreflight(r)
    ensures Dispatch(stack, r, b, parses).0.Some? && Dispatch(stack, r, b, parses).1 == b
    ensures exists h :: ReadsOnlyTheHead(h) && Dispatch(stack, r, b, parses).0 == Answer(h, r, b, parses)
  {
    HeadRefusalIsFree(stack, Cors, r, b, parses);
  }

  /** No gate that reads the head alone refuses, and no limiter is exhausted. */
  ghost predicate OnlyTheSlashIsLeft(r: Incoming, b: Budgets, parses: string -> bool) {
    && (forall g: Gate :: ReadsOnlyTheHead(g) ==> Answer(g, r, b, parses).None?)
    && (forall l: Limiter :: !OverLimit(l, r, b))
  }

  /**
   A write to a path with a trailing slash never reaches a route. When nothing else stands
   in its way it is refused having spent one request of every limiter that selects its
   path; so it is free if and only if no limiter does.
   */
  lemma {:induction false} SlashRefusalChargedExactly(stack: seq<Gate>, r: Incoming, b: Budgets, parses: string -> bool)
    requires Ordered(stack) && RefusesTrailingSlash(r.verb, r.path)
    ensures Dispatch(stack, r, b, parses).0.Some?
    ensures OnlyTheSlashIsLeft(r, b, parses) ==>
              var (answer, after) := Dispatch(stack, r, b, parses);
              && answer == Some(400)
              && (forall l: Limiter :: Left(after, l) == if Selects(l, r.path) then Left(b, l) - 1 else Left(b, l))
              && (after == b <==> !Metered(r.path))
  {
    EveryGateIsRegistered(stack, TrailingSlash);
    var k := DispatchExact(stack, r, b, parses);
    if OnlyTheSlashIsLeft(r, b, parses) {
      assert stack[k] == TrailingSlash;
      var after := Dispatch(stack, r, b, parses).1;
      forall l: Limiter ensures Limit(l) in stack[..k] {
        assert Ahead(stack, Limit(l), TrailingSlash);
        var i, j :| 0 <= i < j < |stack| && stack[i] == Limit(l) && stack[j] == TrailingSlash;
        assert j == k && stack[..k][i] == Limit(l);
      }
      if l: Limiter :| Selects(l, r.path) {
        assert !OverLimit(l, r, b);
        assert Left(after, l) != Left(b, l);
      } else {
        SameBudgets(after, b);
      }
    }
  }

  // ---------------------------------------------------------------------------
  // Which paths are metered
  // ---------------------------------------------------------------------------

  /** A spelling the router leaves as it is. */
  predicate Settled(name: string) {
    name != "" && Lower(name) == name && name[|name| - 1] != '/'
  }

  lemma {:induction false} SettledIsRouted(name: string)
    requires Settled(name)
    ensures Routed(AUTH_SCOPE + name) == AUTH_SCOPE + name
  {
    var path := AUTH_SCOPE + name;
    assert Lower(AUTH_SCOPE) == AUTH_SCOPE;
    assert Lower(path) == Lower(AUTH_SCOPE) + Lower(name);
    assert path[|path| - 1] == name[|name| - 1];
  }

  lemma {:induction false} ShortNamesAreSettled()
    ensures Settled("login") && Settled("register") && Settled("totp") && Settled("totp/setup") && Settled("logout")
  {
    assert Lower("login") == "login" && Lower("register") == "register" && Lower("totp") == "totp";
    assert Lower("totp/setup") == "totp/setup" && Lower("logout") == "logout";
  }

  lemma {:induction false} LongNamesAreSettled()
    ensures Settled("change-password") && Settled("totp/verify-login")
    ensures Settled("oidc/authorize") && Settled("oidc/callback")
  {
    assert Lower("change-password") == "change-password" && Lower("totp/verify-login") == "totp/verify-login";
    assert Lower("oidc/authorize") == "oidc/authorize" && Lower("oidc/callback") == "oidc/callback";
  }

  lemma {:induction false} LongestNameIsSettled()
    ensures Settled("totp/recovery-codes/regenerate")
  {
    assert Lower("totp/recovery-codes/regenerate") == "totp/recovery-codes/regenerate";
  }

  lemma {:induction false} AuthNamesAreSettled()
    ensures forall k :: 0 <= k < |AUTH_LIMITED| ==> Settled(AUTH_LIMITED[k])
  {
    ShortNamesAreSettled();
    LongNamesAreSettled();
    LongestNameIsSettled();
  }

  /** Every path of the auth cap stays on it in any letter case and with any number of trailing slashes. */
  lemma {:induction false} AuthCapHoldsUnderEverySpelling(k: nat, cased: string, slashes: string)
    requires k < |AUTH_LIMITED| && EqualFold(AUTH_SCOPE + AUTH_LIMITED[k], cased) && AllOf(slashes, IsSlash)
    ensures Selects(AuthCap, cased + slashes)
  {
    AuthNamesAreSettled();
    SettledIsRouted(AUTH_LIMITED[k]);
    assert IsAuthPath(Routed(AUTH_SCOPE + AUTH_LIMITED[k]), AUTH_LIMITED[k]);
    SpellingsShareTheirLimiters(AuthCap, AUTH_SCOPE + AUTH_LIMITED[k], cased, slashes);
  }

  /**
   Below the auth scope the general limiter steps aside, so a path there is metered exactly
   when a cap of its own names it.
   */
  lemma {:induction false} AuthScopeMeteredExactly(name: string, slashes: string)
    requires Settled(name) && AllOf(slashes, IsSlash)
    ensures Metered(AUTH_SCOPE + name + slashes) <==>
            || name in AUTH_LIMITED || name == "refresh" || name == "ws-token"
            || HasSuffix(AUTH_SCOPE + name, RESYNC_SUFFIX)
  {
    var path := AUTH_SCOPE + name;
    SettledIsRouted(name);
    forall l: Limiter ensures Selects(l, path + slashes) <==> SelectsSpelling(l, path) {
      SpellingsShareTheirLimiters(l, path, path, slashes);
    }
    AuthScopeSelection(name);
    if Metered(path + slashes) {
      var l: Limiter :| Selects(l, path + slashes);
      assert SelectsSpelling(l, path);
    }
    assert SelectsSpelling(AuthCap, path) ==> Selects(AuthCap, path + slashes);
    assert SelectsSpelling(RefreshCap, path) ==> Selects(RefreshCap, path + slashes);
    assert SelectsSpelling(WsTokenCap, path) ==> Selects(WsTokenCap, path + slashes);
    assert SelectsSpelling(ResyncCap, path) ==> Selects(ResyncCap, path + slashes);
  }

  lemma {:induction false} OneAuthPath(name: string, other: string)
    ensures IsAuthPath(AUTH_SCOPE + name, other) <==> name == other
  {
    assert (AUTH_SCOPE + name)[|AUTH_SCOPE|..] == name && (AUTH_SCOPE + other)[|AUTH_SCOPE|..] == other;
  }

  lemma {:induction false} AuthScopeSelection(name: string)
    ensures SelectsSpelling(AuthCap, AUTH_SCOPE + name) <==> name in AUTH_LIMITED
    ensures SelectsSpelling(RefreshCap, AUTH_SCOPE + name) <==> name == "refresh"
    ensures SelectsSpelling(WsTokenCap, AUTH_SCOPE + name) <==> name == "ws-token"
    ensures !SelectsSpelling(GeneralCap, AUTH_SCOPE + name)
  {
    forall k | 0 <= k < |AUTH_LIMITED|
      ensures IsAuthPath(AUTH_SCOPE + name, AUTH_LIMITED[k]) <==> name == AUTH_LIMITED[k]
    {
      OneAuthPath(name, AUTH_LIMITED[k]);
    }
    OneAuthPath(name, "refresh");
    OneAuthPath(name, "ws-token");
    assert (AUTH_SCOPE + name)[..|AUTH_SCOPE|] == AUTH_SCOPE;
  }

  /** The rule that a refused write spends its caller's budget fails here: no limiter counts a logout. */
  lemma {:induction false} LogoutSlashIsFree(stack: seq<Gate>, r: Incoming, b: Budgets, parses: string -> bool)
    requires Ordered(stack) && OnlyTheSlashIsLeft(r, b, parses)
    requires r.verb == "POST" && r.path == AUTH_SCOPE + "logout" + "/"
    ensures Dispatch(stack, r, b, parses) == (Some(400), b)
  {
    ShortNamesAreSettled();
    AuthScopeMeteredExactly("logout", "/");
    assert "logout" !in AUTH_LIMITED;
    assert (AUTH_SCOPE + "logout")[|AUTH_SCOPE + "logout"| - 1] == 't' && RESYNC_SUFFIX[|RESYNC_SUFFIX| - 1] == 'c';
    assert !HasSuffix(AUTH_SCOPE + "logout", RESYNC_SUFFIX);
    SlashRefusalChargedExactly(stack, r, b, parses);
  }

  // ---------------------------------------------------------------------------
  // What reaches a route
  // ---------------------------------------------------------------------------

  /** The exempt request is a multipart POST to the one upload route, of a type nothing reads as JSON. */
  lemma {:induction false} ExemptIsTheUpload(r: Incoming, parses: string -> bool)
    requires Exempt(r, parses)
    ensures r.verb == "POST" && IsMultipart(r.contentType, parses) && !IsJson(r.contentType)
    ensures exists cluster, storage :: IsUploadPath(r.path, cluster, storage)
  {
    UploadPathExact(r.path);
  }

  lemma {:induction false} EveryGatePassed(stack: seq<Gate>, r: Incoming, b: Budgets, parses: string -> bool, g: Gate)
    requires Ordered(stack) && Dispatch(stack, r, b, parses).0.None?
    ensures Answer(g, r, b, parses).None?
  {
    EveryGateIsRegistered(stack, g);
    var k := DispatchExact(stack, r, b, parses);
    var j :| 0 <= j < |stack| && stack[j] == g;
    assert Answer(stack[j], r, b, parses).None?;
  }

  /** What the gates have established about a request that reaches its route. */
  lemma {:induction false} PassedTheStack(stack: seq<Gate>, r: Incoming, b: Budgets, parses: string -> bool)
    requires Ordered(stack) && Dispatch(stack, r, b, parses).0.None?
    ensures RefusalOf(r.raw) == Clear && !Coded(r.headers)
    ensures !Exempt(r, parses) ==> r.framing != CHUNKED_FRAMING && r.framing <= API_BODY_LIMIT
  {
    EveryGatePassed(stack, r, b, parses, AmbiguousFraming);
    EveryGatePassed(stack, r, b, parses, ContentCoding);
    EveryGatePassed(stack, r, b, parses, ChunkedBody);
    EveryGatePassed(stack, r, b, parses, BodySize);
  }

  lemma {:induction false} SlashesReachingRoutesAreReads(
    stack: seq<Gate>, r: Incoming, b: Budgets, parses: string -> bool)
    requires Ordered(stack) && Dispatch(stack, r, b, parses).0.None?
    ensures EndsInSlash(r.path) && r.path != "/" ==> IsReadMethod(r.verb)
  {
    EveryGatePassed(stack, r, b, parses, TrailingSlash);
  }

  /**
   Every request that reaches a route was framed alike by the server and by the
   front-end, and the fields both read name no content coding. Unless it is the exempt
   upload, its body ends within the limit, whatever the handler does it reads no byte
   past that end, and it does so under the body deadline.
   */
  lemma {:induction false} BodiesReachingRoutesAreBounded(
    stack: seq<Gate>, w: Wire, p: nat, timeout: real, r: Request, b: Budgets)
    requires Ordered(stack) && ValidWire(w) && LegalRequest(w, p, timeout, r)
    requires ServerReading(w.heads(p).raw, w.lengthOf).Some?
    requires Dispatch(stack, Arriving(w, p), b, w.parses).0.None?
    ensures LineReading(w.heads(p).raw, w.lengthOf) == ServerReading(w.heads(p).raw, w.lengthOf)
    ensures !Coded(LineReading(w.heads(p).raw, w.lengthOf).value.fields)
    ensures var framing := ServerReading(w.heads(p).raw, w.lengthOf).value.framing;
            var after := Perform(Begun(w, p, framing, r.ahead, r.now, timeout), r.script);
            if Exempt(Arriving(w, p), w.parses) then after.deadline == None
            else
              && MessageEnd(w, p) <= p + w.heads(p).size + API_BODY_LIMIT
              && after.pos <= MessageEnd(w, p)
              && after.deadline == Some(r.now + timeout)
  {
    var i := Arriving(w, p);
    PassedTheStack(stack, i, b, w.parses);
    ReadingsCoincide(w.heads(p).raw, w.lengthOf);
    HandlerStaysInside(w, p, i.framing, timeout, r);
  }
}
