/**
 A kept-alive connection under `closeConnectionsLeftMidBody` (`internal/api/body_framing.go`).

 The stream is what a front-end sends: from every byte position a parse would read
 some head, and the front-end's own reading of the heads (`HeadReadings.LineReading`)
 says where each message ends. The server reads the same heads its own way, hands the
 body to a handler that reads any part of it in any way, and goes on parsing at
 whatever byte it has reached unless the wrapper closes the connection.

 Assumed of the HTTP library: a stream read to its end by the body accessor is
 detached, one read by the handler itself stays attached, a failed read detaches it
 wherever it stood, and a body read fails only at the deadline, on a malformed chunk
 or when the connection itself is gone.
 */
module Connection {
  import opened Options
  import opened HeadReadings
  import opened Uploads

  datatype Head = Head(size: nat, raw: string, verb: string, path: string, contentType: string)

  /** The bytes on the wire, as far as framing can tell. */
  datatype Wire = Wire(
    heads: nat -> Head,            // what a parse at this byte reads
    chunks: nat -> nat,            // the bytes of a chunked body that starts at this byte
    lengthOf: seq<string> -> int,  // how Content-Length values are read
    parses: string -> bool)        // which Content-Types parse

  ghost predicate ValidWire(w: Wire) {
    && (forall p :: w.heads(p).size > 0)
    && (forall values :: w.lengthOf(values) != CHUNKED_FRAMING)
  }

  const READ_AHEAD: nat := 8192

  // ---------------------------------------------------------------------------
  // Where the messages are
  // ---------------------------------------------------------------------------

  function BodyBytes(w: Wire, bodyAt: nat, framing: int): nat {
    if framing == CHUNKED_FRAMING then w.chunks(bodyAt) else if framing > 0 then framing else 0
  }

  /** The end of the message whose head is at `p`, as the front-end framed it. */
  function MessageEnd(w: Wire, p: nat): nat {
    var head := w.heads(p);
    var reading := LineReading(head.raw, w.lengthOf);
    p + head.size + if reading.Some? then BodyBytes(w, p + head.size, reading.value.framing) else 0
  }

  /** The first byte of the front-end's k-th message. */
  function MessageStart(w: Wire, k: nat): nat {
    if k == 0 then 0 else MessageEnd(w, MessageStart(w, k - 1))
  }

  // ---------------------------------------------------------------------------
  // One request: the handler and the decision after it
  // ---------------------------------------------------------------------------

  /** The server's side of the connection while a handler runs. */
  datatype Serving = Serving(
    now: real, deadline: Option<real>, pos: nat, end: nat, framing: int, attached: bool, alive: bool)

  datatype Action =
    | Elapse(to: real)
    /** The handler reads the stream itself. */
    | ReadStream(bytes: nat)
    /** The body accessor reads to the end and detaches the stream. */
    | ReadBody
    /** A read is cut at the deadline, part of the way. */
    | CutRead(bytes: nat)
    /** A malformed chunk ends the read anywhere. */
    | BadChunk(bytes: nat)
    /** The connection itself fails. */
    | Breaks(bytes: nat)

  predicate Expired(s: Serving) {
    s.deadline.Some? && s.deadline.value <= s.now
  }

  predicate Allowed(s: Serving, a: Action) {
    match a
    case Elapse(to) => s.now <= to
    case ReadStream(bytes) => s.attached && s.alive && s.pos + bytes <= s.end
    case ReadBody => s.attached && s.alive
    case CutRead(bytes) => s.attached && s.alive && Expired(s) && s.pos + bytes <= s.end
    case BadChunk(bytes) => s.attached && s.alive && s.framing == CHUNKED_FRAMING && s.pos + bytes <= s.end
    case Breaks(bytes) => s.alive && s.pos + bytes <= s.end
  }

  function Act(s: Serving, a: Action): Serving
    requires Allowed(s, a)
  {
    match a
    case Elapse(to) => s.(now := to)
    case ReadStream(bytes) => s.(pos := s.pos + bytes)
    case ReadBody => s.(pos := s.end, attached := false)
    case CutRead(bytes) => s.(pos := s.pos + bytes, attached := false)
    case BadChunk(bytes) => s.(pos := s.pos + bytes, attached := false)
    case Breaks(bytes) => s.(pos := s.pos + bytes, attached := false, alive := false)
  }

  predicate LegalScript(s: Serving, script: seq<Action>)
    decreases |script|
  {
    script == [] || (Allowed(s, script[0]) && LegalScript(Act(s, script[0]), script[1..]))
  }

  function Perform(s: Serving, script: seq<Action>): Serving
    requires LegalScript(s, script)
    decreases |script|
  {
    if script == [] then s else Perform(Act(s, script[0]), script[1..])
  }

  /** `bodyMayBeLeftUnread`. */
  predicate MayBeLeftUnread(framing: int, attached: bool) {
    if framing == CHUNKED_FRAMING then true else framing > 0 && attached
  }

  ghost function DeadlineFor(w: Wire, head: Head, now: real, timeout: real): Option<real> {
    if IsStreamedUpload(head.verb, head.path, head.contentType, w.parses) then None else Some(now + timeout)
  }

  /** What a handler is handed: the head at `p` read the server's way, part of the body read ahead. */
  ghost function Begun(w: Wire, p: nat, framing: int, ahead: nat, now: real, timeout: real): Serving {
    BegunBy(w, p, framing, ahead, now, DeadlineFor(w, w.heads(p), now, timeout))
  }

  ghost function BegunBy(w: Wire, p: nat, framing: int, ahead: nat, now: real, deadline: Option<real>): Serving {
    var bodyAt := p + w.heads(p).size;
    var end := bodyAt + BodyBytes(w, bodyAt, framing);
    Serving(now, deadline,
            if framing > 0 && bodyAt + ahead <= end && ahead <= READ_AHEAD then bodyAt + ahead else bodyAt,
            end, framing, framing >= CHUNKED_FRAMING, true)
  }

  datatype Request = Request(ahead: nat, now: real, script: seq<Action>)

  datatype Outcome = Kept(at: nat) | Closed

  ghost predicate LegalRequest(w: Wire, p: nat, timeout: real, r: Request) {
    var reading := ServerReading(w.heads(p).raw, w.lengthOf);
    reading.Some? ==> LegalScript(Begun(w, p, reading.value.framing, r.ahead, r.now, timeout), r.script)
  }

  /** One turn of the server's loop: parse at `p`, handle, then close or go on. */
  ghost function Served(w: Wire, p: nat, timeout: real, r: Request): Outcome
    requires LegalRequest(w, p, timeout, r)
  {
    var head := w.heads(p);
    var reading := ServerReading(head.raw, w.lengthOf);
    if reading.None? then Closed
    else
      var s := Perform(Begun(w, p, reading.value.framing, r.ahead, r.now, timeout), r.script);
      if RefusalOf(head.raw) != Clear || Expired(s) || MayBeLeftUnread(reading.value.framing, s.attached) || !s.alive
      then Closed else Kept(s.pos)
  }

  // ---------------------------------------------------------------------------
  // Every run of a connection
  // ---------------------------------------------------------------------------

  /** `parsed[k]` is the byte the k-th head is parsed at; the connection was kept in between. */
  ghost predicate IsConnection(w: Wire, timeout: real, parsed: seq<nat>, requests: seq<Request>) {
    && |parsed| == |requests| + 1
    && parsed[0] == 0
    && forall k :: 0 <= k < |requests| ==>
         && LegalRequest(w, parsed[k], timeout, requests[k])
         && Served(w, parsed[k], timeout, requests[k]) == Kept(parsed[k + 1])
  }

  /** The invariant of a handler's script: a detached body was read to its end, or says why not. */
  predicate Tracked(s: Serving) {
    && s.pos <= s.end
    && (!s.attached && s.framing > 0 && s.alive && !Expired(s) ==> s.pos == s.end)
    && (s.framing <= 0 && s.framing != CHUNKED_FRAMING ==> s.pos == s.end)
  }

  lemma {:induction false} ScriptKeepsTracked(s: Serving, script: seq<Action>)
    requires Tracked(s) && LegalScript(s, script)
    ensures Tracked(Perform(s, script))
    ensures Perform(s, script).end == s.end && Perform(s, script).framing == s.framing
    ensures Perform(s, script).deadline == s.deadline && s.now <= Perform(s, script).now
    decreases |script|
  {
    if script == [] {
    } else {
      ScriptKeepsTracked(Act(s, script[0]), script[1..]);
    }
  }

  /** Whatever a handler does, it reads nothing past its message, under the deadline it was given. */
  lemma {:induction false} HandlerStaysInside(w: Wire, p: nat, framing: int, timeout: real, r: Request)
    requires LegalScript(Begun(w, p, framing, r.ahead, r.now, timeout), r.script)
    ensures var after := Perform(Begun(w, p, framing, r.ahead, r.now, timeout), r.script);
            && after.pos <= p + w.heads(p).size + BodyBytes(w, p + w.heads(p).size, framing)
            && after.deadline == DeadlineFor(w, w.heads(p), r.now, timeout)
  {
    ScriptKeepsTracked(Begun(w, p, framing, r.ahead, r.now, timeout), r.script);
  }

  /** A connection that is kept stands at the end of the message the front-end sent. */
  lemma {:induction false} KeptAtTheBoundary(w: Wire, p: nat, timeout: real, r: Request)
    requires ValidWire(w) && LegalRequest(w, p, timeout, r) && Served(w, p, timeout, r).Kept?
    ensures Served(w, p, timeout, r).at == MessageEnd(w, p)
  {
    var head := w.heads(p);
    var framing := ServerReading(head.raw, w.lengthOf).value.framing;
    ReadingsCoincide(head.raw, w.lengthOf);
    ScriptKeepsTracked(Begun(w, p, framing, r.ahead, r.now, timeout), r.script);
  }

  /**
   In every run of a connection, whatever the handlers read and whenever the deadline
   passes, each head is parsed exactly where the front-end's next message starts.
   */
  lemma {:induction false} HeadsParsedAtBoundaries(
    w: Wire, timeout: real, parsed: seq<nat>, requests: seq<Request>, k: nat)
    requires ValidWire(w) && IsConnection(w, timeout, parsed, requests) && k < |parsed|
    ensures parsed[k] == MessageStart(w, k)
  {
    if k == 0 {
    } else {
      HeadsParsedAtBoundaries(w, timeout, parsed, requests, k - 1);
      assert Served(w, parsed[k - 1], timeout, requests[k - 1]) == Kept(parsed[k - 1 + 1]);
      KeptAtTheBoundary(w, parsed[k - 1], timeout, requests[k - 1]);
    }
  }

  /** The time at which a script that starts at `now` ends. */
  function EndTime(now: real, script: seq<Action>): real
    decreases |script|
  {
    if script == [] then now else EndTime(if script[0].Elapse? then script[0].to else now, script[1..])
  }

  predicate NeverBreaks(script: seq<Action>) {
    forall k :: 0 <= k < |script| ==> !script[k].Breaks?
  }

  /** A body whose length is known and whose deadline held: only the accessor detaches it. */
  lemma {:induction false} ScriptEnds(s: Serving, script: seq<Action>)
    requires LegalScript(s, script) && s.framing != CHUNKED_FRAMING && s.alive
    requires s.deadline.Some? ==> EndTime(s.now, script) < s.deadline.value
    ensures Perform(s, script).alive <==> NeverBreaks(script)
    ensures NeverBreaks(script) ==> (Perform(s, script).attached <==> s.attached && ReadBody !in script)
    decreases |script|
  {
    if script == [] {
    } else {
      var first, rest := script[0], script[1..];
      assert script == [first] + rest;
      ClockGoesOn(s, script);
      if first.Breaks? {
        StaysDead(Act(s, first), rest);
      } else {
        ScriptEnds(Act(s, first), rest);
      }
    }
  }

  lemma {:induction false} ClockGoesOn(s: Serving, script: seq<Action>)
    requires LegalScript(s, script)
    ensures s.now <= EndTime(s.now, script) == Perform(s, script).now
    decreases |script|
  {
    if script == [] {
    } else {
      ClockGoesOn(Act(s, script[0]), script[1..]);
    }
  }

  lemma {:induction false} StaysDead(s: Serving, script: seq<Action>)
    requires LegalScript(s, script) && !s.alive
    ensures !Perform(s, script).alive
    decreases |script|
  {
    if script == [] {
    } else {
      StaysDead(Act(s, script[0]), script[1..]);
    }
  }

  /** The handler gives no reason to close, read off its script alone. */
  predicate HarmlessScript(framing: int, now: real, deadline: Option<real>, script: seq<Action>) {
    && framing != CHUNKED_FRAMING
    && (framing > 0 ==> ReadBody in script)
    && NeverBreaks(script)
    && (deadline.Some? ==> EndTime(now, script) < deadline.value)
  }

  lemma {:induction false} ScriptDecides(s: Serving, script: seq<Action>)
    requires LegalScript(s, script) && s.alive && (s.framing > 0 ==> s.attached)
    ensures var after := Perform(s, script);
            !Expired(after) && !MayBeLeftUnread(s.framing, after.attached) && after.alive <==>
              HarmlessScript(s.framing, s.now, s.deadline, script)
  {
    ClockGoesOn(s, script);
    PerformKeepsDeadline(s, script);
    if s.framing != CHUNKED_FRAMING && !Expired(Perform(s, script)) {
      ScriptEnds(s, script);
    }
  }

  /** The request's own part in keeping its connection. */
  ghost predicate Harmless(w: Wire, p: nat, timeout: real, r: Request) {
    var head := w.heads(p);
    var reading := ServerReading(head.raw, w.lengthOf);
    && reading.Some? && RefusalOf(head.raw) == Clear
    && HarmlessScript(reading.value.framing, r.now, DeadlineFor(w, head, r.now, timeout), r.script)
  }

  /**
   Both directions, for every request and every handler: the connection is kept, at the
   end of the message, exactly when the head is unambiguous, the body is not chunked and
   was read whole by the accessor if there is one, the connection did not fail and the
   deadline had not passed when the handler returned.
   */
  lemma {:induction false} KeptExactly(w: Wire, p: nat, timeout: real, r: Request)
    requires ValidWire(w) && LegalRequest(w, p, timeout, r)
    ensures Served(w, p, timeout, r) == if Harmless(w, p, timeout, r) then Kept(MessageEnd(w, p)) else Closed
  {
    var reading := ServerReading(w.heads(p).raw, w.lengthOf);
    if reading.Some? {
      ScriptDecides(Begun(w, p, reading.value.framing, r.ahead, r.now, timeout), r.script);
    }
    if Served(w, p, timeout, r).Kept? {
      KeptAtTheBoundary(w, p, timeout, r);
    }
  }

  /** Request `k`, arriving at its own message's first byte, gives no reason to close. */
  ghost predicate HarmlessAt(w: Wire, timeout: real, requests: seq<Request>, k: nat)
    requires k < |requests|
  {
    LegalRequest(w, MessageStart(w, k), timeout, requests[k]) && Harmless(w, MessageStart(w, k), timeout, requests[k])
  }

  lemma {:induction false} ServedIsHarmless(w: Wire, timeout: real, parsed: seq<nat>, requests: seq<Request>, k: nat)
    requires ValidWire(w) && IsConnection(w, timeout, parsed, requests) && k < |requests|
    ensures HarmlessAt(w, timeout, requests, k)
  {
    HeadsParsedAtBoundaries(w, timeout, parsed, requests, k);
    var p, r := parsed[k], requests[k];
    assert LegalRequest(w, p, timeout, r) && Served(w, p, timeout, r) == Kept(parsed[k + 1]);
    KeptExactly(w, p, timeout, r);
  }

  lemma {:induction false} HarmlessIsServed(w: Wire, timeout: real, requests: seq<Request>, k: nat)
    requires ValidWire(w) && k < |requests| && HarmlessAt(w, timeout, requests, k)
    ensures Served(w, MessageStart(w, k), timeout, requests[k]) == Kept(MessageStart(w, k + 1))
  {
    KeptExactly(w, MessageStart(w, k), timeout, requests[k]);
  }

  function MessageStarts(w: Wire, n: nat): (starts: seq<nat>)
    ensures |starts| == n && forall k :: 0 <= k < n ==> starts[k] == MessageStart(w, k)
  {
    seq(n, k requires 0 <= k => MessageStart(w, k))
  }

  lemma {:induction false} HarmlessConnection(w: Wire, timeout: real, requests: seq<Request>)
    requires ValidWire(w) && forall k :: 0 <= k < |requests| ==> HarmlessAt(w, timeout, requests, k)
    ensures IsConnection(w, timeout, MessageStarts(w, |requests| + 1), requests)
  {
    var parsed := MessageStarts(w, |requests| + 1);
    forall k | 0 <= k < |requests|
      ensures LegalRequest(w, parsed[k], timeout, requests[k])
      ensures Served(w, parsed[k], timeout, requests[k]) == Kept(parsed[k + 1])
    {
      assert HarmlessAt(w, timeout, requests, k);
      HarmlessIsServed(w, timeout, requests, k);
    }
  }

  /** Over whole runs: a connection serves these requests one after the other exactly when none of them costs it. */
  lemma {:induction false} ServedToTheEndExactly(w: Wire, timeout: real, requests: seq<Request>)
    requires ValidWire(w)
    ensures (exists parsed :: IsConnection(w, timeout, parsed, requests)) <==>
            forall k :: 0 <= k < |requests| ==> HarmlessAt(w, timeout, requests, k)
  {
    if parsed :| IsConnection(w, timeout, parsed, requests) {
      forall k | 0 <= k < |requests| ensures HarmlessAt(w, timeout, requests, k) {
        ServedIsHarmless(w, timeout, parsed, requests, k);
      }
    }
    if forall k :: 0 <= k < |requests| ==> HarmlessAt(w, timeout, requests, k) {
      HarmlessConnection(w, timeout, requests);
    }
  }

  // ---------------------------------------------------------------------------
  // The wrapper itself
  // ---------------------------------------------------------------------------

  method BodyDeadline(w: Wire, head: Head, now: real, timeout: real) returns (deadline: Option<real>)
    ensures deadline == DeadlineFor(w, head, now, timeout)
  {
    var streamed := DecideStreamedUpload(head.verb, head.path, head.contentType, w.parses);
    deadline := if streamed then None else Some(now + timeout);
  }

  /** The connection as the wrapper changes it: its read deadline, its reader, its close flag. */
  class ServerConnection {
    var state: Serving
    var closeAfter: bool

    constructor ()
      ensures !closeAfter
    {
      state := Serving(0.0, None, 0, 0, 0, false, true);
      closeAfter := false;
    }

    /** The handler: any legal script of reads and waits. */
    method RunHandler(script: seq<Action>)
      requires LegalScript(state, script)
      modifies this`state
      ensures state == Perform(old(state), script)
    {
      var i := 0;
      while i < |script|
        invariant 0 <= i <= |script|
        invariant LegalScript(state, script[i..])
        invariant Perform(state, script[i..]) == Perform(old(state), script)
      {
        state := Act(state, script[i]);
        assert script[i..][1..] == script[i + 1..];
        i := i + 1;
      }
    }

    /** Before the handler: the body deadline replaces the read deadline. */
    method Begin(w: Wire, p: nat, framing: int, deadline: Option<real>, r: Request)
      modifies this`state
      ensures state == BegunBy(w, p, framing, r.ahead, r.now, deadline)
    {
      var bodyAt := p + w.heads(p).size;
      var end := bodyAt + BodyBytes(w, bodyAt, framing);
      var readTo := bodyAt;
      if framing > 0 && bodyAt + r.ahead <= end && r.ahead <= READ_AHEAD {
        readTo := bodyAt + r.ahead;
      }
      state := Serving(r.now, deadline, readTo, end, framing, framing >= CHUNKED_FRAMING, true);
    }

    /** The wrapper around one request whose head, at `p`, the server has parsed. */
    method Handle(w: Wire, p: nat, timeout: real, r: Request)
      requires LegalRequest(w, p, timeout, r) && ServerReading(w.heads(p).raw, w.lengthOf).Some?
      modifies this
      ensures closeAfter || !state.alive <==> Served(w, p, timeout, r) == Closed
      ensures Served(w, p, timeout, r).Kept? ==> Served(w, p, timeout, r).at == state.pos
    {
      var framing := ServerReading(w.heads(p).raw, w.lengthOf).value.framing;
      var refusal := AmbiguousFramingRefusal(w.heads(p).raw);
      var bodyDeadline := BodyDeadline(w, w.heads(p), r.now, timeout);
      Begin(w, p, framing, bodyDeadline, r);
      PerformKeepsDeadline(state, r.script);
      RunHandler(r.script);
      var expired := bodyDeadline.Some? && bodyDeadline.value <= state.now;
      closeAfter := refusal != Clear || expired || MayBeLeftUnread(framing, state.attached);
    }
  }

  lemma {:induction false} PerformKeepsDeadline(s: Serving, script: seq<Action>)
    requires LegalScript(s, script)
    ensures Perform(s, script).deadline == s.deadline
    decreases |script|
  {
    if script == [] {
    } else {
      PerformKeepsDeadline(Act(s, script[0]), script[1..]);
    }
  }
}
