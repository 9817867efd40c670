/**
 `runWithLeaderRetry` as a timed transition system: any number of processes compete
 for one role's row.

 Assumptions carried as parameters or by the steps: a statement is answered within
 `latency` of its call and takes effect at most once, between call and answer; its
 stamp lies between the call and the effect; the answer may be lost whether or not
 the statement took effect. `run` returns within `drain` of its cancellation. A
 crashed process's statement may still land at any later time.
 */
module LeaderRuns {
  import opened Options
  import opened LeaderTable

  datatype Config = Config(n: nat, latency: real, drain: real)

  predicate ValidConfig(c: Config) {
    0.0 <= c.latency && 0.0 <= c.drain
  }

  datatype Sql = Upsert | Beat | Delete

  /** A statement between call and answer; `hit` once it has landed on a row of the caller. */
  datatype Call = Call(at: real, landed: bool, hit: bool)

  datatype Flight = Flight(sql: Sql, call: Call)

  datatype Phase =
    | Unstarted
    | Waiting(retryAt: real)
    | Acquiring(call: Call)
    /** Inside `run`; `due` is the ticker's one-slot channel. */
    | Running(nextTick: real, due: bool, failures: nat, beat: Option<Call>)
    /** The run context is cancelled; both goroutines are being waited for. */
    | Draining(since: real, inRun: bool, beat: Option<Call>)
    | Releasing(call: Call)
    | Stopped
    | Crashed(orphan: Option<Flight>)

  datatype State = State(now: real, row: Option<Row>, insts: seq<Phase>)

  datatype Step =
    | Advance(to: real)
    | Start(i: nat)
    | Retry(i: nat)
    | Land(i: nat, stamp: real)
    | Answer(i: nat, ok: bool)
    | TickFires(i: nat)
    | CallBeat(i: nat)
    | Cancel(i: nat)
    | RunReturns(i: nat)
    | BeginRelease(i: nat)
    | Stop(i: nat)
    | Crash(i: nat)

  /** The process is executing its `run` callback. */
  predicate InRun(p: Phase) {
    p.Running? || (p.Draining? && p.inRun)
  }

  function InFlight(p: Phase): Option<Flight> {
    match p
    case Acquiring(call) => Some(Flight(Upsert, call))
    case Running(_, _, _, beat) => if beat.Some? then Some(Flight(Beat, beat.value)) else None
    case Draining(_, _, beat) => if beat.Some? then Some(Flight(Beat, beat.value)) else None
    case Releasing(call) => Some(Flight(Delete, call))
    case Crashed(orphan) => orphan
    case _ => None
  }

  function WithCall(p: Phase, call: Call): Phase
    requires InFlight(p).Some?
  {
    match p
    case Acquiring(_) => Acquiring(call)
    case Running(nextTick, due, failures, _) => Running(nextTick, due, failures, Some(call))
    case Draining(since, inRun, _) => Draining(since, inRun, Some(call))
    case Releasing(_) => Releasing(call)
    case Crashed(orphan) => Crashed(Some(Flight(orphan.value.sql, call)))
  }

  function Effect(sql: Sql, row: Option<Row>, me: Holder, stamp: real): Option<Row> {
    match sql
    case Upsert => Upserted(row, me, stamp)
    case Beat => Beaten(row, me, stamp)
    case Delete => Deleted(row, me)
  }

  /** Whether the statement found, or made, a row of the caller's. */
  predicate Hits(sql: Sql, row: Option<Row>, me: Holder, stamp: real) {
    Owns(row, me) || (sql == Upsert && Owns(Upserted(row, me, stamp), me))
  }

  function Called(now: real): Call {
    Call(now, false, false)
  }

  /** The phase after an answer; an answer that is not ok is an error of unknown effect. */
  function Answered(p: Phase, now: real, ok: bool): Phase
    requires InFlight(p).Some? && !p.Crashed?
  {
    match p
    case Acquiring(call) =>
      if ok && call.hit then Running(now + HEARTBEAT_INTERVAL, false, 0, None) else Waiting(now + RETRY_INTERVAL)
    case Running(nextTick, due, failures, beat) =>
      var turn := HeartbeatTurn(failures, if !ok then Failed else Updated(if beat.value.hit then 1 else 0));
      if turn.Some? then Running(nextTick, due, turn.value, None) else Draining(now, true, None)
    case Draining(since, inRun, _) => Draining(since, inRun, None)
    case Releasing(_) => Waiting(now)
  }

  /** How long this process may let time pass before its own next move is due. */
  predicate MayWait(c: Config, p: Phase, now: real, to: real) {
    match p
    case Waiting(retryAt) => to <= retryAt
    case Acquiring(call) => to <= call.at + c.latency
    case Running(nextTick, due, _, beat) =>
      && to <= nextTick
      && (if beat.Some? then to <= beat.value.at + c.latency else due ==> to <= now)
    case Draining(since, inRun, beat) =>
      && (inRun ==> to <= since + c.drain)
      && (beat.Some? ==> to <= beat.value.at + c.latency)
    case Releasing(call) => to <= call.at + RELEASE_TIMEOUT
    case _ => true
  }

  predicate Enabled(c: Config, s: State, step: Step) {
    match step
    case Advance(to) =>
      s.now <= to && forall i :: 0 <= i < |s.insts| ==> MayWait(c, s.insts[i], s.now, to)
    case _ =>
      step.i < |s.insts| && EnabledAt(s.insts[step.i], s.now, step)
  }

  predicate EnabledAt(p: Phase, now: real, step: Step)
    requires !step.Advance?
  {
    match step
    case Start(_) => p.Unstarted?
    case Retry(_) => p.Waiting? && p.retryAt <= now
    case Land(_, stamp) =>
      InFlight(p).Some? && !InFlight(p).value.call.landed && InFlight(p).value.call.at <= stamp <= now
    case Answer(_, ok) => InFlight(p).Some? && !p.Crashed? && (ok ==> InFlight(p).value.call.landed)
    case TickFires(_) => p.Running? && p.nextTick <= now
    case CallBeat(_) => p.Running? && p.due && p.beat.None?
    case Cancel(_) => p.Running?
    case RunReturns(_) => InRun(p)
    case BeginRelease(_) => p.Draining? && !p.inRun && p.beat.None?
    case Stop(_) => p.Waiting?
    case Crash(_) => !p.Unstarted? && !p.Stopped? && !p.Crashed?
  }

  /** The acting process's phase after its step. */
  function Moved(p: Phase, row: Option<Row>, now: real, step: Step): Phase
    requires !step.Advance? && EnabledAt(p, now, step)
  {
    match step
    case Start(_) => Acquiring(Called(now))
    case Retry(_) => Acquiring(Called(now))
    case Land(i, stamp) =>
      var f := InFlight(p).value;
      WithCall(p, f.call.(landed := true, hit := Hits(f.sql, row, i, stamp)))
    case Answer(_, ok) => Answered(p, now, ok)
    case TickFires(_) => p.(due := true, nextTick := p.nextTick + HEARTBEAT_INTERVAL)
    case CallBeat(_) => Running(p.nextTick, false, p.failures, Some(Called(now)))
    case Cancel(_) => Draining(now, true, p.beat)
    case RunReturns(_) => Draining(if p.Running? then now else p.since, false, p.beat)
    case BeginRelease(_) => Releasing(Called(now))
    case Stop(_) => Stopped
    case Crash(_) => Crashed(InFlight(p))
  }

  function RowAfter(p: Phase, row: Option<Row>, now: real, step: Step): Option<Row>
    requires !step.Advance? && EnabledAt(p, now, step)
  {
    if step.Land? then Effect(InFlight(p).value.sql, row, step.i, step.stamp) else row
  }

  function After(c: Config, s: State, step: Step): State
    requires Enabled(c, s, step)
  {
    if step.Advance? then s.(now := step.to)
    else
      var p := s.insts[step.i];
      State(s.now, RowAfter(p, s.row, s.now, step), s.insts[step.i := Moved(p, s.row, s.now, step)])
  }

  /** No process has started; a row left behind belongs to none of them. */
  predicate Init(c: Config, s: State) {
    && |s.insts| == c.n
    && (forall i :: 0 <= i < c.n ==> s.insts[i] == Unstarted)
    && (s.row.Some? ==> c.n <= s.row.value.holder)
  }

  predicate IsRun(c: Config, states: seq<State>, steps: seq<Step>) {
    && |states| == |steps| + 1
    && Init(c, states[0])
    && Continues(c, states, steps)
  }

  predicate Continues(c: Config, states: seq<State>, steps: seq<Step>)
    requires |states| == |steps| + 1
  {
    forall k :: 0 <= k < |steps| ==> Enabled(c, states[k], steps[k]) && states[k + 1] == After(c, states[k], steps[k])
  }

  /** At most one process is inside `run`. */
  predicate Exclusive(s: State) {
    forall i, j :: 0 <= i < |s.insts| && 0 <= j < |s.insts| && InRun(s.insts[i]) && InRun(s.insts[j]) ==> i == j
  }

  // ---------------------------------------------------------------------------
  // The lease budget and the invariant it pays for
  // ---------------------------------------------------------------------------

  /** The longest time from one heartbeat's call to the next one's. */
  function Pace(c: Config): real {
    if c.latency <= HEARTBEAT_INTERVAL then HEARTBEAT_INTERVAL else c.latency
  }

  /**
   From the call that acquired the row to the return of `run`, every beat failing:
   the acquiring answer, the first tick, two more beats, the third answer, the drain.
   */
  predicate LeaseBudget(c: Config) {
    c.latency + HEARTBEAT_INTERVAL + 2.0 * Pace(c) + c.latency + c.drain <= TAKEOVER_AFTER
  }

  /** The beats still to be missed after the next one, each one pace apart. */
  function Remaining(c: Config, failures: nat): real {
    if failures == 0 then 2.0 * Pace(c) else if failures == 1 then Pace(c) else 0.0
  }

  /** The latest instant a running process can still be unaware that it must step down. */
  function LatestExit(c: Config, p: Phase, now: real): real
    requires p.Running? && p.failures < HEARTBEAT_GRACE
  {
    var nextCall := if p.beat.Some? then p.beat.value.at else if p.due then now else p.nextTick;
    nextCall + Remaining(c, p.failures) + c.latency
  }

  predicate CallBounded(c: Config, call: Call, now: real) {
    call.at <= now <= call.at + c.latency
  }

  predicate Holds(row: Option<Row>, me: Holder, since: real) {
    Owns(row, me) && since <= row.value.beat
  }

  /** What is true of process `i` in every reachable state. */
  predicate Sound(c: Config, now: real, row: Option<Row>, i: Holder, p: Phase) {
    match p
    case Acquiring(call) => CallBounded(c, call, now) && (call.hit ==> Holds(row, i, call.at))
    case Running(nextTick, due, failures, beat) =>
      && failures < HEARTBEAT_GRACE
      && now <= nextTick <= now + HEARTBEAT_INTERVAL
      && Holds(row, i, LatestExit(c, p, now) + c.drain - TAKEOVER_AFTER)
      && (beat.Some? ==>
            && CallBounded(c, beat.value, now)
            && (due || nextTick <= beat.value.at + HEARTBEAT_INTERVAL)
            && (beat.value.landed ==> beat.value.hit && Holds(row, i, beat.value.at)))
    case Draining(since, inRun, beat) =>
      inRun ==>
        && since <= now <= since + c.drain
        && Holds(row, i, since + c.drain - TAKEOVER_AFTER)
        && (beat.Some? ==> since + c.drain <= beat.value.at + TAKEOVER_AFTER)
    case _ => true
  }

  predicate Invariant(c: Config, s: State) {
    && |s.insts| == c.n
    && forall i :: 0 <= i < |s.insts| ==> Sound(c, s.now, s.row, i, s.insts[i])
  }

  /** A process that must own the row owns one whose lease has not run out. */
  predicate NeedsRow(p: Phase) {
    InRun(p) || (p.Acquiring? && p.call.hit)
  }

  lemma LeaseStillRuns(c: Config, now: real, row: Option<Row>, i: Holder, p: Phase)
    requires ValidConfig(c) && LeaseBudget(c) && Sound(c, now, row, i, p) && NeedsRow(p)
    ensures Owns(row, i) && !Stale(row, now)
  {
    if p.Running? {
      assert now <= LatestExit(c, p, now);
    }
  }

  /** A statement of another process cannot move a row that is still needed. */
  lemma OthersKeepTheRow(c: Config, now: real, row: Option<Row>, i: Holder, p: Phase, sql: Sql, j: Holder, stamp: real)
    requires ValidConfig(c) && LeaseBudget(c) && Sound(c, now, row, i, p)
    requires i != j && stamp <= now
    ensures Sound(c, now, Effect(sql, row, j, stamp), i, p)
  {
    if NeedsRow(p) {
      LeaseStillRuns(c, now, row, i, p);
    }
  }

  lemma TimeKeepsSound(c: Config, now: real, to: real, row: Option<Row>, i: Holder, p: Phase)
    requires ValidConfig(c) && Sound(c, now, row, i, p) && now <= to && MayWait(c, p, now, to)
    ensures Sound(c, to, row, i, p)
  {}

  /** The process's own statement lands. */
  lemma LandingKeepsSound(c: Config, now: real, row: Option<Row>, i: Holder, p: Phase, stamp: real)
    requires ValidConfig(c) && LeaseBudget(c) && Sound(c, now, row, i, p)
    requires EnabledAt(p, now, Land(i, stamp))
    ensures Sound(c, now, RowAfter(p, row, now, Land(i, stamp)), i, Moved(p, row, now, Land(i, stamp)))
  {}

  /** An answer arrives: acquiring opens a fresh lease, a beat renews it or spends a failure. */
  lemma AnswerKeepsSound(c: Config, now: real, row: Option<Row>, i: Holder, p: Phase, ok: bool)
    requires ValidConfig(c) && LeaseBudget(c) && Sound(c, now, row, i, p)
    requires EnabledAt(p, now, Answer(i, ok))
    ensures Sound(c, now, row, i, Moved(p, row, now, Answer(i, ok)))
  {}

  /** Every other step of the process. */
  lemma MoveKeepsSound(c: Config, now: real, row: Option<Row>, i: Holder, p: Phase, step: Step)
    requires ValidConfig(c) && LeaseBudget(c) && Sound(c, now, row, i, p)
    requires !step.Advance? && !step.Land? && !step.Answer? && step.i == i && EnabledAt(p, now, step)
    ensures Sound(c, now, row, i, Moved(p, row, now, step))
  {}

  lemma StepKeepsInvariant(c: Config, s: State, step: Step)
    requires ValidConfig(c) && LeaseBudget(c) && Invariant(c, s) && Enabled(c, s, step)
    ensures Invariant(c, After(c, s, step))
  {
    var s' := After(c, s, step);
    forall k | 0 <= k < |s'.insts| ensures Sound(c, s'.now, s'.row, k, s'.insts[k]) {
      var p := s.insts[k];
      assert Sound(c, s.now, s.row, k, p);
      if step.Advance? {
        TimeKeepsSound(c, s.now, step.to, s.row, k, p);
      } else if step.i != k {
        if step.Land? {
          OthersKeepTheRow(c, s.now, s.row, k, p, InFlight(s.insts[step.i]).value.sql, step.i, step.stamp);
        }
      } else if step.Land? {
        LandingKeepsSound(c, s.now, s.row, k, p, step.stamp);
      } else if step.Answer? {
        AnswerKeepsSound(c, s.now, s.row, k, p, step.ok);
      } else {
        MoveKeepsSound(c, s.now, s.row, k, p, step);
      }
    }
  }

  lemma {:induction false} InvariantThroughout(c: Config, states: seq<State>, steps: seq<Step>, k: nat)
    requires ValidConfig(c) && LeaseBudget(c) && IsRun(c, states, steps) && k < |states|
    ensures Invariant(c, states[k])
  {
    if k == 0 {
    } else {
      InvariantThroughout(c, states, steps, k - 1);
      StepKeepsInvariant(c, states[k - 1], steps[k - 1]);
    }
  }

  /**
   Within the lease budget no two processes are ever inside `run` together, and
   whoever is inside owns a row nobody may take yet.
   */
  lemma MutualExclusion(c: Config, states: seq<State>, steps: seq<Step>, k: nat)
    requires ValidConfig(c) && LeaseBudget(c) && IsRun(c, states, steps) && k < |states|
    ensures Exclusive(states[k])
    ensures forall i :: 0 <= i < |states[k].insts| && InRun(states[k].insts[i]) ==>
              Owns(states[k].row, i) && !Stale(states[k].row, states[k].now)
  {
    InvariantThroughout(c, states, steps, k);
    var s := states[k];
    forall i | 0 <= i < |s.insts| && InRun(s.insts[i]) ensures Owns(s.row, i) && !Stale(s.row, s.now) {
      LeaseStillRuns(c, s.now, s.row, i, s.insts[i]);
    }
  }
}
