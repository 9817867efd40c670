/**
 The takeover bounds are exact: for every smaller one there is a run in which the row is
 still untaken. The follower's statement finds the row the instant before it may be taken,
 its answer and the next statement are as slow as they may be.
 */
module LeaderTakeoverTight {
  import opened Options
  import opened LeaderTable
  import opened LeaderRuns
  import opened LeaderTight
  import opened LeaderTakeover

  /** Some run leaves the row abandoned at `since` and still untaken in its last state `s`. */
  ghost predicate Untaken(c: Config, row: Option<Row>, f: nat, since: real, s: State) {
    exists states, steps, a :: UntakenRun(c, states, steps, a, row, f, since, s)
  }

  predicate UntakenRun(
    c: Config, states: seq<State>, steps: seq<Step>, a: nat, row: Option<Row>, f: nat, since: real, s: State)
  {
    && Abandoned(c, states, steps, a, |steps|, row, f)
    && states[a].now == since && states[|steps|] == s
    && forall k :: a <= k <= |steps| ==> states[k].row == row
  }

  lemma LeftToItself(c: Config, row: Option<Row>, f: nat, s: State)
    requires Reachable(c, s) && s.row == row && f < |s.insts| && Following(s.insts[f])
    requires row.Some? ==> f != row.value.holder
    ensures Untaken(c, row, f, s.now, s)
  {
    var states, steps :| IsRun(c, states, steps) && states[|steps|] == s;
    assert UntakenRun(c, states, steps, |steps|, row, f, s.now, s);
  }

  lemma StillUntaken(c: Config, row: Option<Row>, f: nat, since: real, s: State, step: Step)
    requires Untaken(c, row, f, since, s) && Enabled(c, s, step) && Persists(step, f) && !step.Land?
    ensures Untaken(c, row, f, since, After(c, s, step))
  {
    var states, steps, a :| UntakenRun(c, states, steps, a, row, f, since, s);
    var s' := After(c, s, step);
    var states', steps' := states + [s'], steps + [step];
    assert IsRun(c, states', steps');
    assert forall k :: 0 <= k < |states| ==> states'[k] == states[k];
    assert forall k :: 0 <= k < |steps| ==> steps'[k] == steps[k];
    assert s'.row == row;
    assert UntakenRun(c, states', steps', a, row, f, since, s');
  }

  /** Process 0 is gone, process 1 follows in phase `q`, and the row is still untaken. */
  ghost predicate Follows(c: Config, row: Option<Row>, since: real, gone: Phase, now: real, q: Phase) {
    2 <= c.n && (gone.Crashed? || gone.Stopped?) && Untaken(c, row, 1, since, World(c, now, row, gone, q))
  }

  lemma Waits(c: Config, row: Option<Row>, since: real, gone: Phase, now: real, q: Phase, to: real)
    requires Follows(c, row, since, gone, now, q) && now <= to && MayWait(c, q, now, to)
    ensures Follows(c, row, since, gone, to, q)
  {
    StillUntaken(c, row, 1, since, World(c, now, row, gone, q), Advance(to));
    assert After(c, World(c, now, row, gone, q), Advance(to)) == World(c, to, row, gone, q);
  }

  lemma Moves(c: Config, row: Option<Row>, since: real, gone: Phase, now: real, q: Phase, step: Step)
    requires Follows(c, row, since, gone, now, q)
    requires step == Answer(1, true) || step == Retry(1)
    requires EnabledAt(q, now, step)
    ensures Follows(c, row, since, gone, now, Moved(q, row, now, step))
  {
    var w := World(c, now, row, gone, q);
    StillUntaken(c, row, 1, since, w, step);
    assert After(c, w, step) == World(c, now, row, gone, Moved(q, row, now, step));
  }

  /** The statement of time `t` missed the row: one slow answer, one retry interval, one slow statement more. */
  lemma UntakenToTheBound(c: Config, row: Option<Row>, gone: Phase, t: real) returns (q: Phase)
    requires ValidConfig(c) && Follows(c, row, t, gone, t, Acquiring(Call(t, true, false)))
    ensures Follows(c, row, t, gone, t + RETRY_INTERVAL + 2.0 * c.latency, q)
  {
    var d := c.latency;
    Waits(c, row, t, gone, t, Acquiring(Call(t, true, false)), t + d);
    Moves(c, row, t, gone, t + d, Acquiring(Call(t, true, false)), Answer(1, true));
    var retryAt := t + d + RETRY_INTERVAL;
    Waits(c, row, t, gone, t + d, Waiting(retryAt), retryAt);
    Moves(c, row, t, gone, retryAt, Waiting(retryAt), Retry(1));
    q := Acquiring(Called(retryAt));
    Waits(c, row, t, gone, retryAt, q, retryAt + d);
    assert retryAt + d == t + RETRY_INTERVAL + 2.0 * d;
  }

  // ---------------------------------------------------------------------------
  // The leader dies
  // ---------------------------------------------------------------------------

  /** Process 0 acquires at time zero and crashes; process 1's statement is stamped as its lease ends. */
  lemma MissedAtTheLease(c: Config)
    requires ValidConfig(c) && 2 <= c.n
    ensures var t := TAKEOVER_AFTER; Follows(c, FIRST, t, Crashed(None), t, Acquiring(Call(t, true, false)))
  {
    var t, gone := TAKEOVER_AFTER, Crashed(None);
    Acquires(c, 0.0);
    FirstMoves(c, 0.0, FIRST, Running(5.0, false, 0, None), Unstarted, Crash(0));
    Wait(c, 0.0, gone, t);
    SecondMoves(c, t, FIRST, gone, Unstarted, Start(1));
    SecondMoves(c, t, FIRST, gone, Acquiring(Called(t)), Land(1, t));
    LeftToItself(c, FIRST, 1, World(c, t, FIRST, gone, Acquiring(Call(t, true, false))));
  }

  /** A row abandoned before its lease was over, in a run that goes on past `bound` after its last heartbeat. */
  predicate OutlastsBeat(
    c: Config, states: seq<State>, steps: seq<Step>, a: nat, m: nat, left: Row, f: nat, bound: real)
  {
    && Abandoned(c, states, steps, a, m, Some(left), f)
    && states[a].now <= left.beat + TAKEOVER_AFTER && left.beat + bound < states[m].now
  }

  /** Every such row is taken within `bound` of its last heartbeat. */
  ghost predicate TakeoverWithin(c: Config, bound: real) {
    forall states: seq<State>, steps: seq<Step>, a: nat, m: nat, left: Row, f: nat ::
      OutlastsBeat(c, states, steps, a, m, left, f, bound) ==>
        TakenBy(states, Some(left), a, m, left.beat + bound)
  }

  lemma TooSoonAfterDeath(c: Config, bound: real)
    requires ValidConfig(c) && 2 <= c.n && bound < TAKEOVER_AFTER + RETRY_INTERVAL + 2.0 * c.latency
    ensures !TakeoverWithin(c, bound)
  {
    var t, gone := TAKEOVER_AFTER, Crashed(None);
    MissedAtTheLease(c);
    var q := UntakenToTheBound(c, FIRST, gone, t);
    var s := World(c, t + RETRY_INTERVAL + 2.0 * c.latency, FIRST, gone, q);
    var states, steps, a :| UntakenRun(c, states, steps, a, FIRST, 1, t, s);
    assert OutlastsBeat(c, states, steps, a, |steps|, Row(0, 0.0), 1, bound);
    assert !TakenBy(states, Some(Row(0, 0.0)), a, |steps|, bound);
  }

  /** The lease alone is no bound: lease, retry interval and two answers are, and nothing less is. */
  lemma TakeoverExactly(c: Config, bound: real)
    requires ValidConfig(c) && 2 <= c.n
    ensures TakeoverWithin(c, bound) <==> TAKEOVER_AFTER + RETRY_INTERVAL + 2.0 * c.latency <= bound
  {
    if TAKEOVER_AFTER + RETRY_INTERVAL + 2.0 * c.latency <= bound {
      forall states: seq<State>, steps: seq<Step>, a: nat, m: nat, left: Row, f: nat |
        OutlastsBeat(c, states, steps, a, m, left, f, bound)
        ensures TakenBy(states, Some(left), a, m, left.beat + bound)
      {
        TakeoverIsBounded(c, states, steps, a, m, left, f);
      }
    } else {
      TooSoonAfterDeath(c, bound);
    }
  }

  // ---------------------------------------------------------------------------
  // The leader releases
  // ---------------------------------------------------------------------------

  /** Process 1's statement finds process 0's row; process 0 shuts down and its delete lands right after. */
  lemma MissedAtTheRelease(c: Config)
    requires ValidConfig(c) && 2 <= c.n
    ensures Follows(c, None, 0.0, Stopped, 0.0, Acquiring(Call(0.0, true, false)))
  {
    var q := Acquiring(Call(0.0, true, false));
    ReleaseCalled(c);
    FirstMoves(c, 0.0, FIRST, Releasing(Called(0.0)), q, Land(0, 0.0));
    FirstMoves(c, 0.0, None, Releasing(Call(0.0, true, true)), q, Answer(0, true));
    FirstMoves(c, 0.0, None, Waiting(0.0), q, Stop(0));
    LeftToItself(c, None, 1, World(c, 0.0, None, Stopped, q));
  }

  lemma ReleaseCalled(c: Config)
    requires ValidConfig(c) && 2 <= c.n
    ensures Reachable(c, World(c, 0.0, FIRST, Releasing(Called(0.0)), Acquiring(Call(0.0, true, false))))
  {
    var running, q := Running(5.0, false, 0, None), Acquiring(Call(0.0, true, false));
    Acquires(c, 0.0);
    SecondMoves(c, 0.0, FIRST, running, Unstarted, Start(1));
    SecondMoves(c, 0.0, FIRST, running, Acquiring(Called(0.0)), Land(1, 0.0));
    FirstMoves(c, 0.0, FIRST, running, q, Cancel(0));
    FirstMoves(c, 0.0, FIRST, Draining(0.0, true, None), q, RunReturns(0));
    FirstMoves(c, 0.0, FIRST, Draining(0.0, false, None), q, BeginRelease(0));
  }

  /** No row at state `a`, in a run that goes on past `bound` after it. */
  predicate OutlastsRelease(
    c: Config, states: seq<State>, steps: seq<Step>, a: nat, m: nat, f: nat, bound: real)
  {
    Abandoned(c, states, steps, a, m, None, f) && states[a].now + bound < states[m].now
  }

  /** Every released row is owned again within `bound`. */
  ghost predicate ReacquiredWithin(c: Config, bound: real) {
    forall states: seq<State>, steps: seq<Step>, a: nat, m: nat, f: nat ::
      OutlastsRelease(c, states, steps, a, m, f, bound) ==>
        TakenBy(states, None, a, m, states[a].now + bound)
  }

  lemma TooSoonAfterRelease(c: Config, bound: real)
    requires ValidConfig(c) && 2 <= c.n && bound < RETRY_INTERVAL + 2.0 * c.latency
    ensures !ReacquiredWithin(c, bound)
  {
    MissedAtTheRelease(c);
    var q := UntakenToTheBound(c, None, Stopped, 0.0);
    var s := World(c, 0.0 + RETRY_INTERVAL + 2.0 * c.latency, None, Stopped, q);
    var states, steps, a :| UntakenRun(c, states, steps, a, None, 1, 0.0, s);
    assert OutlastsRelease(c, states, steps, a, |steps|, 1, bound);
    assert !TakenBy(states, None, a, |steps|, 0.0 + bound);
  }

  lemma ReacquiredExactly(c: Config, bound: real)
    requires ValidConfig(c) && 2 <= c.n
    ensures ReacquiredWithin(c, bound) <==> RETRY_INTERVAL + 2.0 * c.latency <= bound
  {
    if RETRY_INTERVAL + 2.0 * c.latency <= bound {
      forall states: seq<State>, steps: seq<Step>, a: nat, m: nat, f: nat |
        OutlastsRelease(c, states, steps, a, m, f, bound)
        ensures TakenBy(states, None, a, m, states[a].now + bound)
      {
        TakeoverAfterReleaseIsBounded(c, states, steps, a, m, f);
      }
    } else {
      TooSoonAfterRelease(c, bound);
    }
  }
}
