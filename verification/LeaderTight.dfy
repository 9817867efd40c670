/**
 The lease budget is exact: beyond it there is a run in which a second process enters
 `run` while the first has not left it.
 */
module LeaderTight {
  import opened Options
  import opened LeaderTable
  import opened LeaderRuns

  ghost predicate Reachable(c: Config, s: State) {
    exists states, steps :: IsRun(c, states, steps) && states[|steps|] == s
  }

  lemma Extend(c: Config, s: State, step: Step)
    requires Reachable(c, s) && Enabled(c, s, step)
    ensures Reachable(c, After(c, s, step))
  {
    var states, steps :| IsRun(c, states, steps) && states[|steps|] == s;
    var states', steps' := states + [After(c, s, step)], steps + [step];
    assert IsRun(c, states', steps');
    assert states'[|steps'|] == After(c, s, step);
  }

  /** Process 0 in phase `p`, process 1 in phase `q`, nobody else started. */
  ghost function World(c: Config, now: real, row: Option<Row>, p: Phase, q: Phase): State
    requires 2 <= c.n
  {
    State(now, row, [p, q] + seq(c.n - 2, _ => Unstarted))
  }

  lemma FirstMoves(c: Config, now: real, row: Option<Row>, p: Phase, q: Phase, step: Step)
    requires 2 <= c.n && Reachable(c, World(c, now, row, p, q))
    requires !step.Advance? && step.i == 0 && EnabledAt(p, now, step)
    ensures Reachable(c, World(c, now, RowAfter(p, row, now, step), Moved(p, row, now, step), q))
  {
    var w := World(c, now, row, p, q);
    Extend(c, w, step);
    assert After(c, w, step) == World(c, now, RowAfter(p, row, now, step), Moved(p, row, now, step), q);
  }

  lemma SecondMoves(c: Config, now: real, row: Option<Row>, p: Phase, q: Phase, step: Step)
    requires 2 <= c.n && Reachable(c, World(c, now, row, p, q))
    requires !step.Advance? && step.i == 1 && EnabledAt(q, now, step)
    ensures Reachable(c, World(c, now, RowAfter(q, row, now, step), p, Moved(q, row, now, step)))
  {
    var w := World(c, now, row, p, q);
    Extend(c, w, step);
    assert After(c, w, step) == World(c, now, RowAfter(q, row, now, step), p, Moved(q, row, now, step));
  }

  lemma TimePasses(c: Config, now: real, row: Option<Row>, p: Phase, to: real)
    requires 2 <= c.n && Reachable(c, World(c, now, row, p, Unstarted))
    requires now <= to && MayWait(c, p, now, to)
    ensures Reachable(c, World(c, to, row, p, Unstarted))
  {
    var w := World(c, now, row, p, Unstarted);
    Extend(c, w, Advance(to));
    assert After(c, w, Advance(to)) == World(c, to, row, p, Unstarted);
  }

  /** The row process 0 acquires at time zero and never manages to refresh. */
  const FIRST: Option<Row> := Some(Row(0, 0.0))

  /** Process 0 is in phase `p` at `now`, the row is the one it acquired at time zero. */
  ghost predicate At(c: Config, now: real, p: Phase) {
    2 <= c.n && Reachable(c, World(c, now, FIRST, p, Unstarted))
  }

  lemma Wait(c: Config, now: real, p: Phase, to: real)
    requires At(c, now, p) && now <= to && MayWait(c, p, now, to)
    ensures At(c, to, p)
  {
    TimePasses(c, now, FIRST, p, to);
  }

  lemma Fire(c: Config, now: real, f: nat, beat: Option<Call>)
    requires At(c, now, Running(now, false, f, beat))
    ensures At(c, now, Running(now + 5.0, true, f, beat))
  {
    FirstMoves(c, now, FIRST, Running(now, false, f, beat), Unstarted, TickFires(0));
  }

  lemma Beats(c: Config, now: real, tick: real, f: nat)
    requires At(c, now, Running(tick, true, f, None))
    ensures At(c, now, Running(tick, false, f, Some(Called(now))))
  {
    FirstMoves(c, now, FIRST, Running(tick, true, f, None), Unstarted, CallBeat(0));
  }

  lemma Misses(c: Config, now: real, tick: real, due: bool, f: nat, at: real)
    requires At(c, now, Running(tick, due, f, Some(Called(at)))) && f < 3
    ensures At(c, now, if f < 2 then Running(tick, due, f + 1, None) else Draining(now, true, None))
  {
    FirstMoves(c, now, FIRST, Running(tick, due, f, Some(Called(at))), Unstarted, Answer(0, false));
  }

  lemma StartReachable(c: Config)
    requires 2 <= c.n
    ensures Reachable(c, World(c, 0.0, None, Unstarted, Unstarted))
  {
    var s0 := World(c, 0.0, None, Unstarted, Unstarted);
    var start: (seq<State>, seq<Step>) := ([s0], []);
    assert IsRun(c, start.0, start.1) && start.0[|start.1|] == s0;
  }

  lemma CallsAcquire(c: Config)
    requires 2 <= c.n
    ensures Reachable(c, World(c, 0.0, None, Acquiring(Called(0.0)), Unstarted))
  {
    StartReachable(c);
    FirstMoves(c, 0.0, None, Unstarted, Unstarted, Start(0));
  }

  lemma AcquireLands(c: Config)
    requires 2 <= c.n
    ensures At(c, 0.0, Acquiring(Call(0.0, true, true)))
  {
    CallsAcquire(c);
    FirstMoves(c, 0.0, None, Acquiring(Called(0.0)), Unstarted, Land(0, 0.0));
  }

  /** Acquired with the slowest answer. */
  lemma Acquires(c: Config, d: real)
    requires ValidConfig(c) && 2 <= c.n && 0.0 <= d <= c.latency
    ensures At(c, d, Running(d + 5.0, false, 0, None))
  {
    AcquireLands(c);
    Wait(c, 0.0, Acquiring(Call(0.0, true, true)), d);
    FirstMoves(c, d, FIRST, Acquiring(Call(0.0, true, true)), Unstarted, Answer(0, true));
  }

  /** Idle until the tick, the next beat is called at it. */
  lemma BeatsAtTick(c: Config, now: real, tick: real, f: nat)
    requires At(c, now, Running(tick, false, f, None)) && now <= tick
    ensures At(c, tick, Running(tick + 5.0, false, f, Some(Called(tick))))
  {
    Wait(c, now, Running(tick, false, f, None), tick);
    Fire(c, tick, f, None);
    Beats(c, tick, tick + 5.0, f);
  }

  /** A beat fails as late as it may, before the next tick; the next one is called at that tick. */
  lemma PromptMiss(c: Config, d: real, at: real, f: nat)
    requires 0.0 <= d <= c.latency && d <= 5.0 && f < 2
    requires At(c, at, Running(at + 5.0, false, f, Some(Called(at))))
    ensures At(c, at + 5.0, Running(at + 5.0 + 5.0, false, f + 1, Some(Called(at + 5.0))))
  {
    Wait(c, at, Running(at + 5.0, false, f, Some(Called(at))), at + d);
    Misses(c, at + d, at + 5.0, false, f, at);
    BeatsAtTick(c, at + d, at + 5.0, f + 1);
  }

  /** A tick fires while a slow beat is out. */
  lemma TickWhileOut(c: Config, d: real, at: real, tick: real, f: nat)
    requires 0.0 <= d <= c.latency && at <= tick <= at + d <= tick + 5.0
    requires At(c, at, Running(tick, false, f, Some(Called(at))))
    ensures At(c, at + d, Running(tick + 5.0, true, f, Some(Called(at))))
  {
    Wait(c, at, Running(tick, false, f, Some(Called(at))), tick);
    Fire(c, tick, f, Some(Called(at)));
    Wait(c, tick, Running(tick + 5.0, true, f, Some(Called(at))), at + d);
  }

  /** The next beat is called the moment the slow one fails. */
  lemma LateMiss(c: Config, d: real, at: real, tick: real, f: nat)
    requires 0.0 <= d <= c.latency && f < 2 && at <= tick <= at + d <= tick + 5.0
    requires At(c, at, Running(tick, false, f, Some(Called(at))))
    ensures At(c, at + d, Running(tick + 5.0, false, f + 1, Some(Called(at + d))))
  {
    TickWhileOut(c, d, at, tick, f);
    Misses(c, at + d, tick + 5.0, true, f, at);
    Beats(c, at + d, tick + 5.0, f + 1);
  }

  /** The third beat fails too: process 0 cancels `run`, which takes the whole drain to return. */
  lemma StepsDownLate(c: Config, d: real, at: real, tick: real)
    requires ValidConfig(c) && 0.0 <= d <= c.latency && at <= tick && at + d <= tick + 5.0
    requires At(c, at, Running(tick, false, 2, Some(Called(at))))
    ensures At(c, at + d + c.drain, Draining(at + d, true, None))
  {
    if at + d <= tick {
      Wait(c, at, Running(tick, false, 2, Some(Called(at))), at + d);
      Misses(c, at + d, tick, false, 2, at);
    } else {
      TickWhileOut(c, d, at, tick, 2);
      Misses(c, at + d, tick + 5.0, true, 2, at);
    }
    Wait(c, at + d, Draining(at + d, true, None), at + d + c.drain);
  }

  /** The lease is over and process 0 still drains: process 1 takes the row and runs. */
  lemma SecondEnters(c: Config, t: real, since: real) returns (bad: State)
    requires ValidConfig(c) && 2 <= c.n && TAKEOVER_AFTER < t
    requires At(c, t, Draining(since, true, None))
    ensures Reachable(c, bad) && !Exclusive(bad)
  {
    var p := Draining(since, true, None);
    SecondMoves(c, t, FIRST, p, Unstarted, Start(1));
    SecondMoves(c, t, FIRST, p, Acquiring(Called(t)), Land(1, t));
    SecondMoves(c, t, Some(Row(1, t)), p, Acquiring(Call(t, true, true)), Answer(1, true));
    bad := World(c, t, Some(Row(1, t)), p, Running(t + 5.0, false, 0, None));
    assert InRun(bad.insts[0]) && InRun(bad.insts[1]);
  }

  /** Answers slower than the budget allows, but within one interval. */
  lemma PromptWitness(c: Config, d: real, first: real) returns (since: real)
    requires ValidConfig(c) && 0.0 <= d <= c.latency && d <= 5.0
    requires At(c, first, Running(first + 5.0, false, 0, Some(Called(first))))
    ensures since == first + 10.0 + d
    ensures At(c, since + c.drain, Draining(since, true, None))
  {
    PromptMiss(c, d, first, 0);
    PromptMiss(c, d, first + 5.0, 1);
    var third := first + 5.0 + 5.0;
    StepsDownLate(c, d, third, third + 5.0);
    since := third + d;
  }

  /** Answers slower than one interval. */
  lemma LateWitness(c: Config, d: real, first: real) returns (since: real)
    requires ValidConfig(c) && 5.0 <= d <= c.latency && d <= 6.5
    requires At(c, first, Running(first + 5.0, false, 0, Some(Called(first))))
    ensures since == first + d + d + d
    ensures At(c, since + c.drain, Draining(since, true, None))
  {
    LateMiss(c, d, first, first + 5.0, 0);
    LateMiss(c, d, first + d, first + 5.0 + 5.0, 1);
    StepsDownLate(c, d, first + d + d, first + 5.0 + 5.0 + 5.0);
    since := first + d + d + d;
  }

  /** Beyond the budget two processes can be inside `run` together. */
  lemma ExclusionFailsBeyondBudget(c: Config) returns (bad: State)
    requires ValidConfig(c) && 2 <= c.n && !LeaseBudget(c)
    ensures Reachable(c, bad) && !Exclusive(bad)
  {
    var d := if c.latency <= 6.5 then c.latency else 6.5;
    Acquires(c, d);
    BeatsAtTick(c, d, d + 5.0, 0);
    var since: real;
    if d <= 5.0 {
      since := PromptWitness(c, d, d + 5.0);
    } else {
      since := LateWitness(c, d, d + 5.0);
    }
    bad := SecondEnters(c, since + c.drain, since);
  }

  /** Mutual exclusion holds in every reachable state exactly within the lease budget. */
  lemma MutualExclusionExactly(c: Config)
    requires ValidConfig(c)
    ensures (forall s :: Reachable(c, s) ==> Exclusive(s)) <==> c.n < 2 || LeaseBudget(c)
  {
    if c.n < 2 || LeaseBudget(c) {
      forall s | Reachable(c, s) ensures Exclusive(s) {
        var states, steps :| IsRun(c, states, steps) && states[|steps|] == s;
        if LeaseBudget(c) {
          MutualExclusion(c, states, steps, |steps|);
        } else {
          SizeKept(c, states, steps, |steps|);
        }
      }
    } else {
      var bad := ExclusionFailsBeyondBudget(c);
      assert Reachable(c, bad) && !Exclusive(bad);
    }
  }

  lemma {:induction false} SizeKept(c: Config, states: seq<State>, steps: seq<Step>, k: nat)
    requires IsRun(c, states, steps) && k < |states|
    ensures |states[k].insts| == c.n
  {
    if k == 0 {
    } else {
      SizeKept(c, states, steps, k - 1);
      assert Enabled(c, states[k - 1], steps[k - 1]) && states[k] == After(c, states[k - 1], steps[k - 1]);
    }
  }

  /** With answers within one heartbeat interval the budget is 3 beats, 2 answers and the drain. */
  lemma BudgetWithPromptAnswers(c: Config)
    requires ValidConfig(c) && c.latency <= HEARTBEAT_INTERVAL
    ensures LeaseBudget(c) <==>
            HEARTBEAT_GRACE as real * HEARTBEAT_INTERVAL + 2.0 * c.latency + c.drain <= TAKEOVER_AFTER
  {}
}
