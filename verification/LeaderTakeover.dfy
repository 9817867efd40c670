/**
 Who may change the row, and how soon a row nobody refreshes changes hands. Nothing
 here needs the lease budget.
 */
module LeaderTakeover {
  import opened Options
  import opened LeaderTable
  import opened LeaderRuns

  // ---------------------------------------------------------------------------
  // Row ownership
  // ---------------------------------------------------------------------------

  /** The step is the landing of A's own DELETE. */
  predicate Releases(s: State, step: Step, a: Holder) {
    step.Land? && step.i == a && a < |s.insts| && InFlight(s.insts[a]).Some? && InFlight(s.insts[a]).value.sql == Delete
  }

  /** The step is another process's upsert finding A's heartbeat older than the lease. */
  predicate TakesOver(s: State, step: Step, a: Holder) {
    step.Land? && step.i != a && Stale(s.row, step.stamp)
  }

  /** A's row changes only by A's own statements or by a takeover. */
  lemma OwnedRowStep(c: Config, s: State, step: Step, a: Holder)
    requires Enabled(c, s, step) && Owns(s.row, a)
    ensures After(c, s, step).row != s.row ==> step.Land? && (step.i == a || TakesOver(s, step, a))
    ensures !Owns(After(c, s, step).row, a) ==> Releases(s, step, a) || TakesOver(s, step, a)
    ensures TakesOver(s, step, a) ==> s.row.value.beat + TAKEOVER_AFTER < s.now
  {}

  /** In any part of a run the holder changes only by its own delete or by a takeover. */
  lemma {:induction false} HolderChanges(
    c: Config, states: seq<State>, steps: seq<Step>, a: Holder, from: nat, till: nat)
    returns (k: nat)
    requires |states| == |steps| + 1 && Continues(c, states, steps)
    requires from <= till < |states| && Owns(states[from].row, a) && !Owns(states[till].row, a)
    ensures from <= k < till && Owns(states[k].row, a) && !Owns(states[k + 1].row, a)
    ensures Releases(states[k], steps[k], a) || TakesOver(states[k], steps[k], a)
    decreases till
  {
    if Owns(states[till - 1].row, a) {
      OwnedRowStep(c, states[till - 1], steps[till - 1], a);
      k := till - 1;
    } else {
      k := HolderChanges(c, states, steps, a, from, till - 1);
    }
  }

  /** A holder that keeps every heartbeat within the lease, and does not release, is never displaced. */
  lemma NeverDisplaced(c: Config, states: seq<State>, steps: seq<Step>, a: Holder, from: nat, till: nat)
    requires |states| == |steps| + 1 && Continues(c, states, steps)
    requires from <= till < |states| && Owns(states[from].row, a)
    requires forall k :: from <= k < till && Owns(states[k].row, a) ==>
               states[k].now <= states[k].row.value.beat + TAKEOVER_AFTER && !Releases(states[k], steps[k], a)
    ensures Owns(states[till].row, a)
  {
    if !Owns(states[till].row, a) {
      var k := HolderChanges(c, states, steps, a, from, till);
      OwnedRowStep(c, states[k], steps[k], a);
      assert false;
    }
  }

  /**
   An acquisition whose answer was lost: as long as nobody took the row meanwhile, the
   same holder's next upsert wins whatever the age of its heartbeat, and it runs.
   */
  lemma LostAnswerRecovered(c: Config, states: seq<State>, steps: seq<Step>, a: Holder, from: nat, till: nat)
    requires |states| == |steps| + 1 && Continues(c, states, steps) && from < till < |steps|
    requires Owns(states[from].row, a) && a < |states[from].insts| && steps[from] == Answer(a, false)
    requires forall k :: from <= k < till ==> !Releases(states[k], steps[k], a) && !TakesOver(states[k], steps[k], a)
    requires a < |states[till].insts| && states[till].insts[a].Acquiring? && steps[till].Land? && steps[till].i == a
    ensures states[till + 1].row == Some(Row(a, steps[till].stamp))
    ensures Enabled(c, states[till + 1], Answer(a, true))
    ensures InRun(After(c, states[till + 1], Answer(a, true)).insts[a])
  {
    if !Owns(states[till].row, a) {
      var k := HolderChanges(c, states, steps, a, from, till);
      assert false;
    }
    assert Enabled(c, states[till], steps[till]) && states[till + 1] == After(c, states[till], steps[till]);
  }

  // ---------------------------------------------------------------------------
  // Bounded takeover
  // ---------------------------------------------------------------------------

  /** No statement of `holder` lands in this part of the run: it is dead, or cut off from the database. */
  predicate Silent(steps: seq<Step>, holder: Holder, from: nat, till: nat)
    requires till <= |steps|
  {
    forall k :: from <= k < till && steps[k].Land? ==> steps[k].i != holder
  }

  /**
   From state `a` to state `m` of a run the row is left to itself while `f` follows: its
   holder, if there is one, is silent, and the follower keeps trying.
   */
  predicate Abandoned(
    c: Config, states: seq<State>, steps: seq<Step>, a: nat, m: nat, row: Option<Row>, f: nat)
  {
    && IsRun(c, states, steps) && a <= m < |states|
    && states[a].row == row && f < |states[a].insts| && Following(states[a].insts[f])
    && (forall k :: a <= k < m ==> Persists(steps[k], f))
    && (row.Some? ==> f != row.value.holder && Silent(steps, row.value.holder, a, m))
  }

  /** Some other process owns the row. */
  predicate Taken(s: State, row: Option<Row>) {
    s.row.Some? && (row.Some? ==> s.row.value.holder != row.value.holder)
  }

  lemma AbandonedStep(c: Config, s: State, step: Step)
    requires Enabled(c, s, step) && (step.Land? && s.row.Some? ==> step.i != s.row.value.holder)
    ensures After(c, s, step).row == s.row || Taken(After(c, s, step), s.row)
  {}

  /** From `from` on every upsert takes the abandoned row. */
  predicate TakeableFrom(row: Option<Row>, from: real) {
    row.Some? ==> row.value.beat + TAKEOVER_AFTER <= from
  }

  /** A follower waits for its next try or for the answer to one. */
  predicate Trying(c: Config, p: Phase, now: real) {
    match p
    case Waiting(retryAt) => now <= retryAt <= now + RETRY_INTERVAL
    case Acquiring(call) => CallBounded(c, call, now)
    case _ => false
  }

  predicate Following(p: Phase) {
    p.Waiting? || (p.Acquiring? && !p.call.hit)
  }

  /** The follower is neither stopped nor crashed and its upserts are answered. */
  predicate Persists(step: Step, f: nat) {
    step != Answer(f, false) && step != Stop(f) && step != Crash(f)
  }

  /** The follower's next try is near enough to `from`. */
  predicate OnCourse(c: Config, s: State, f: nat, from: real) {
    && f < |s.insts|
    && match s.insts[f]
       case Waiting(retryAt) => s.now <= retryAt <= from + RETRY_INTERVAL + c.latency
       case Acquiring(call) =>
         && CallBounded(c, call, s.now)
         && call.at <= from + RETRY_INTERVAL + c.latency
         && (call.landed ==> call.at <= from && !call.hit)
       case _ => false
  }

  lemma OnCourseStep(c: Config, s: State, step: Step, f: nat, row: Option<Row>, from: real)
    requires ValidConfig(c) && Enabled(c, s, step) && Persists(step, f)
    requires s.row == row && TakeableFrom(row, from) && OnCourse(c, s, f, from)
    requires row.Some? ==> row.value.holder != f
    requires After(c, s, step).row == row
    ensures OnCourse(c, After(c, s, step), f, from)
  {}

  lemma OnCourseOrTaken(c: Config, s: State, step: Step, f: nat, from: real)
    requires ValidConfig(c) && Enabled(c, s, step) && Persists(step, f)
    requires TakeableFrom(s.row, from) && OnCourse(c, s, f, from)
    requires s.row.Some? ==> f != s.row.value.holder && (step.Land? ==> step.i != s.row.value.holder)
    ensures var s' := After(c, s, step);
            || (s'.row == s.row && OnCourse(c, s', f, from))
            || (Taken(s', s.row) && s'.now <= from + RETRY_INTERVAL + 2.0 * c.latency)
  {
    AbandonedStep(c, s, step);
    if After(c, s, step).row == s.row {
      OnCourseStep(c, s, step, f, s.row, from);
    }
  }

  /** Some other process owned the row in this part of the run, no later than this. */
  predicate TakenBy(states: seq<State>, row: Option<Row>, a: nat, m: nat, limit: real)
    requires m < |states|
  {
    exists n :: a <= n <= m && Taken(states[n], row) && states[n].now <= limit
  }

  lemma {:induction false} AbandonedUntilTaken(
    c: Config, states: seq<State>, steps: seq<Step>, f: nat, row: Option<Row>, from: real, a: nat, m: nat)
    requires ValidConfig(c) && Abandoned(c, states, steps, a, m, row, f)
    requires TakeableFrom(row, from) && OnCourse(c, states[a], f, from)
    ensures (states[m].row == row && OnCourse(c, states[m], f, from)) ||
            TakenBy(states, row, a, m, from + RETRY_INTERVAL + 2.0 * c.latency)
    decreases m
  {
    if a == m {
    } else {
      var limit := from + RETRY_INTERVAL + 2.0 * c.latency;
      AbandonedUntilTaken(c, states, steps, f, row, from, a, m - 1);
      if TakenBy(states, row, a, m - 1, limit) {
        var n :| a <= n <= m - 1 && Taken(states[n], row) && states[n].now <= limit;
        assert TakenBy(states, row, a, m, limit);
      } else {
        assert Enabled(c, states[m - 1], steps[m - 1]) && states[m] == After(c, states[m - 1], steps[m - 1]);
        OnCourseOrTaken(c, states[m - 1], steps[m - 1], f, from);
      }
    }
  }

  /** Every follower of a run waits at most one retry interval, or one answer. */
  lemma {:induction false} FollowersTry(c: Config, states: seq<State>, steps: seq<Step>, k: nat, i: nat)
    requires ValidConfig(c) && IsRun(c, states, steps) && k < |states| && i < |states[k].insts|
    ensures var p := states[k].insts[i]; p.Waiting? || p.Acquiring? ==> Trying(c, p, states[k].now)
  {
    if k == 0 {
    } else {
      var s, step := states[k - 1], steps[k - 1];
      assert Enabled(c, s, step) && states[k] == After(c, s, step);
      FollowersTry(c, states, steps, k - 1, i);
      if step.Advance? {
        assert MayWait(c, s.insts[i], s.now, step.to);
      }
    }
  }

  function Later(x: real, y: real): real {
    if x <= y then y else x
  }

  /**
   A holder falls silent: no statement of its lands any more, whether it crashed, was cut
   off or merely stopped beating. While one follower keeps trying, some other process owns
   the row within one retry interval and two answers of the end of the lease, or of now
   if the lease is over already.
   */
  lemma TakeoverIsBounded(
    c: Config, states: seq<State>, steps: seq<Step>, a: nat, m: nat, left: Row, f: nat)
    requires ValidConfig(c) && Abandoned(c, states, steps, a, m, Some(left), f)
    requires Later(states[a].now, left.beat + TAKEOVER_AFTER) + RETRY_INTERVAL + 2.0 * c.latency < states[m].now
    ensures TakenBy(states, Some(left), a, m,
                    Later(states[a].now, left.beat + TAKEOVER_AFTER) + RETRY_INTERVAL + 2.0 * c.latency)
  {
    FollowersTry(c, states, steps, a, f);
    AbandonedUntilTaken(c, states, steps, f, Some(left), Later(states[a].now, left.beat + TAKEOVER_AFTER), a, m);
  }

  /** A crashed process whose last statement has landed is silent from then on. */
  lemma {:induction false} CrashedIsSilent(
    c: Config, states: seq<State>, steps: seq<Step>, holder: Holder, a: nat, m: nat)
    requires |states| == |steps| + 1 && Continues(c, states, steps) && a <= m < |states|
    requires holder < |states[a].insts| && states[a].insts[holder].Crashed?
    requires states[a].insts[holder].orphan.Some? ==> states[a].insts[holder].orphan.value.call.landed
    ensures Silent(steps, holder, a, m)
    ensures holder < |states[m].insts| && states[m].insts[holder] == states[a].insts[holder]
    decreases m
  {
    if a == m {
    } else {
      CrashedIsSilent(c, states, steps, holder, a, m - 1);
      assert Enabled(c, states[m - 1], steps[m - 1]) && states[m] == After(c, states[m - 1], steps[m - 1]);
    }
  }

  /** After a graceful release the wait is one retry interval and two answers. */
  lemma TakeoverAfterReleaseIsBounded(c: Config, states: seq<State>, steps: seq<Step>, a: nat, m: nat, f: nat)
    requires ValidConfig(c) && Abandoned(c, states, steps, a, m, None, f)
    requires states[a].now + RETRY_INTERVAL + 2.0 * c.latency < states[m].now
    ensures TakenBy(states, None, a, m, states[a].now + RETRY_INTERVAL + 2.0 * c.latency)
  {
    FollowersTry(c, states, steps, a, f);
    AbandonedUntilTaken(c, states, steps, f, None, states[a].now, a, m);
  }
}
