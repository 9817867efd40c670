/**
 The `leader_election` table and the heartbeat loop of `cmd/nexara/main.go`.

 One row per role names the holder and the time of its last heartbeat. The three
 SQL statements the program sends are functions of the row they find; the class
 below is the table they change in place. `stamp` is the database's `now()`.
 */
module LeaderTable {
  import opened Options

  const HEARTBEAT_INTERVAL: real := 5.0
  const TAKEOVER_AFTER: real := 30.0
  const RETRY_INTERVAL: real := 10.0
  const RELEASE_TIMEOUT: real := 5.0
  const HEARTBEAT_GRACE: nat := 3

  /** A holder id: every process draws a fresh one at start-up. */
  type Holder = nat

  datatype Row = Row(holder: Holder, beat: real)

  predicate Owns(row: Option<Row>, me: Holder) {
    row.Some? && row.value.holder == me
  }

  /** Another holder's row that has gone without a heartbeat for longer than the lease. */
  predicate Stale(row: Option<Row>, stamp: real) {
    row.Some? && row.value.beat < stamp - TAKEOVER_AFTER
  }

  /** The row after INSERT ... ON CONFLICT DO UPDATE ... WHERE. */
  function Upserted(row: Option<Row>, me: Holder, stamp: real): Option<Row> {
    if row.None? || Owns(row, me) || Stale(row, stamp) then Some(Row(me, stamp)) else row
  }

  /** The row after the heartbeat UPDATE. */
  function Beaten(row: Option<Row>, me: Holder, stamp: real): Option<Row> {
    if Owns(row, me) then Some(Row(me, stamp)) else row
  }

  /** The row after the release DELETE. */
  function Deleted(row: Option<Row>, me: Holder): Option<Row> {
    if Owns(row, me) then None else row
  }

  /** The table: one row per role, changed only by the three statements. */
  class LeaderElection {
    var rows: map<string, Row>

    ghost function RowOf(role: string): Option<Row>
      reads this
    {
      if role in rows then Some(rows[role]) else None
    }

    ghost predicate OthersKept(before: map<string, Row>, role: string)
      reads this
    {
      rows - {role} == before - {role}
    }

    constructor ()
      ensures rows == map[]
    {
      rows := map[];
    }

    /** Returns true exactly when `me` owns the role's row afterwards. */
    method TryBecomeLeader(role: string, me: Holder, stamp: real) returns (acquired: bool)
      modifies this
      ensures RowOf(role) == Upserted(old(RowOf(role)), me, stamp)
      ensures acquired <==> Owns(RowOf(role), me)
      ensures OthersKept(old(rows), role)
    {
      if role !in rows {
        rows := rows[role := Row(me, stamp)];
        return true;
      }
      var found := rows[role];
      if found.holder == me || found.beat < stamp - TAKEOVER_AFTER {
        rows := rows[role := Row(me, stamp)];
        acquired := true;
      } else {
        acquired := false;
      }
    }

    /** Refreshes the heartbeat; no row is affected once the role was taken. */
    method Heartbeat(role: string, me: Holder, stamp: real) returns (affected: nat)
      modifies this
      ensures RowOf(role) == Beaten(old(RowOf(role)), me, stamp)
      ensures affected == if Owns(old(RowOf(role)), me) then 1 else 0
      ensures OthersKept(old(rows), role)
    {
      affected := 0;
      if role in rows && rows[role].holder == me {
        rows := rows[role := Row(me, stamp)];
        affected := 1;
      }
    }

    method Release(role: string, me: Holder)
      modifies this
      ensures RowOf(role) == Deleted(old(RowOf(role)), me)
      ensures OthersKept(old(rows), role)
    {
      if role in rows && rows[role].holder == me {
        rows := rows - {role};
      }
    }
  }

  /** What one turn of the heartbeat loop's select can see. */
  datatype HeartbeatEvent =
    | Cancelled
    | Failed
    | Updated(rows: nat)

  /** The loop ends at turn k: cancelled, role lost, or the last three beats all failed. */
  predicate StopsAt(events: seq<HeartbeatEvent>, k: nat)
    requires k < |events|
  {
    || events[k].Cancelled?
    || events[k] == Updated(0)
    || (HEARTBEAT_GRACE <= k + 1 && forall j :: k + 1 - HEARTBEAT_GRACE <= j <= k ==> events[j] == Failed)
  }

  /** The loop is still running after all of `events`. */
  ghost predicate KeepsRunning(events: seq<HeartbeatEvent>) {
    forall k :: 0 <= k < |events| ==> !StopsAt(events, k)
  }

  /** The failures in a row that `events` ends with. */
  function TrailingFailures(events: seq<HeartbeatEvent>): (n: nat)
    ensures n <= |events|
    ensures forall j :: |events| - n <= j < |events| ==> events[j] == Failed
    ensures n < |events| ==> events[|events| - n - 1] != Failed
  {
    if events != [] && events[|events| - 1] == Failed
    then 1 + TrailingFailures(events[..|events| - 1])
    else 0
  }

  /** One turn of the loop on its counter: None when it returns. */
  function HeartbeatTurn(failures: nat, event: HeartbeatEvent): Option<nat> {
    match event
    case Cancelled => None
    case Failed => if failures + 1 >= HEARTBEAT_GRACE then None else Some(failures + 1)
    case Updated(rows) => if rows == 0 then None else Some(0)
  }

  /** Three failures end the loop exactly when the two before this one failed as well. */
  lemma FailureStopsExactly(events: seq<HeartbeatEvent>)
    ensures StopsAt(events + [Failed], |events|) <==> HEARTBEAT_GRACE <= TrailingFailures(events) + 1
  {
    var n := TrailingFailures(events);
    var all := events + [Failed];
    if HEARTBEAT_GRACE <= n + 1 {
      forall j | |events| + 1 - HEARTBEAT_GRACE <= j <= |events| ensures all[j] == Failed {
        if j < |events| { assert all[j] == events[j]; }
      }
    } else if n < |events| {
      assert all[|events| - n - 1] == events[|events| - n - 1] != Failed;
    }
  }

  /** The counter carries exactly what the loop needs to know about its past. */
  lemma {:induction false} HeartbeatTurnExact(events: seq<HeartbeatEvent>, event: HeartbeatEvent)
    requires KeepsRunning(events)
    ensures TrailingFailures(events) < HEARTBEAT_GRACE
    ensures HeartbeatTurn(TrailingFailures(events), event) ==
            if StopsAt(events + [event], |events|) then None else Some(TrailingFailures(events + [event]))
  {
    if HEARTBEAT_GRACE <= TrailingFailures(events) {
      assert StopsAt(events, |events| - 1);
    }
    assert (events + [event])[..|events|] == events;
    if event == Failed {
      FailureStopsExactly(events);
    }
  }

  lemma {:induction false} StopsOnPrefix(events: seq<HeartbeatEvent>, k: nat)
    requires k < |events|
    ensures StopsAt(events, k) <==> StopsAt(events[..k + 1], k)
  {}

  /** The same at turn k of a longer list of events. */
  lemma {:induction false} TurnOnPrefix(events: seq<HeartbeatEvent>, k: nat)
    requires k < |events| && forall j :: 0 <= j < k ==> !StopsAt(events, j)
    ensures HeartbeatTurn(TrailingFailures(events[..k]), events[k]) ==
            if StopsAt(events, k) then None else Some(TrailingFailures(events[..k + 1]))
  {
    forall j | 0 <= j < k ensures !StopsAt(events[..k], j) {
      StopsOnPrefix(events, j);
      StopsOnPrefix(events[..k], j);
      assert events[..k][..j + 1] == events[..j + 1];
    }
    assert events[..k] + [events[k]] == events[..k + 1];
    HeartbeatTurnExact(events[..k], events[k]);
    StopsOnPrefix(events, k);
  }

  /**
   The loop of `heartbeatLeader`. It consumes events until it returns: `turns` is how
   many it looked at, and it returned exactly at the first turn that stops it.
   */
  method HeartbeatLeader(events: seq<HeartbeatEvent>) returns (turns: nat, stopped: bool)
    ensures turns <= |events|
    ensures stopped <==> exists k :: 0 <= k < |events| && StopsAt(events, k)
    ensures stopped ==> 0 < turns && StopsAt(events, turns - 1)
    ensures stopped ==> forall k :: 0 <= k < turns - 1 ==> !StopsAt(events, k)
    ensures !stopped ==> turns == |events|
  {
    turns, stopped := 0, false;
    var consecutiveFailures := 0;
    while turns < |events|
      invariant turns <= |events|
      invariant consecutiveFailures == TrailingFailures(events[..turns])
      invariant forall k :: 0 <= k < turns ==> !StopsAt(events, k)
    {
      TurnOnPrefix(events, turns);
      var event := events[turns];
      turns := turns + 1;
      match event {
        case Cancelled =>
          return turns, true;
        case Failed =>
          consecutiveFailures := consecutiveFailures + 1;
          if consecutiveFailures >= HEARTBEAT_GRACE {
            return turns, true;
          }
        case Updated(rows) =>
          consecutiveFailures := 0;
          if rows == 0 {
            return turns, true;
          }
      }
    }
  }
}
