/**
 The per-engine in-flight guard inside `runScheduler` (`cmd/nexara/main.go`): a tick
 compares-and-swaps an atomic flag and, when it wins, spawns a goroutine that runs the
 engine and clears the flag on its way out. Ticks arrive from the initial pass and
 from the ticker goroutine in any interleaving with the goroutines they spawned.
 */
module EngineGuard {
  /** A spawned goroutine: before `run`, inside it, after it but before the deferred store. */
  datatype Worker = Spawned | Working | Returned

  datatype Guard = Guard(inFlight: bool, workers: seq<Worker>, ticks: nat, started: nat, skipped: nat, finished: nat)

  /** What the scheduler may do next: another tick, or the next step of one goroutine. */
  datatype Event = Tick | Turn(k: nat)

  predicate Possible(g: Guard, e: Event) {
    e.Turn? ==> e.k < |g.workers|
  }

  function Ticked(g: Guard): Guard {
    if g.inFlight then g.(ticks := g.ticks + 1, skipped := g.skipped + 1)
    else g.(inFlight := true, ticks := g.ticks + 1, started := g.started + 1, workers := g.workers + [Spawned])
  }

  function Turned(g: Guard, k: nat): Guard
    requires k < |g.workers|
  {
    match g.workers[k]
    case Spawned => g.(workers := g.workers[k := Working])
    case Working => g.(workers := g.workers[k := Returned])
    case Returned => g.(inFlight := false, workers := g.workers[..k] + g.workers[k + 1..], finished := g.finished + 1)
  }

  function Next(g: Guard, e: Event): Guard
    requires Possible(g, e)
  {
    if e.Tick? then Ticked(g) else Turned(g, e.k)
  }

  const IDLE := Guard(false, [], 0, 0, 0, 0)

  /** `states` is what a schedule of events makes of a fresh guard. */
  predicate Schedule(states: seq<Guard>, events: seq<Event>) {
    && |states| == |events| + 1
    && states[0] == IDLE
    && forall n :: 0 <= n < |events| ==> Possible(states[n], events[n]) && states[n + 1] == Next(states[n], events[n])
  }

  function Ticks(events: seq<Event>): nat {
    if events == [] then 0
    else Ticks(events[..|events| - 1]) + (if events[|events| - 1].Tick? then 1 else 0)
  }

  /** One goroutine alive while the flag is up, none while it is down; every tick and every run accounted for. */
  predicate Sound(g: Guard) {
    && |g.workers| == (if g.inFlight then 1 else 0)
    && g.ticks == g.started + g.skipped
    && g.started == g.finished + |g.workers|
  }

  lemma {:induction false} StepKeepsSound(g: Guard, e: Event)
    requires Sound(g) && Possible(g, e)
    ensures Sound(Next(g, e)) && Next(g, e).ticks == g.ticks + (if e.Tick? then 1 else 0)
  {}

  /**
   Under every interleaving: at most one goroutine is alive, the flag is up exactly
   while one is, and every tick seen either started a run or was skipped; every run
   started has finished or is the one alive, so none is queued.
   */
  lemma {:induction false} OneRunInFlight(states: seq<Guard>, events: seq<Event>, n: nat)
    requires Schedule(states, events) && n < |states|
    ensures states[n].inFlight <==> |states[n].workers| == 1
    ensures !states[n].inFlight <==> states[n].workers == []
    ensures states[n].ticks == Ticks(events[..n])
    ensures states[n].ticks == states[n].started + states[n].skipped
    ensures states[n].started == states[n].finished + |states[n].workers|
  {
    if n == 0 {
    } else {
      OneRunInFlight(states, events, n - 1);
      assert events[..n][..n - 1] == events[..n - 1];
      assert Possible(states[n - 1], events[n - 1]) && states[n] == Next(states[n - 1], events[n - 1]);
      StepKeepsSound(states[n - 1], events[n - 1]);
    }
  }

  /** A tick is skipped exactly when the run before it is still in flight. */
  lemma SkippedExactlyWhileInFlight(states: seq<Guard>, events: seq<Event>, n: nat)
    requires Schedule(states, events) && n < |events| && events[n] == Tick
    ensures states[n + 1].skipped == states[n].skipped + 1 <==> |states[n].workers| == 1
    ensures states[n + 1].started == states[n].started + 1 <==> states[n].workers == []
  {
    OneRunInFlight(states, events, n);
  }

  /** The guard as the closure keeps it: one flag, one goroutine list, changed in place. */
  class Engine {
    var inFlight: bool
    var workers: seq<Worker>
    ghost var view: Guard

    ghost predicate Valid()
      reads this
    {
      view.inFlight == inFlight && view.workers == workers
    }

    constructor ()
      ensures Valid() && view == IDLE
    {
      inFlight, workers := false, [];
      view := IDLE;
    }

    method CompareAndSwap(want: bool, put: bool) returns (swapped: bool)
      modifies this`inFlight
      ensures swapped == (old(inFlight) == want)
      ensures inFlight == if swapped then put else old(inFlight)
    {
      swapped := inFlight == want;
      if swapped { inFlight := put; }
    }

    method Tick()
      requires Valid()
      modifies this
      ensures Valid() && view == Ticked(old(view))
    {
      view := Ticked(view);
      var won := CompareAndSwap(false, true);
      if !won {
        return;
      }
      workers := workers + [Spawned];
    }

    method Turn(k: nat)
      requires Valid() && k < |workers|
      modifies this
      ensures Valid() && view == Turned(old(view), k)
    {
      view := Turned(view, k);
      match workers[k] {
        case Spawned => workers := workers[k := Working];
        case Working => workers := workers[k := Returned];
        case Returned =>
          inFlight := false;
          workers := workers[..k] + workers[k + 1..];
      }
    }
  }
}
