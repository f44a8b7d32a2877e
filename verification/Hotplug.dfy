/** The reactor object of the hotplug watchdog, its goroutine bodies cut at their scheduling points.

    The small methods do what one goroutine does between two points where another may run; each contract names
    the step of HotplugMachine it takes, with the whole new state. On a goroutine's turn, BatcherTurn and its
    likes choose among these as the program's select does: any case that is ready. */
module Hotplug {
  import opened HotplugMachine
  import opened Wrappers

  /** Who runs next: the netlink listener with an event, a goroutine of the reactor, the runtime with its clock,
      or the controller that stops the watchdog. */
  datatype Turn = Listener(evt: Event) | Batching | Working | Runtime(dt: nat) | Controller

  /** The steps that are this agent's to take. */
  predicate Owns(turn: Turn, l: Label) {
    match turn
    case Listener(evt) => l == Ingest(evt)
    case Batching => l.ReceiveEvent? || l.ExtendWindow? || l.ReceiveTick? || l.SendJob? || l.BatcherExit?
    case Working => l.ReceiveJob? || l.HandlerStart? || l.HandlerReturn? || l.WorkerExit?
    case Runtime(dt) => l.Fire? || l == Tick(dt)
    case Controller => l.Stop?
  }

  ghost predicate HasNoStep(turn: Turn, s: State) {
    forall l :: Owns(turn, l) ==> !Enabled(s, l)
  }

  /** What a turn may do to the reactor: one enabled step of its own, or nothing if it has none. */
  ghost predicate Takes(turn: Turn, s: State, t: State, l: Option<Label>) {
    match l
    case Some(step) => Owns(turn, step) && Enabled(s, step) && t == Next(s, step)
    case None => t == s && HasNoStep(turn, s)
  }

  /** `taken` is what these turns did from s on: each turn in order took one enabled step of its own, or is left out
      because it had none. */
  ghost predicate Follows(s: State, turns: seq<Turn>, taken: seq<Label>)
    decreases |turns|
  {
    if turns == [] then taken == []
    else
      || (HasNoStep(turns[0], s) && Follows(s, turns[1..], taken))
      || (taken != [] && Owns(turns[0], taken[0]) && Enabled(s, taken[0]) &&
          Follows(Next(s, taken[0]), turns[1..], taken[1..]))
  }

  function Listened(turns: seq<Turn>): seq<Event> {
    if turns == [] then []
    else (if turns[0].Listener? then [turns[0].evt] else []) + Listened(turns[1..])
  }

  function Offered(taken: seq<Label>): seq<Event> {
    if taken == [] then []
    else (if taken[0].Ingest? then [taken[0].evt] else []) + Offered(taken[1..])
  }

  lemma {:induction false} FollowsOne(s: State, t: State, turn: Turn, l: Option<Label>)
    requires Takes(turn, s, t, l)
    ensures l.None? ==> Follows(s, [turn], [])
    ensures l.Some? ==> Follows(s, [turn], [l.value])
  {
    assert Follows(t, [], []);
    assert [turn][1..] == [];
    if l.Some? {
      assert [l.value][1..] == [];
    }
  }

  lemma {:induction false} FollowsJoin(s: State, turns: seq<Turn>, taken: seq<Label>, moreTurns: seq<Turn>,
      more: seq<Label>)
    requires CanRun(s, taken) && Follows(s, turns, taken) && Follows(After(s, taken), moreTurns, more)
    ensures Follows(s, turns + moreTurns, taken + more)
    decreases |turns|
  {
    if turns == [] {
      assert turns + moreTurns == moreTurns && taken + more == more;
    } else {
      assert (turns + moreTurns)[1..] == turns[1..] + moreTurns;
      if taken != [] && Owns(turns[0], taken[0]) && Follows(Next(s, taken[0]), turns[1..], taken[1..]) {
        assert (taken + more)[1..] == taken[1..] + more;
        FollowsJoin(Next(s, taken[0]), turns[1..], taken[1..], moreTurns, more);
      } else {
        FollowsJoin(s, turns[1..], taken, moreTurns, more);
      }
    }
  }

  lemma {:induction false} ListenerIsNeverIdle(s: State, turn: Turn)
    ensures turn.Listener? ==> !HasNoStep(turn, s)
  {
    if turn.Listener? {
      assert Owns(turn, Ingest(turn.evt)) && Enabled(s, Ingest(turn.evt));
    }
  }

  /** No event that the listener had is lost on the way to Ingest, and none is made up. */
  lemma {:induction false} EveryListenedEventIsOffered(s: State, turns: seq<Turn>, taken: seq<Label>)
    requires Follows(s, turns, taken)
    ensures Offered(taken) == Listened(turns) && |taken| <= |turns|
    decreases |turns|
  {
    if turns == [] {
    } else {
      ListenerIsNeverIdle(s, turns[0]);
      if HasNoStep(turns[0], s) && Follows(s, turns[1..], taken) {
        EveryListenedEventIsOffered(s, turns[1..], taken);
      } else {
        EveryListenedEventIsOffered(Next(s, taken[0]), turns[1..], taken[1..]);
      }
    }
  }

  class HotplugReactor {
    var events: seq<Event>
    var jobs: seq<Job>
    var stopped: bool
    const window: nat

    // locals of processBatches and the place it has reached
    var batch: Job
    var timer: Timer
    var timerRunning: bool
    var batcher: Batcher

    // the place workerLogic has reached
    var worker: Worker

    var clock: int

    ghost var accepted: seq<Event>
    ghost var lastReceive: int
    ghost var flushed: seq<Flush>
    ghost var handled: seq<Job>

    ghost function State(): State
      reads this
    {
      HotplugMachine.State(window, clock, events, jobs, batch, timer, timerRunning, batcher, worker, stopped,
                           accepted, lastReceive, flushed, handled)
    }

    constructor (window: nat, now: int)
      ensures State() == Init(window, now) && Inv(State())
    {
      this.window := window;
      events, jobs, stopped := [], [], false;
      batch, timer, timerRunning, batcher := [], Idle, false, Selecting;
      worker := Waiting;
      clock := now;
      accepted, lastReceive, flushed, handled := [], now, [], [];
    }

    lemma InvAfter(l: Label)
      requires Enabled(State(), l)
      ensures Inv(State()) ==> Inv(Next(State(), l))
    {
      if Inv(State()) {
        InvStep(State(), l);
      }
    }

    /** Never blocks: a full buffer drops the event. */
    method Ingest(evt: Event)
      modifies this
      ensures State() == Next(old(State()), Label.Ingest(evt))
      ensures old(Inv(State())) ==> Inv(State())
    {
      InvAfter(Label.Ingest(evt));
      if |events| < EVENT_BUFFER_SIZE {
        events := events + [evt];
        accepted := accepted + [evt];
      }
    }

    method StopReactor()
      requires !stopped
      modifies this
      ensures State() == Next(old(State()), Stop)
      ensures old(Inv(State())) ==> Inv(State())
    {
      InvAfter(Stop);
      stopped := true;
    }

    /** The runtime: time passes, and an armed timer whose deadline has come delivers its tick. */
    method Elapse(dt: nat)
      modifies this
      ensures State() == Next(old(State()), Tick(dt))
      ensures old(Inv(State())) ==> Inv(State())
    {
      InvAfter(Tick(dt));
      clock := clock + dt;
    }

    method FireTimer()
      requires Enabled(State(), Fire)
      modifies this
      ensures State() == Next(old(State()), Fire)
      ensures old(Inv(State())) ==> Inv(State())
    {
      InvAfter(Fire);
      timer := Fired;
    }

    /** processBatches, the event case up to the timer: take the event and append it. */
    method TakeEvent()
      requires Enabled(State(), ReceiveEvent)
      modifies this
      ensures State() == Next(old(State()), ReceiveEvent)
      ensures old(Inv(State())) ==> Inv(State())
    {
      InvAfter(ReceiveEvent);
      var evt := events[0];
      events := events[1..];
      batch := batch + [evt.cpu];
      lastReceive := clock;
      batcher := Extending;
    }

    /** processBatches, the rest of the event case: stop, drain and reset leave no stale tick. */
    method Extend()
      requires Enabled(State(), ExtendWindow)
      modifies this
      ensures State() == Next(old(State()), ExtendWindow)
      ensures old(Inv(State())) ==> Inv(State())
    {
      InvAfter(ExtendWindow);
      if timerRunning {
        timer := Idle;
      }
      timer := Armed(clock + window);
      timerRunning := true;
      batcher := Selecting;
    }

    /** processBatches, the timer case up to the send. */
    method TakeTick()
      requires Enabled(State(), ReceiveTick)
      modifies this
      ensures State() == Next(old(State()), ReceiveTick)
      ensures old(Inv(State())) ==> Inv(State())
    {
      InvAfter(ReceiveTick);
      timer := Idle;
      timerRunning := false;
      if |batch| > 0 {
        var job := batch;
        batch := [];
        batcher := Sending(job);
      }
    }

    /** processBatches, the send: a full job queue drops the batch. */
    method OfferJob()
      requires Enabled(State(), SendJob)
      modifies this
      ensures State() == Next(old(State()), SendJob)
      ensures old(Inv(State())) ==> Inv(State())
    {
      InvAfter(SendJob);
      var job := batcher.job;
      if |jobs| < JOB_BUFFER_SIZE {
        jobs := jobs + [job];
        flushed := flushed + [Flush(job, true)];
      } else {
        flushed := flushed + [Flush(job, false)];
      }
      batcher := Selecting;
    }

    method TakeJob()
      requires Enabled(State(), ReceiveJob)
      modifies this
      ensures State() == Next(old(State()), ReceiveJob)
      ensures old(Inv(State())) ==> Inv(State())
    {
      InvAfter(ReceiveJob);
      worker := Received(jobs[0]);
      jobs := jobs[1..];
    }

    /** The handler is called: StartWatchdog wires it to CalculateRanking. */
    method CallHandler()
      requires Enabled(State(), HandlerStart)
      modifies this
      ensures State() == Next(old(State()), HandlerStart)
      ensures old(Inv(State())) ==> Inv(State())
    {
      InvAfter(HandlerStart);
      handled := handled + [worker.job];
      worker := Handling(worker.job);
    }

    method ReturnFromHandler()
      requires Enabled(State(), HandlerReturn)
      modifies this
      ensures State() == Next(old(State()), HandlerReturn)
      ensures old(Inv(State())) ==> Inv(State())
    {
      InvAfter(HandlerReturn);
      worker := Waiting;
    }

    /** processBatches or workerLogic sees the closed stop channel and returns. */
    method Exit(l: Label)
      requires l.BatcherExit? || l.WorkerExit?
      requires Enabled(State(), l)
      modifies this
      ensures State() == Next(old(State()), l)
      ensures old(Inv(State())) ==> Inv(State())
    {
      InvAfter(l);
      if l.BatcherExit? {
        batcher := BatcherExited;
      } else {
        worker := WorkerExited;
      }
    }

    /** processBatches at its select takes any ready case; elsewhere it goes on with what it began. */
    method BatcherTurn() returns (l: Option<Label>)
      modifies this
      ensures Takes(Batching, old(State()), State(), l)
    {
      if
      case batcher.Selecting? && stopped =>
        Exit(BatcherExit);
        l := Some(BatcherExit);
      case batcher.Selecting? && events != [] =>
        TakeEvent();
        l := Some(ReceiveEvent);
      case batcher.Selecting? && timer.Fired? =>
        TakeTick();
        l := Some(ReceiveTick);
      case batcher.Extending? =>
        Extend();
        l := Some(ExtendWindow);
      case batcher.Sending? =>
        OfferJob();
        l := Some(SendJob);
      case batcher.BatcherExited? || (batcher.Selecting? && !stopped && events == [] && !timer.Fired?) =>
        l := None;
    }

    method WorkerTurn() returns (l: Option<Label>)
      modifies this
      ensures Takes(Working, old(State()), State(), l)
    {
      if
      case worker.Waiting? && stopped =>
        Exit(WorkerExit);
        l := Some(WorkerExit);
      case worker.Waiting? && jobs != [] =>
        TakeJob();
        l := Some(ReceiveJob);
      case worker.Received? =>
        CallHandler();
        l := Some(HandlerStart);
      case worker.Handling? =>
        ReturnFromHandler();
        l := Some(HandlerReturn);
      case worker.WorkerExited? || (worker.Waiting? && !stopped && jobs == []) =>
        l := None;
    }

    /** A due tick may be delivered now or, as far as the program can tell, some time later. */
    method RuntimeTurn(dt: nat) returns (l: Option<Label>)
      modifies this
      ensures Takes(Runtime(dt), old(State()), State(), l)
    {
      if
      case timer.Armed? && timer.deadline <= clock =>
        FireTimer();
        l := Some(Fire);
      case true =>
        Elapse(dt);
        l := Some(Tick(dt));
    }

    method ControllerTurn() returns (l: Option<Label>)
      modifies this
      ensures Takes(Controller, old(State()), State(), l)
    {
      if stopped {
        l := None;
      } else {
        StopReactor();
        l := Some(Stop);
      }
    }

    method TakeTurn(turn: Turn) returns (l: Option<Label>)
      modifies this
      ensures Takes(turn, old(State()), State(), l)
    {
      match turn
      case Listener(evt) =>
        Ingest(evt);
        l := Some(Label.Ingest(evt));
      case Batching => l := BatcherTurn();
      case Working => l := WorkerTurn();
      case Runtime(dt) => l := RuntimeTurn(dt);
      case Controller => l := ControllerTurn();
    }

    /** Whoever runs when, and whichever ready case a select picks, what happens to the object is a run of the
        step relation in which each turn in order takes a step of its own, unless it has none that is enabled. So
        the run offers exactly the listener's events, from a new reactor on the invariant holds, and once a run
        that was not stopped has nothing left to do, each of those events is followed by a handler call. */
    method Interleave(turns: seq<Turn>) returns (taken: seq<Label>)
      modifies this
      ensures CanRun(old(State()), taken) && State() == After(old(State()), taken)
      ensures old(Inv(State())) ==> Inv(State())
      ensures Follows(old(State()), turns, taken)
      ensures Offered(taken) == Listened(turns)
      ensures old(State()) == Init(window, old(clock)) && !stopped && !CanProgress(State()) ==> AllHandled(taken)
    {
      ghost var start := State();
      taken := [];
      for i := 0 to |turns|
        invariant CanRun(start, taken) && State() == After(start, taken)
        invariant Follows(start, turns[..i], taken)
      {
        ghost var before, soFar := State(), taken;
        var l := TakeTurn(turns[i]);
        FollowsOne(before, State(), turns[i], l);
        assert turns[..i + 1] == turns[..i] + [turns[i]];
        if l.Some? {
          RunSnoc(start, taken, l.value);
          taken := taken + [l.value];
          FollowsJoin(start, turns[..i], soFar, [turns[i]], [l.value]);
        } else {
          FollowsJoin(start, turns[..i], soFar, [turns[i]], []);
          assert soFar + [] == soFar;
        }
      }
      assert turns[..|turns|] == turns;
      EveryListenedEventIsOffered(start, turns, taken);
      if Inv(start) {
        InvRun(start, taken);
      }
      if start == Init(window, old(clock)) && !stopped && !CanProgress(State()) {
        EveryEventIsFollowedByAHandlerCall(window, old(clock), taken);
      }
    }
  }
}
