/** The hotplug reactor as a step relation.

    Three goroutines share two bounded channels: the netlink listener offers events, the batcher
    collects them behind a debounce timer, and one worker runs the handler. Every receive, send,
    timer operation and handler boundary is a step of its own; which enabled step comes next is left
    open, as it is in the program. Both channels drop on overflow.

    The last four fields of State are history: they are written and never read by a step. */
module HotplugMachine {
  const EVENT_BUFFER_SIZE: nat := 100
  const JOB_BUFFER_SIZE: nat := 10

  datatype Action = Add | Remove
  datatype Event = Event(cpu: string, action: Action)

  type Job = seq<string>

  datatype Timer = Idle | Armed(deadline: int) | Fired

  /** Where the batcher goroutine is: at its select, between taking an event and resetting the timer,
      about to offer a job to the worker, or gone. */
  datatype Batcher = Selecting | Extending | Sending(job: Job) | BatcherExited

  datatype Worker = Waiting | Received(job: Job) | Handling(job: Job) | WorkerExited

  datatype Flush = Flush(job: Job, sent: bool)

  datatype State = State(
    window: nat,
    now: int,
    events: seq<Event>,
    jobs: seq<Job>,
    batch: Job,
    timer: Timer,
    timerRunning: bool,
    batcher: Batcher,
    worker: Worker,
    stopped: bool,
    accepted: seq<Event>,
    lastReceive: int,
    flushed: seq<Flush>,
    handled: seq<Job>)

  function Init(window: nat, now: int): State {
    State(window, now, [], [], [], Idle, false, Selecting, Waiting, false, [], now, [], [])
  }

  datatype Label =
    | Tick(dt: nat)
    | Ingest(evt: Event)
    | Fire
    | ReceiveEvent
    | ExtendWindow
    | ReceiveTick
    | SendJob
    | ReceiveJob
    | HandlerStart
    | HandlerReturn
    | Stop
    | BatcherExit
    | WorkerExit

  /** A closed stop channel does not disable the other cases of a select: any ready case may win. */
  predicate Enabled(s: State, l: Label) {
    match l
    case Tick(_) => true
    case Ingest(_) => true
    case Fire => s.timer.Armed? && s.timer.deadline <= s.now
    case ReceiveEvent => s.batcher.Selecting? && s.events != []
    case ExtendWindow => s.batcher.Extending?
    case ReceiveTick => s.batcher.Selecting? && s.timer.Fired?
    case SendJob => s.batcher.Sending?
    case ReceiveJob => s.worker.Waiting? && s.jobs != []
    case HandlerStart => s.worker.Received?
    case HandlerReturn => s.worker.Handling?
    case Stop => !s.stopped
    case BatcherExit => s.batcher.Selecting? && s.stopped
    case WorkerExit => s.worker.Waiting? && s.stopped
  }

  function Next(s: State, l: Label): State
    requires Enabled(s, l)
  {
    match l
    case Tick(dt) => s.(now := s.now + dt)
    case Ingest(evt) =>
      if |s.events| < EVENT_BUFFER_SIZE then s.(events := s.events + [evt], accepted := s.accepted + [evt]) else s
    case Fire => s.(timer := Fired)
    case ReceiveEvent =>
      s.(events := s.events[1..], batch := s.batch + [s.events[0].cpu], batcher := Extending, lastReceive := s.now)
    case ExtendWindow =>
      s.(timer := Armed(s.now + s.window), timerRunning := true, batcher := Selecting)
    case ReceiveTick =>
      if |s.batch| > 0
      then s.(timer := Idle, timerRunning := false, batch := [], batcher := Sending(s.batch))
      else s.(timer := Idle, timerRunning := false)
    case SendJob =>
      var job := s.batcher.job;
      if |s.jobs| < JOB_BUFFER_SIZE
      then s.(jobs := s.jobs + [job], batcher := Selecting, flushed := s.flushed + [Flush(job, true)])
      else s.(batcher := Selecting, flushed := s.flushed + [Flush(job, false)])
    case ReceiveJob => s.(jobs := s.jobs[1..], worker := Received(s.jobs[0]))
    case HandlerStart => s.(worker := Handling(s.worker.job), handled := s.handled + [s.worker.job])
    case HandlerReturn => s.(worker := Waiting)
    case Stop => s.(stopped := true)
    case BatcherExit => s.(batcher := BatcherExited)
    case WorkerExit => s.(worker := WorkerExited)
  }

  // ---------------------------------------------------------------- runs

  predicate CanRun(s: State, ls: seq<Label>)
    decreases |ls|
  {
    ls == [] || (Enabled(s, ls[0]) && CanRun(Next(s, ls[0]), ls[1..]))
  }

  function After(s: State, ls: seq<Label>): State
    requires CanRun(s, ls)
    decreases |ls|
  {
    if ls == [] then s else After(Next(s, ls[0]), ls[1..])
  }

  lemma RunCons(s: State, l: Label, ls: seq<Label>)
    requires Enabled(s, l) && CanRun(Next(s, l), ls)
    ensures CanRun(s, [l] + ls) && After(s, [l] + ls) == After(Next(s, l), ls)
  {
    assert ([l] + ls)[1..] == ls;
  }

  lemma {:induction false} SplitRun(s: State, ls: seq<Label>, i: nat)
    requires CanRun(s, ls) && i <= |ls|
    ensures CanRun(s, ls[..i]) && CanRun(After(s, ls[..i]), ls[i..])
    ensures After(s, ls) == After(After(s, ls[..i]), ls[i..])
    decreases |ls|
  {
    if i == 0 {
      assert ls[0..] == ls;
    } else {
      var l, rest := ls[0], ls[1..];
      SplitRun(Next(s, l), rest, i - 1);
      RunCons(s, l, rest[..i - 1]);
      assert ls[..i] == [l] + rest[..i - 1] && ls[i..] == rest[i - 1..];
    }
  }

  lemma {:induction false} JoinRuns(s: State, ls: seq<Label>, rest: seq<Label>)
    requires CanRun(s, ls) && CanRun(After(s, ls), rest)
    ensures CanRun(s, ls + rest) && After(s, ls + rest) == After(After(s, ls), rest)
    decreases |ls|
  {
    if ls == [] {
      assert [] + rest == rest;
    } else {
      JoinRuns(Next(s, ls[0]), ls[1..], rest);
      RunCons(s, ls[0], ls[1..] + rest);
      assert ls + rest == [ls[0]] + (ls[1..] + rest);
    }
  }

  lemma RunSnoc(s: State, ls: seq<Label>, l: Label)
    requires CanRun(s, ls) && Enabled(After(s, ls), l)
    ensures CanRun(s, ls + [l]) && After(s, ls + [l]) == Next(After(s, ls), l)
  {
    RunCons(After(s, ls), l, []);
    JoinRuns(s, ls, [l]);
  }

  /** The state reached just before step i. */
  function Before(s: State, ls: seq<Label>, i: nat): State
    requires CanRun(s, ls) && i <= |ls|
  {
    SplitRun(s, ls, i);
    After(s, ls[..i])
  }

  lemma {:induction false} SplitAt(s: State, ls: seq<Label>, i: nat)
    requires CanRun(s, ls) && i < |ls|
    ensures Enabled(Before(s, ls, i), ls[i])
    ensures Before(s, ls, i + 1) == Next(Before(s, ls, i), ls[i])
    ensures CanRun(Next(Before(s, ls, i), ls[i]), ls[i + 1..])
    ensures After(s, ls) == After(Next(Before(s, ls, i), ls[i]), ls[i + 1..])
  {
    SplitRun(s, ls, i);
    assert ls[i..][1..] == ls[i + 1..] && ls[i..][0] == ls[i];
    SplitRun(s, ls, i + 1);
    SplitRun(s, ls[..i + 1], i);
    assert ls[..i + 1][..i] == ls[..i] && ls[..i + 1][i..] == [ls[i]];
  }

  // ---------------------------------------------------------------- the invariant

  function Cpus(events: seq<Event>): (r: Job)
    ensures |r| == |events|
    ensures forall i :: 0 <= i < |events| ==> r[i] == events[i].cpu
  {
    seq(|events|, i requires 0 <= i < |events| => events[i].cpu)
  }

  function Flat(flushed: seq<Flush>): Job {
    if flushed == [] then [] else Flat(flushed[..|flushed| - 1]) + flushed[|flushed| - 1].job
  }

  function SentJobs(flushed: seq<Flush>): seq<Job> {
    if flushed == [] then []
    else
      var last := flushed[|flushed| - 1];
      SentJobs(flushed[..|flushed| - 1]) + if last.sent then [last.job] else []
  }

  function PendingSend(b: Batcher): Job { if b.Sending? then b.job else [] }

  function InHand(w: Worker): seq<Job> { if w.Received? then [w.job] else [] }

  /** Every accepted event is in exactly one place, and in arrival order: in a closed batch, in the batch about
      to be sent, in the open batch or in the queue. */
  predicate EventsConserved(s: State) {
    Cpus(s.accepted) == Flat(s.flushed) + PendingSend(s.batcher) + s.batch + Cpus(s.events)
  }

  /** So is every job that reached the job queue, first in, first out. */
  predicate JobsConserved(s: State) {
    SentJobs(s.flushed) == s.handled + InHand(s.worker) + s.jobs
  }

  predicate Bounded(s: State) {
    |s.events| <= EVENT_BUFFER_SIZE && |s.jobs| <= JOB_BUFFER_SIZE
  }

  predicate Debounced(s: State) {
    && (s.batcher.Selecting? || s.batcher.BatcherExited? ==>
        (s.batch != [] <==> s.timerRunning) && (s.timerRunning <==> !s.timer.Idle?))
    && (s.batcher.Extending? ==> s.batch != [])
    && (s.batcher.Sending? ==> s.batch == [] && s.timer.Idle? && !s.timerRunning && s.batcher.job != [])
    && (forall k :: 0 <= k < |s.flushed| ==> s.flushed[k].job != [])
    && s.lastReceive <= s.now
    && (s.timer.Armed? ==> s.timer.deadline <= s.now + s.window)
    && (!s.batcher.Extending? && s.timer.Armed? ==> s.lastReceive + s.window <= s.timer.deadline)
    && (!s.batcher.Extending? && s.timer.Fired? ==> s.lastReceive + s.window <= s.now)
  }

  predicate ExitsOnlyAfterStop(s: State) {
    (s.batcher.BatcherExited? || s.worker.WorkerExited?) ==> s.stopped
  }

  predicate Inv(s: State) {
    Bounded(s) && Debounced(s) && EventsConserved(s) && JobsConserved(s) && ExitsOnlyAfterStop(s)
  }

  lemma CpusAppend(a: seq<Event>, e: Event)
    ensures Cpus(a + [e]) == Cpus(a) + [e.cpu]
  {}

  lemma Reassociate(a: Job, b: Job, c: Job, d: Job)
    ensures a + b + c + d == a + (b + c) + d == a + b + (c + d)
  {}

  lemma FlatAppend(flushed: seq<Flush>, f: Flush)
    ensures Flat(flushed + [f]) == Flat(flushed) + f.job
    ensures SentJobs(flushed + [f]) == SentJobs(flushed) + if f.sent then [f.job] else []
  {
    assert (flushed + [f])[..|flushed|] == flushed;
  }

  lemma {:induction false} IngestConserves(s: State, evt: Event)
    requires EventsConserved(s)
    ensures EventsConserved(Next(s, Ingest(evt)))
  {
    CpusAppend(s.accepted, evt);
    CpusAppend(s.events, evt);
    Reassociate(Flat(s.flushed) + PendingSend(s.batcher), s.batch, Cpus(s.events), [evt.cpu]);
  }

  lemma {:induction false} ReceiveConserves(s: State)
    requires EventsConserved(s) && Enabled(s, ReceiveEvent)
    ensures EventsConserved(Next(s, ReceiveEvent))
  {
    assert Cpus(s.events) == [s.events[0].cpu] + Cpus(s.events[1..]);
    Reassociate(Flat(s.flushed) + PendingSend(s.batcher), s.batch, [s.events[0].cpu], Cpus(s.events[1..]));
  }

  lemma {:induction false} TickConserves(s: State)
    requires EventsConserved(s) && Enabled(s, ReceiveTick)
    ensures EventsConserved(Next(s, ReceiveTick))
  {
    Reassociate(Flat(s.flushed), [], s.batch, Cpus(s.events));
    Reassociate(Flat(s.flushed), s.batch, [], Cpus(s.events));
  }

  lemma {:induction false} SendConserves(s: State)
    requires EventsConserved(s) && Enabled(s, SendJob)
    ensures EventsConserved(Next(s, SendJob))
  {
    var t, f := Next(s, SendJob), Flush(s.batcher.job, |s.jobs| < JOB_BUFFER_SIZE);
    assert t.accepted == s.accepted && t.flushed == s.flushed + [f] && t.batch == s.batch && t.events == s.events;
    FlatAppend(s.flushed, f);
    assert Flat(t.flushed) + PendingSend(t.batcher) == Flat(s.flushed) + PendingSend(s.batcher);
  }

  lemma {:induction false} EventsConservedStep(s: State, l: Label)
    requires EventsConserved(s) && Enabled(s, l)
    ensures EventsConserved(Next(s, l))
  {
    match l
    case Ingest(evt) => IngestConserves(s, evt);
    case ReceiveEvent => ReceiveConserves(s);
    case ReceiveTick => TickConserves(s);
    case SendJob => SendConserves(s);
    case _ =>
  }

  lemma {:induction false} SendConservesJobs(s: State)
    requires JobsConserved(s) && Enabled(s, SendJob)
    ensures JobsConserved(Next(s, SendJob))
  {
    var t, f := Next(s, SendJob), Flush(s.batcher.job, |s.jobs| < JOB_BUFFER_SIZE);
    FlatAppend(s.flushed, f);
    assert t.flushed == s.flushed + [f] && t.handled == s.handled && InHand(t.worker) == InHand(s.worker);
    assert s.handled + InHand(s.worker) + s.jobs + [f.job] == s.handled + InHand(s.worker) + (s.jobs + [f.job]);
  }

  lemma {:induction false} ReceiveConservesJobs(s: State)
    requires JobsConserved(s) && Enabled(s, ReceiveJob)
    ensures JobsConserved(Next(s, ReceiveJob))
  {
    var t := Next(s, ReceiveJob);
    assert InHand(s.worker) == [] && InHand(t.worker) == [s.jobs[0]];
    assert s.handled + [] + s.jobs == s.handled + [s.jobs[0]] + s.jobs[1..];
  }

  lemma {:induction false} StartConservesJobs(s: State)
    requires JobsConserved(s) && Enabled(s, HandlerStart)
    ensures JobsConserved(Next(s, HandlerStart))
  {
    var t := Next(s, HandlerStart);
    assert t.handled == s.handled + InHand(s.worker) && InHand(t.worker) == [] && t.jobs == s.jobs;
    assert t.handled + [] + t.jobs == t.handled + t.jobs;
  }

  lemma {:induction false} JobsConservedStep(s: State, l: Label)
    requires JobsConserved(s) && Enabled(s, l)
    ensures JobsConserved(Next(s, l))
  {
    match l
    case SendJob => SendConservesJobs(s);
    case ReceiveJob => ReceiveConservesJobs(s);
    case HandlerStart => StartConservesJobs(s);
    case _ =>
  }

  lemma {:induction false} DebouncedStep(s: State, l: Label)
    requires Debounced(s) && Enabled(s, l)
    ensures Debounced(Next(s, l))
  {
    match l {
      case Tick(_) => case Ingest(_) => case Fire => case ReceiveEvent => case ExtendWindow => case ReceiveTick =>
      case SendJob => case ReceiveJob => case HandlerStart => case HandlerReturn => case Stop =>
      case BatcherExit => case WorkerExit =>
    }
  }

  lemma {:induction false} BoundedStep(s: State, l: Label)
    requires Bounded(s) && ExitsOnlyAfterStop(s) && Enabled(s, l)
    ensures Bounded(Next(s, l)) && ExitsOnlyAfterStop(Next(s, l))
  {}

  lemma {:induction false} InvStep(s: State, l: Label)
    requires Inv(s) && Enabled(s, l)
    ensures Inv(Next(s, l))
  {
    EventsConservedStep(s, l);
    JobsConservedStep(s, l);
    DebouncedStep(s, l);
    BoundedStep(s, l);
  }

  lemma {:induction false} InvRun(s: State, ls: seq<Label>)
    requires Inv(s) && CanRun(s, ls)
    ensures Inv(After(s, ls))
    decreases |ls|
  {
    if ls == [] {
    } else {
      InvStep(s, ls[0]);
      InvRun(Next(s, ls[0]), ls[1..]);
    }
  }

  /** Conservation, order and the debounce conditions hold in every reachable state, stopped or not. */
  lemma Reachable(window: nat, now: int, ls: seq<Label>)
    requires CanRun(Init(window, now), ls)
    ensures Inv(After(Init(window, now), ls))
  {
    InvRun(Init(window, now), ls);
  }

  // ---------------------------------------------------------------- no lost wake-up

  /** Something is under way that, unless the reactor is stopped, leads to a handler call (WorkLeadsToHandler). */
  predicate Work(s: State) {
    || s.events != []
    || (s.batch != [] && (s.batcher.Extending? || !s.timer.Idle?))
    || s.batcher.Sending?
    || s.jobs != []
    || s.worker.Received?
  }

  lemma {:induction false} WorkPersistsStep(s: State, l: Label)
    requires Debounced(s) && Work(s) && Enabled(s, l) && !l.HandlerStart?
    ensures Work(Next(s, l))
  {
    match l {
      case Tick(_) => case Ingest(_) => case Fire => case ReceiveEvent => case ExtendWindow => case ReceiveTick =>
      case SendJob => case ReceiveJob => case HandlerReturn => case Stop => case BatcherExit => case WorkerExit =>
      case _ =>
    }
  }

  lemma {:induction false} WorkPersists(s: State, ls: seq<Label>)
    requires Inv(s) && Work(s) && CanRun(s, ls)
    requires forall k :: 0 <= k < |ls| ==> !ls[k].HandlerStart?
    ensures Work(After(s, ls))
    decreases |ls|
  {
    if ls == [] {
    } else {
      InvStep(s, ls[0]);
      WorkPersistsStep(s, ls[0]);
      WorkPersists(Next(s, ls[0]), ls[1..]);
    }
  }

  /** Dropping is harmless. Whether the event offered at step i was accepted or dropped, unless a handler
      call has started since, work is still under way. */
  lemma {:induction false} NoLostWakeup(window: nat, now: int, ls: seq<Label>, i: nat)
    requires CanRun(Init(window, now), ls)
    requires i < |ls| && ls[i].Ingest?
    requires forall k :: i < k < |ls| ==> !ls[k].HandlerStart?
    ensures Work(After(Init(window, now), ls))
  {
    var s := Init(window, now);
    SplitAt(s, ls, i);
    SplitRun(s, ls, i);
    Reachable(window, now, ls[..i]);
    var t := Next(Before(s, ls, i), ls[i]);
    InvStep(Before(s, ls, i), ls[i]);
    WorkPersists(t, ls[i + 1..]);
  }

  // ---------------------------------------------------------------- draining

  /** The steps the reactor takes by itself once nothing is offered and nobody stops it. */
  predicate Internal(l: Label) {
    l.Fire? || l.ReceiveEvent? || l.ExtendWindow? || l.ReceiveTick? || l.SendJob?
    || l.ReceiveJob? || l.HandlerStart? || l.HandlerReturn?
  }

  /** Only that happens, and time passes. */
  predicate LeftAlone(ls: seq<Label>) {
    forall k :: 0 <= k < |ls| ==> Internal(ls[k]) || ls[k].Tick?
  }

  predicate Settled(s: State) {
    s.events == [] && s.batch == [] && s.batcher.Selecting? && s.jobs == [] && s.worker.Waiting?
  }

  function BatcherWeight(s: State): nat {
    match s.batcher
    case Selecting => (match s.timer case Idle => 0 case Fired => 5 case Armed(_) => 6)
    case Extending => if s.timer.Armed? then 8 else 7
    case Sending(_) => 4
    case BatcherExited => 0
  }

  function WorkerWeight(w: Worker): nat {
    match w
    case Received(_) => 2
    case Handling(_) => 1
    case _ => 0
  }

  function Measure(s: State): nat {
    8 * |s.events| + BatcherWeight(s) + 3 * |s.jobs| + WorkerWeight(s.worker)
  }

  function InternalSteps(ls: seq<Label>): nat {
    if ls == [] then 0 else (if Internal(ls[0]) then 1 else 0) + InternalSteps(ls[1..])
  }

  /** Every internal step brings the reactor nearer to rest, and time alone never takes it further off. */
  lemma {:induction false} MeasureStep(s: State, l: Label)
    requires Debounced(s) && ExitsOnlyAfterStop(s) && !s.stopped
    requires Enabled(s, l) && (Internal(l) || l.Tick?)
    ensures Measure(Next(s, l)) + (if Internal(l) then 1 else 0) <= Measure(s)
    ensures !Next(s, l).stopped
  {
    match l {
      case Tick(_) => case Fire => case ReceiveEvent => case ExtendWindow => case ReceiveTick => case SendJob =>
      case ReceiveJob => case HandlerStart => case HandlerReturn => case _ =>
    }
  }

  /** Without new events or a stop, the reactor takes at most Measure(s) further steps of its own, however
      much time passes and however its goroutines are scheduled. */
  lemma {:induction false} DrainBound(s: State, ls: seq<Label>)
    requires Inv(s) && !s.stopped && CanRun(s, ls)
    requires LeftAlone(ls)
    ensures InternalSteps(ls) + Measure(After(s, ls)) <= Measure(s)
    ensures !After(s, ls).stopped
    decreases |ls|
  {
    if ls == [] {
    } else {
      MeasureStep(s, ls[0]);
      InvStep(s, ls[0]);
      DrainBound(Next(s, ls[0]), ls[1..]);
    }
  }

  predicate EnabledLater(s: State, dt: nat, l: Label) {
    Enabled(Next(s, Tick(dt)), l)
  }

  ghost predicate CanProgress(s: State) {
    exists dt: nat, l: Label :: Internal(l) && EnabledLater(s, dt, l)
  }

  /** The reactor rests exactly when everything is empty: it cannot get stuck with work in hand. */
  lemma SettledIffNoProgress(s: State)
    requires Inv(s) && !s.stopped
    ensures Settled(s) <==> !CanProgress(s)
  {
    if !Settled(s) {
      var dt: nat := if s.timer.Armed? && s.now < s.timer.deadline then s.timer.deadline - s.now else 0;
      var l :=
        if s.batcher.Extending? then ExtendWindow
        else if s.batcher.Sending? then SendJob
        else if s.events != [] then ReceiveEvent
        else if s.timer.Armed? then Fire
        else if s.timer.Fired? then ReceiveTick
        else if s.worker.Received? then HandlerStart
        else if s.worker.Handling? then HandlerReturn
        else ReceiveJob;
      assert Internal(l) && EnabledLater(s, dt, l);
    }
  }

  predicate HandlerStartsLater(ls: seq<Label>, i: nat) {
    exists j :: i < j < |ls| && ls[j].HandlerStart?
  }

  /** Every event the run was offered is followed by a handler call. */
  predicate AllHandled(ls: seq<Label>) {
    forall i :: 0 <= i < |ls| && ls[i].Ingest? ==> HandlerStartsLater(ls, i)
  }

  /** No event is ever left without a later recalculation: when a run that was not stopped can make no
      further progress, every event it was offered, dropped ones included, is followed by a handler call. */
  lemma {:induction false} EveryEventIsFollowedByAHandlerCall(window: nat, now: int, ls: seq<Label>)
    requires CanRun(Init(window, now), ls)
    requires !After(Init(window, now), ls).stopped && !CanProgress(After(Init(window, now), ls))
    ensures AllHandled(ls)
  {
    Reachable(window, now, ls);
    SettledIffNoProgress(After(Init(window, now), ls));
    forall i | 0 <= i < |ls| && ls[i].Ingest? ensures HandlerStartsLater(ls, i) {
      if !HandlerStartsLater(ls, i) {
        NoLostWakeup(window, now, ls, i);
      }
    }
  }

  lemma {:induction false} WorkStep(s: State, dt: nat, l: Label) returns (t: State)
    requires Inv(s) && !s.stopped && Work(s) && !s.worker.Received?
    requires Internal(l) && EnabledLater(s, dt, l)
    ensures t == Next(Next(s, Tick(dt)), l) && Inv(t) && !t.stopped && Work(t) && Measure(t) < Measure(s)
  {
    var later := Next(s, Tick(dt));
    t := Next(later, l);
    InvStep(s, Tick(dt));
    InvStep(later, l);
    MeasureStep(s, Tick(dt));
    MeasureStep(later, l);
    WorkPersistsStep(s, Tick(dt));
    WorkPersistsStep(later, l);
  }

  lemma {:induction false} TwoMoreSteps(s: State, dt: nat, l: Label, rest: seq<Label>)
    requires Internal(l) && EnabledLater(s, dt, l) && CanRun(Next(Next(s, Tick(dt)), l), rest)
    requires LeftAlone(rest) && rest != []
    ensures var ls := [Tick(dt), l] + rest;
            CanRun(s, ls) && LeftAlone(ls) && ls[|ls| - 1] == rest[|rest| - 1]
  {
    RunCons(Next(s, Tick(dt)), l, rest);
    RunCons(s, Tick(dt), [l] + rest);
    assert [Tick(dt)] + ([l] + rest) == [Tick(dt), l] + rest;
  }

  /** From work a handler call is in reach by the reactor's own steps and the passing of time alone. */
  lemma {:induction false} HandlerCallInReach(s: State) returns (ls: seq<Label>)
    requires Inv(s) && !s.stopped && Work(s)
    ensures CanRun(s, ls) && ls != [] && ls[|ls| - 1] == HandlerStart
    ensures LeftAlone(ls)
    decreases Measure(s)
  {
    if s.worker.Received? {
      ls := [HandlerStart];
    } else {
      SettledIffNoProgress(s);
      var dt: nat, l :| Internal(l) && EnabledLater(s, dt, l);
      var t := WorkStep(s, dt, l);
      var rest := HandlerCallInReach(t);
      TwoMoreSteps(s, dt, l, rest);
      ls := [Tick(dt), l] + rest;
    }
  }

  /** And no schedule can miss it: a run without new events that has not come to a handler call yet can still go on,
      and can only take boundedly many more steps, so every run that goes on as long as it can comes to one. */
  lemma {:induction false} WorkLeadsToHandler(s: State, ls: seq<Label>)
    requires Inv(s) && !s.stopped && Work(s) && CanRun(s, ls) && LeftAlone(ls)
    requires forall k :: 0 <= k < |ls| ==> !ls[k].HandlerStart?
    ensures CanProgress(After(s, ls)) && InternalSteps(ls) + Measure(After(s, ls)) <= Measure(s)
  {
    DrainBound(s, ls);
    InvRun(s, ls);
    WorkPersists(s, ls);
    SettledIffNoProgress(After(s, ls));
  }

  // ---------------------------------------------------------------- debounce over runs

  lemma {:induction false} ReceiveIsRemembered(s: State, ls: seq<Label>)
    requires CanRun(s, ls) && Inv(s)
    ensures s.lastReceive <= After(s, ls).lastReceive
    ensures After(s, ls).window == s.window
    decreases |ls|
  {
    if ls == [] {
    } else {
      InvStep(s, ls[0]);
      assert s.lastReceive <= Next(s, ls[0]).lastReceive && Next(s, ls[0]).window == s.window;
      ReceiveIsRemembered(Next(s, ls[0]), ls[1..]);
    }
  }

  /** A batch is closed only after a full quiet window: the tick that ends it, at step j, comes at least
      `window` after every event taken before it. */
  lemma {:induction false} QuietWindowBeforeFlush(window: nat, now: int, ls: seq<Label>, i: nat, j: nat)
    requires CanRun(Init(window, now), ls)
    requires i < j < |ls| && ls[i].ReceiveEvent? && ls[j].ReceiveTick?
    ensures Before(Init(window, now), ls, i).now + window <= Before(Init(window, now), ls, j).now
    ensures Before(Init(window, now), ls, j).batch != []
  {
    var s := Init(window, now);
    var a := Before(s, ls, i);
    var b := Before(s, ls, j);
    SplitAt(s, ls, i);
    SplitAt(s, ls, j);
    SplitRun(s, ls, i);
    SplitRun(s, ls, j);
    SplitRun(s, ls[..j], i + 1);
    assert ls[..j][..i + 1] == ls[..i + 1];
    Reachable(window, now, ls[..i]);
    Reachable(window, now, ls[..j]);
    InvStep(a, ls[i]);
    ReceiveIsRemembered(s, ls[..i]);
    ReceiveIsRemembered(Next(a, ls[i]), ls[..j][i + 1..]);
  }

  // ---------------------------------------------------------------- handler calls

  lemma {:induction false} StaysHandling(s: State, ls: seq<Label>)
    requires CanRun(s, ls) && s.worker.Handling?
    requires forall k :: 0 <= k < |ls| ==> !ls[k].HandlerReturn?
    ensures After(s, ls).worker == s.worker
    decreases |ls|
  {
    if ls == [] {
    } else {
      assert !ls[0].HandlerReturn?;
      StaysHandling(Next(s, ls[0]), ls[1..]);
    }
  }

  /** Handler calls never overlap. */
  lemma {:induction false} HandlerCallsDoNotOverlap(window: nat, now: int, ls: seq<Label>, i: nat, j: nat)
    requires CanRun(Init(window, now), ls)
    requires i < j < |ls| && ls[i].HandlerStart? && ls[j].HandlerStart?
    ensures exists m :: i < m < j && ls[m].HandlerReturn?
  {
    var s := Init(window, now);
    SplitAt(s, ls, i);
    SplitAt(s, ls, j);
    SplitRun(s, ls, j);
    SplitRun(s, ls[..j], i + 1);
    assert ls[..j][..i + 1] == ls[..i + 1];
    if forall m :: i < m < j ==> !ls[m].HandlerReturn? {
      StaysHandling(Next(Before(s, ls, i), ls[i]), ls[..j][i + 1..]);
    }
  }

  /** The index in the flush log of the k-th job that reached the queue. */
  function SentIndex(flushed: seq<Flush>, k: nat): nat
    requires k < |SentJobs(flushed)|
  {
    var init := flushed[..|flushed| - 1];
    if k < |SentJobs(init)| then SentIndex(init, k) else |flushed| - 1
  }

  lemma {:induction false} SentIndexIsMonotone(flushed: seq<Flush>, k: nat)
    requires k < |SentJobs(flushed)|
    ensures SentIndex(flushed, k) < |flushed|
    ensures flushed[SentIndex(flushed, k)] == Flush(SentJobs(flushed)[k], true)
    ensures forall k' :: 0 <= k' < k ==> SentIndex(flushed, k') < SentIndex(flushed, k)
  {
    var init := flushed[..|flushed| - 1];
    if k < |SentJobs(init)| {
      SentIndexIsMonotone(init, k);
    } else {
      forall k' | 0 <= k' < k ensures SentIndex(flushed, k') < |flushed| - 1 {
        SentIndexIsMonotone(init, k');
      }
    }
  }

  /** The position in the accepted stream where the k-th flushed batch begins. */
  function Offset(flushed: seq<Flush>, k: nat): nat
    requires k <= |flushed|
  {
    |Flat(flushed[..k])|
  }

  lemma {:induction false} FlatPrefix(flushed: seq<Flush>, k: nat)
    requires k <= |flushed|
    ensures Flat(flushed[..k]) <= Flat(flushed)
    decreases |flushed|
  {
    if k == |flushed| {
      assert flushed[..k] == flushed;
    } else {
      var init := flushed[..|flushed| - 1];
      FlatPrefix(init, k);
      assert init[..k] == flushed[..k];
    }
  }

  lemma {:induction false} FlatSegment(flushed: seq<Flush>, k: nat)
    requires k < |flushed|
    ensures Offset(flushed, k) + |flushed[k].job| == Offset(flushed, k + 1) <= |Flat(flushed)|
    ensures Flat(flushed)[Offset(flushed, k)..Offset(flushed, k + 1)] == flushed[k].job
  {
    assert flushed[..k + 1][..k] == flushed[..k];
    FlatPrefix(flushed, k + 1);
    assert Flat(flushed[..k + 1]) == Flat(flushed[..k]) + flushed[k].job;
    assert Flat(flushed)[..Offset(flushed, k + 1)] == Flat(flushed[..k + 1]);
  }

  /** The k-th handler call is given the stretch of accepted events that its flush closed over. */
  predicate HandlesStretch(s: State, k: nat, from: nat, to: nat) {
    && k < |s.handled| && k < |SentJobs(s.flushed)| && SentIndex(s.flushed, k) < |s.flushed|
    && from == Offset(s.flushed, SentIndex(s.flushed, k))
    && to == Offset(s.flushed, SentIndex(s.flushed, k) + 1)
    && from < to <= |s.accepted|
    && s.handled[k] == Cpus(s.accepted)[from..to]
  }

  lemma {:induction false} HandledStretch(s: State, k: nat) returns (from: nat, to: nat)
    requires Inv(s) && k < |s.handled|
    ensures HandlesStretch(s, k, from, to)
  {
    var f := s.flushed;
    assert SentJobs(f) == s.handled + (InHand(s.worker) + s.jobs);
    SentIndexIsMonotone(f, k);
    FlatSegment(f, SentIndex(f, k));
    from, to := Offset(f, SentIndex(f, k)), Offset(f, SentIndex(f, k) + 1);
    var rest := PendingSend(s.batcher) + s.batch + Cpus(s.events);
    assert Cpus(s.accepted) == Flat(f) + rest;
    assert (Flat(f) + rest)[from..to] == Flat(f)[from..to];
  }

  /** Each handler call gets a contiguous, non-empty stretch of the accepted events, and the stretches of two
      calls come in the order of the calls and do not overlap: an accepted event reaches at most one. */
  lemma {:induction false} EachEventHandledAtMostOnce(window: nat, now: int, ls: seq<Label>, a: nat, b: nat)
    requires CanRun(Init(window, now), ls)
    requires a < b < |After(Init(window, now), ls).handled|
    ensures exists from1: nat, to1: nat, from2: nat, to2: nat ::
              && HandlesStretch(After(Init(window, now), ls), a, from1, to1)
              && HandlesStretch(After(Init(window, now), ls), b, from2, to2)
              && to1 <= from2
  {
    var s := After(Init(window, now), ls);
    Reachable(window, now, ls);
    var f := s.flushed;
    var from1, to1 := HandledStretch(s, a);
    var from2, to2 := HandledStretch(s, b);
    SentIndexIsMonotone(f, b);
    var q := SentIndex(f, b);
    FlatPrefix(f[..q], SentIndex(f, a) + 1);
    assert f[..q][..SentIndex(f, a) + 1] == f[..SentIndex(f, a) + 1];
    assert to1 <= from2;
  }

  // ---------------------------------------------------------------- how long a flush can take

  /** An event arrives and is taken, and less than a window passes before the next one. */
  function Steady(evt: Event, gap: nat, n: nat): seq<Label> {
    if n == 0 then [] else [Ingest(evt), ReceiveEvent, ExtendWindow, Tick(gap)] + Steady(evt, gap, n - 1)
  }

  predicate Gathering(s: State) {
    && !s.stopped && s.batcher.Selecting? && s.events == [] && s.flushed == [] && s.handled == []
    && (s.timer.Armed? ==> s.now < s.timer.deadline) && !s.timer.Fired?
  }

  lemma {:induction false} SteadyRound(s: State, evt: Event, gap: nat)
    requires Gathering(s) && gap < s.window
    ensures var ls := [Ingest(evt), ReceiveEvent, ExtendWindow, Tick(gap)];
            CanRun(s, ls) && Gathering(After(s, ls)) && After(s, ls).now == s.now + gap &&
            After(s, ls).window == s.window && |After(s, ls).batch| == |s.batch| + 1
  {
    var a := Next(s, Ingest(evt));
    var b := Next(a, ReceiveEvent);
    var c := Next(b, ExtendWindow);
    RunCons(c, Tick(gap), []);
    RunCons(b, ExtendWindow, [Tick(gap)]);
    RunCons(a, ReceiveEvent, [ExtendWindow, Tick(gap)]);
    RunCons(s, Ingest(evt), [ReceiveEvent, ExtendWindow, Tick(gap)]);
  }

  lemma {:induction false} SteadyRun(s: State, evt: Event, gap: nat, n: nat)
    requires Gathering(s) && gap < s.window
    ensures var ls := Steady(evt, gap, n);
            CanRun(s, ls) && Gathering(After(s, ls)) && After(s, ls).now == s.now + n * gap &&
            |After(s, ls).batch| == |s.batch| + n
    decreases n
  {
    if n == 0 {
    } else {
      var round := [Ingest(evt), ReceiveEvent, ExtendWindow, Tick(gap)];
      SteadyRound(s, evt, gap);
      SteadyRun(After(s, round), evt, gap, n - 1);
      JoinRuns(s, round, Steady(evt, gap, n - 1));
    }
  }

  /** The debounce has no upper bound: events that keep coming less than a window apart postpone the handler as
      long as they last, however many they are. */
  lemma {:induction false} SteadyEventsPostponeTheHandler(window: nat, now: int, evt: Event, gap: nat, n: nat)
    requires gap < window
    ensures var ls := Steady(evt, gap, n); var s := Init(window, now);
            && CanRun(s, ls) && After(s, ls).now == now + n * gap
            && |After(s, ls).batch| == n && After(s, ls).handled == []
  {
    SteadyRun(Init(window, now), evt, gap, n);
  }

  /** A step of batcher, timer or worker that waits for nothing; the handler itself may take its time. */
  predicate Ready(s: State, l: Label) { Internal(l) && !l.HandlerReturn? && Enabled(s, l) }

  /** Time passes only when nothing is ready, and not past the deadline of the timer. */
  ghost predicate Prompt(s: State, l: Label) {
    l.Tick? ==> (forall r :: !Ready(s, r)) && (s.timer.Armed? ==> s.now + l.dt <= s.timer.deadline)
  }

  ghost predicate PromptRun(s: State, ls: seq<Label>)
    requires CanRun(s, ls)
    decreases |ls|
  {
    ls == [] || (Prompt(s, ls[0]) && PromptRun(Next(s, ls[0]), ls[1..]))
  }

  /** What is still unflushed is flushed by time `due`. */
  predicate FlushedBy(s: State, due: int) {
    && (s.events != [] || s.batcher.Extending? ==> s.now + s.window <= due)
    && (s.timer.Armed? ==> s.timer.deadline <= due)
    && (s.batch != [] || s.batcher.Sending? ==> s.now <= due)
  }

  lemma {:induction false} PromptStep(s: State, l: Label, due: int)
    requires Inv(s) && !s.stopped && FlushedBy(s, due) && Enabled(s, l) && Prompt(s, l)
    requires Internal(l) || l.Tick?
    ensures FlushedBy(Next(s, l), due) && !Next(s, l).stopped
  {
    match l {
      case Tick(_) =>
        assert !Ready(s, ReceiveEvent) && !Ready(s, ExtendWindow) && !Ready(s, ReceiveTick) && !Ready(s, SendJob);
      case Fire => case ReceiveEvent => case ExtendWindow => case ReceiveTick => case SendJob =>
      case ReceiveJob => case HandlerStart => case HandlerReturn => case _ =>
    }
  }

  lemma {:induction false} PromptFlush(s: State, ls: seq<Label>, due: int)
    requires Inv(s) && !s.stopped && FlushedBy(s, due) && CanRun(s, ls) && PromptRun(s, ls)
    requires LeftAlone(ls)
    ensures FlushedBy(After(s, ls), due)
    decreases |ls|
  {
    if ls == [] {
    } else {
      PromptStep(s, ls[0], due);
      InvStep(s, ls[0]);
      PromptFlush(Next(s, ls[0]), ls[1..], due);
    }
  }

  lemma {:induction false} NothingUnflushed(s: State)
    requires EventsConserved(s) && s.events == [] && s.batch == [] && !s.batcher.Sending?
    ensures Cpus(s.accepted) == Flat(s.flushed)
  {
    assert Cpus(s.events) == [] && PendingSend(s.batcher) == [];
  }

  /** But a pause of one window is enough: if no further event comes and the goroutines run when they can, then
      once more than a window has passed all that was accepted has been flushed. */
  lemma {:induction false} PauseOfAWindowFlushes(s: State, ls: seq<Label>)
    requires Inv(s) && !s.stopped
    requires CanRun(s, ls) && PromptRun(s, ls)
    requires LeftAlone(ls)
    requires After(s, ls).now > s.now + s.window
    ensures var t := After(s, ls); Cpus(t.accepted) == Flat(t.flushed)
  {
    PromptFlush(s, ls, s.now + s.window);
    InvRun(s, ls);
    ReceiveIsRemembered(s, ls);
    NothingUnflushed(After(s, ls));
  }

  // ---------------------------------------------------------------- what is dropped, and what is not

  /** An event is dropped only while a hundred wait. */
  lemma {:induction false} EventDroppedOnlyWhenFull(window: nat, now: int, ls: seq<Label>, i: nat)
    requires CanRun(Init(window, now), ls) && i < |ls| && ls[i].Ingest?
    ensures var a, b := Before(Init(window, now), ls, i), Before(Init(window, now), ls, i + 1);
            if |a.events| < 100
            then b.events == a.events + [ls[i].evt] && b.accepted == a.accepted + [ls[i].evt]
            else |a.events| == 100 && b == a
  {
    SplitAt(Init(window, now), ls, i);
    SplitRun(Init(window, now), ls, i);
    Reachable(window, now, ls[..i]);
  }

  /** A batch is dropped only while ten jobs wait. */
  lemma {:induction false} BatchDroppedOnlyWhenFull(window: nat, now: int, ls: seq<Label>, i: nat)
    requires CanRun(Init(window, now), ls) && i < |ls| && ls[i].SendJob?
    ensures var a, b := Before(Init(window, now), ls, i), Before(Init(window, now), ls, i + 1);
            && a.batcher.Sending?
            && if |a.jobs| < 10
               then b.jobs == a.jobs + [a.batcher.job] && b.flushed == a.flushed + [Flush(a.batcher.job, true)]
               else |a.jobs| == 10 && b.jobs == a.jobs && b.flushed == a.flushed + [Flush(a.batcher.job, false)]
  {
    SplitAt(Init(window, now), ls, i);
    SplitRun(Init(window, now), ls, i);
    Reachable(window, now, ls[..i]);
  }

  function Offering(evts: seq<Event>): seq<Label> {
    if evts == [] then [] else [Ingest(evts[0])] + Offering(evts[1..])
  }

  /** A burst that fits is queued whole and in order. */
  lemma {:induction false} BurstIsQueued(s: State, evts: seq<Event>)
    requires |s.events| + |evts| <= 100
    ensures CanRun(s, Offering(evts))
    ensures After(s, Offering(evts)) == s.(events := s.events + evts, accepted := s.accepted + evts)
    decreases |evts|
  {
    if evts == [] {
      assert s.events + evts == s.events && s.accepted + evts == s.accepted;
    } else {
      var t := Next(s, Ingest(evts[0]));
      BurstIsQueued(t, evts[1..]);
      RunCons(s, Ingest(evts[0]), Offering(evts[1..]));
      assert t.events + evts[1..] == s.events + evts && t.accepted + evts[1..] == s.accepted + evts;
    }
  }

  function TakingAll(n: nat): seq<Label> {
    if n == 0 then [] else [ReceiveEvent, ExtendWindow] + TakingAll(n - 1)
  }

  /** The batch has grown by the whole queue, and the timer runs from now. */
  predicate Gathered(s: State, t: State) {
    && t.batcher.Selecting? && t.events == [] && t.batch == s.batch + Cpus(s.events)
    && t.jobs == s.jobs && t.worker == s.worker && t.handled == s.handled
    && t.now == s.now && t.window == s.window
    && t.timer == if s.events == [] then s.timer else Armed(s.now + s.window)
  }

  lemma {:induction false} TakeOne(s: State) returns (t: State)
    requires s.batcher.Selecting? && s.events != []
    ensures CanRun(s, [ReceiveEvent, ExtendWindow]) && After(s, [ReceiveEvent, ExtendWindow]) == t
    ensures t.events == s.events[1..] && t.batch == s.batch + [s.events[0].cpu] && t.batcher.Selecting?
    ensures t.jobs == s.jobs && t.worker == s.worker && t.handled == s.handled
    ensures t.now == s.now && t.window == s.window && t.timer == Armed(s.now + s.window)
  {
    var a := Next(s, ReceiveEvent);
    t := Next(a, ExtendWindow);
    RunCons(a, ExtendWindow, []);
    RunCons(s, ReceiveEvent, [ExtendWindow]);
  }

  lemma CpusFirst(batch: Job, events: seq<Event>)
    requires events != []
    ensures batch + [events[0].cpu] + Cpus(events[1..]) == batch + Cpus(events)
  {}

  lemma {:induction false} QueueIsGathered(s: State)
    requires s.batcher.Selecting?
    ensures CanRun(s, TakingAll(|s.events|)) && Gathered(s, After(s, TakingAll(|s.events|)))
    decreases |s.events|
  {
    if s.events == [] {
      assert s.batch + Cpus(s.events) == s.batch;
    } else {
      var b := TakeOne(s);
      QueueIsGathered(b);
      var rest := TakingAll(|b.events|);
      JoinRuns(s, [ReceiveEvent, ExtendWindow], rest);
      CpusFirst(s.batch, s.events);
    }
  }

  function Flushing(window: nat): seq<Label> {
    [Tick(window), Fire, ReceiveTick, SendJob, ReceiveJob, HandlerStart]
  }

  lemma {:induction false} BatchIsFlushed(s: State)
    requires s.batcher.Selecting? && s.batch != [] && s.timer == Armed(s.now + s.window)
    requires s.jobs == [] && s.worker.Waiting?
    ensures CanRun(s, Flushing(s.window))
    ensures After(s, Flushing(s.window)).handled == s.handled + [s.batch]
    ensures After(s, Flushing(s.window)).now == s.now + s.window
  {
    var a := Next(s, Tick(s.window));
    var b := Next(a, Fire);
    var c := Next(b, ReceiveTick);
    var d := Next(c, SendJob);
    var e := Next(d, ReceiveJob);
    assert d.jobs == [s.batch] && d.handled == s.handled;
    RunCons(e, HandlerStart, []);
    RunCons(d, ReceiveJob, [HandlerStart]);
    RunCons(c, SendJob, [ReceiveJob, HandlerStart]);
    RunCons(b, ReceiveTick, [SendJob, ReceiveJob, HandlerStart]);
    RunCons(a, Fire, [ReceiveTick, SendJob, ReceiveJob, HandlerStart]);
    RunCons(s, Tick(s.window), [Fire, ReceiveTick, SendJob, ReceiveJob, HandlerStart]);
  }

  /** What the debounce is for: up to a hundred events that come before the batcher runs reach the handler in one
      batch, all of them and in order, one window later. */
  lemma {:induction false} BurstIsHandledAsOne(window: nat, now: int, evts: seq<Event>)
    requires 0 < |evts| <= 100
    ensures var ls := Offering(evts) + TakingAll(|evts|) + Flushing(window); var s := Init(window, now);
            && CanRun(s, ls) && After(s, ls).now == now + window
            && |After(s, ls).handled| == 1 && |After(s, ls).handled[0]| == |evts|
            && forall k :: 0 <= k < |evts| ==> After(s, ls).handled[0][k] == evts[k].cpu
  {
    var s := Init(window, now);
    BurstIsQueued(s, evts);
    var a := After(s, Offering(evts));
    assert a.events == evts;
    QueueIsGathered(a);
    JoinRuns(s, Offering(evts), TakingAll(|evts|));
    var b := After(a, TakingAll(|evts|));
    assert b.batch == Cpus(evts);
    BatchIsFlushed(b);
    JoinRuns(s, Offering(evts) + TakingAll(|evts|), Flushing(window));
  }

  // ---------------------------------------------------------------- after a stop

  lemma {:induction false} BatcherCanLeave(s: State) returns (ls: seq<Label>)
    requires s.stopped
    ensures CanRun(s, ls) && After(s, ls).batcher.BatcherExited?
    ensures After(s, ls).stopped && After(s, ls).worker == s.worker && |ls| <= 2
  {
    match s.batcher {
      case BatcherExited =>
        ls := [];
      case Selecting =>
        RunCons(s, BatcherExit, []);
        ls := [BatcherExit];
      case Extending =>
        RunCons(Next(s, ExtendWindow), BatcherExit, []);
        RunCons(s, ExtendWindow, [BatcherExit]);
        ls := [ExtendWindow, BatcherExit];
      case Sending(_) =>
        RunCons(Next(s, SendJob), BatcherExit, []);
        RunCons(s, SendJob, [BatcherExit]);
        ls := [SendJob, BatcherExit];
    }
  }

  lemma {:induction false} WorkerCanLeave(s: State) returns (ls: seq<Label>)
    requires s.stopped
    ensures CanRun(s, ls) && After(s, ls).worker.WorkerExited? && After(s, ls).batcher == s.batcher && |ls| <= 3
    decreases WorkerWeight(s.worker)
  {
    match s.worker {
      case WorkerExited =>
        ls := [];
      case Waiting =>
        RunCons(s, WorkerExit, []);
        ls := [WorkerExit];
      case Handling(_) =>
        RunCons(Next(s, HandlerReturn), WorkerExit, []);
        RunCons(s, HandlerReturn, [WorkerExit]);
        ls := [HandlerReturn, WorkerExit];
      case Received(_) =>
        var t := Next(s, HandlerStart);
        RunCons(Next(t, HandlerReturn), WorkerExit, []);
        RunCons(t, HandlerReturn, [WorkerExit]);
        RunCons(s, HandlerStart, [HandlerReturn, WorkerExit]);
        ls := [HandlerStart, HandlerReturn, WorkerExit];
    }
  }

  /** Once stopped, both goroutines can leave from wherever they are, after what they have begun and no more,
      whatever is still queued. */
  lemma {:induction false} StopLetsBothLeave(s: State) returns (ls: seq<Label>)
    requires s.stopped
    ensures CanRun(s, ls) && |ls| <= 5
    ensures After(s, ls).batcher.BatcherExited? && After(s, ls).worker.WorkerExited?
  {
    var batcher := BatcherCanLeave(s);
    var worker := WorkerCanLeave(After(s, batcher));
    JoinRuns(s, batcher, worker);
    ls := batcher + worker;
  }
}
