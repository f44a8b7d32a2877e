/** The hotplug watchdog as StartWatchdog wires it: the reactor's worker calls CalculateRanking and goes on when
    that has answered. The service starts the watchdog only after a first calculation has succeeded, and starts
    no other calculation beside it. */
module Watchdog {
  import opened Ranking
  import C = Calculation
  import R = HotplugMachine

  /** `asked` is history: how many calculations had started when the last event was offered, so the calculations
      numbered from `asked` on started after it. */
  datatype System = System(reactor: R.State, ranker: C.State, asked: nat)

  datatype Step =
    | ReactorStep(r: R.Label)
    | CalculationStep(c: C.Label)
    | CallHandler(input: C.Input)
    | HandlerReturns

  /** The newest calculation is the one the worker waits for. */
  predicate Answered(c: C.State) {
    c.calcs != [] && c.calcs[|c.calcs| - 1].caller.Returned?
  }

  ghost predicate Enabled(s: System, l: Step) {
    match l
    case ReactorStep(r) => !r.HandlerStart? && !r.HandlerReturn? && R.Enabled(s.reactor, r)
    case CalculationStep(c) => !c.Start? && C.Enabled(s.ranker, c)
    case CallHandler(input) => R.Enabled(s.reactor, R.HandlerStart) && C.Enabled(s.ranker, C.Start(input))
    case HandlerReturns => R.Enabled(s.reactor, R.HandlerReturn) && Answered(s.ranker)
  }

  ghost function Next(s: System, l: Step): System
    requires Enabled(s, l)
  {
    match l
    case ReactorStep(r) =>
      s.(reactor := R.Next(s.reactor, r), asked := if r.Ingest? then |s.ranker.calcs| else s.asked)
    case CalculationStep(c) => s.(ranker := C.Next(s.ranker, c))
    case CallHandler(input) =>
      s.(reactor := R.Next(s.reactor, R.HandlerStart), ranker := C.Next(s.ranker, C.Start(input)))
    case HandlerReturns => s.(reactor := R.Next(s.reactor, R.HandlerReturn))
  }

  /** Whatever is tried, in any order; what is not enabled does not happen. */
  ghost function Run(s: System, steps: seq<Step>): System
    decreases |steps|
  {
    if steps == [] then s
    else Run(if Enabled(s, steps[0]) then Next(s, steps[0]) else s, steps[1..])
  }

  /** Every calculation has answered its caller, in time, and one of them has published a ranking. */
  ghost predicate Quiet(c: C.State) {
    && C.Inv(c) && C.Freshest(c) && c.commits != []
    && forall id :: 0 <= id < |c.calcs| ==> c.calcs[id].caller.Returned? && c.calcs[id].caller.outcome != C.TimedOut
  }

  /** The service goes on to start the watchdog only when its first calculation returned nil. */
  lemma {:induction false} StartupIsQuiet(ls: seq<C.Label>)
    requires C.CanRun(C.Init(), ls)
    requires var c := C.After(C.Init(), ls); |c.calcs| == 1 && c.calcs[0].caller == C.Returned(C.Nil)
    ensures Quiet(C.After(C.Init(), ls))
  {
    C.AllocatorSurvivesOverlap(ls);
    assert C.CalcInv(C.After(C.Init(), ls), 0);
  }

  function Start(window: nat, now: int, c: C.State): System { System(R.Init(window, now), c, 0) }

  // ---------------------------------------------------------------- no event is forgotten

  ghost predicate Inv(s: System) {
    && R.Inv(s.reactor) && C.Inv(s.ranker)
    && s.asked <= |s.ranker.calcs|
    && (R.Work(s.reactor) || s.asked < |s.ranker.calcs|)
  }

  lemma {:induction false} InvStep(s: System, l: Step)
    requires Inv(s) && Enabled(s, l)
    ensures Inv(Next(s, l))
  {
    match l
    case ReactorStep(r) =>
      R.InvStep(s.reactor, r);
      if R.Work(s.reactor) {
        R.WorkPersistsStep(s.reactor, r);
      }
    case CalculationStep(c) => C.InvStep(s.ranker, c);
    case CallHandler(input) =>
      R.InvStep(s.reactor, R.HandlerStart);
      C.InvStep(s.ranker, C.Start(input));
    case HandlerReturns =>
      R.InvStep(s.reactor, R.HandlerReturn);
      if R.Work(s.reactor) {
        R.WorkPersistsStep(s.reactor, R.HandlerReturn);
      }
  }

  // ---------------------------------------------------------------- one calculation at a time

  predicate InTime(l: Step) { !(l.CalculationStep? && l.c.Timeout?) }

  /** As long as no calculation times out, only the one the worker waits for is under way. */
  ghost predicate Sequential(s: System) {
    && C.Freshest(s.ranker) && s.ranker.commits != []
    && forall id :: 0 <= id < |s.ranker.calcs| ==>
         && s.ranker.calcs[id].caller != C.Returned(C.TimedOut)
         && (s.ranker.calcs[id].caller.Returned? || (s.reactor.worker.Handling? && id == |s.ranker.calcs| - 1))
  }

  lemma {:induction false} AnsweredIsOver(c: C.State, id: nat)
    requires C.Inv(c) && id < |c.calcs|
    requires c.calcs[id].caller.Returned? && c.calcs[id].caller.outcome != C.TimedOut
    ensures c.calcs[id].phase.Committed? <==> C.Succeeds(c.calcs[id].input)
    ensures !c.calcs[id].phase.Computing?
  {
    assert C.CalcInv(c, id);
  }

  lemma {:induction false} OnlyNewest(s: System)
    requires Inv(s) && Sequential(s)
    ensures C.OnlyNewestComputes(s.ranker)
    ensures !s.reactor.worker.Handling? ==> C.NoneComputing(s.ranker)
  {
    forall id | 0 <= id < |s.ranker.calcs| && s.ranker.calcs[id].caller.Returned?
      ensures !s.ranker.calcs[id].phase.Computing?
    {
      AnsweredIsOver(s.ranker, id);
    }
  }

  lemma {:induction false} SequentialCalculation(s: System, c: C.Label)
    requires Inv(s) && Sequential(s) && Enabled(s, CalculationStep(c)) && !c.Timeout?
    ensures Sequential(Next(s, CalculationStep(c)))
  {
    OnlyNewest(s);
    C.FreshStep(s.ranker, c);
    var t := C.Next(s.ranker, c);
    forall id | 0 <= id < |t.calcs|
      ensures t.calcs[id].caller != C.Returned(C.TimedOut)
      ensures s.ranker.calcs[id].caller.Returned? ==> t.calcs[id].caller.Returned?
    {}
  }

  lemma {:induction false} SequentialStep(s: System, l: Step)
    requires Inv(s) && Sequential(s) && Enabled(s, l) && InTime(l)
    ensures Sequential(Next(s, l))
  {
    match l
    case ReactorStep(r) => assert R.Next(s.reactor, r).worker.Handling? == s.reactor.worker.Handling?;
    case CalculationStep(c) => SequentialCalculation(s, c);
    case CallHandler(input) =>
      OnlyNewest(s);
      C.FreshStep(s.ranker, C.Start(input));
    case HandlerReturns =>
  }

  lemma {:induction false} SequentialRun(s: System, steps: seq<Step>)
    requires Inv(s) && Sequential(s)
    requires forall k :: 0 <= k < |steps| ==> InTime(steps[k])
    ensures Inv(Run(s, steps)) && Sequential(Run(s, steps))
    decreases |steps|
  {
    if steps == [] {
    } else if Enabled(s, steps[0]) {
      assert InTime(steps[0]);
      InvStep(s, steps[0]);
      SequentialStep(s, steps[0]);
      SequentialRun(Next(s, steps[0]), steps[1..]);
    } else {
      SequentialRun(s, steps[1..]);
    }
  }

  // ---------------------------------------------------------------- the watchdog keeps up

  /** The last calculation to commit started as number n or later. */
  predicate CommittedSince(c: C.State, n: nat) {
    c.commits != [] && n <= c.commits[|c.commits| - 1]
  }

  ghost predicate CacheIsRankingOf(c: C.State, id: nat) {
    && id < |c.calcs|
    && var input := c.calcs[id].input;
       input.detected.Some? && input.rounds > 0 &&
       Published(c.alloc.cache, input.detected.value, input.m, input.rounds)
  }

  ghost predicate SucceededSince(c: C.State, n: nat) {
    exists id :: n <= id < |c.calcs| && C.Succeeds(c.calcs[id].input)
  }

  lemma {:induction false} SettledIsUpToDate(s: System, n: nat)
    requires Inv(s) && Sequential(s) && R.Settled(s.reactor) && n <= s.asked
    ensures n < |s.ranker.calcs|
    ensures CommittedSince(s.ranker, n) <==> SucceededSince(s.ranker, n)
    ensures CacheIsRankingOf(s.ranker, s.ranker.commits[|s.ranker.commits| - 1])
  {
    var c := s.ranker;
    forall id | 0 <= id < |c.calcs| ensures id in c.commits <==> C.Succeeds(c.calcs[id].input) {
      AnsweredIsOver(c, id);
      assert C.CalcInv(c, id);
    }
    var last := c.commits[|c.commits| - 1];
    assert last in c.commits;
  }

  lemma {:induction false} AskedOnlyGrows(s: System, steps: seq<Step>)
    requires Inv(s)
    ensures s.asked <= Run(s, steps).asked
    decreases |steps|
  {
    if steps == [] {
    } else if Enabled(s, steps[0]) {
      InvStep(s, steps[0]);
      AskedOnlyGrows(Next(s, steps[0]), steps[1..]);
    } else {
      AskedOnlyGrows(s, steps[1..]);
    }
  }

  lemma {:induction false} RunSplits(s: System, steps: seq<Step>, i: nat)
    requires i <= |steps|
    ensures Run(s, steps) == Run(Run(s, steps[..i]), steps[i..])
    decreases i
  {
    if i == 0 {
      assert steps[..0] == [] && steps[0..] == steps;
    } else {
      var t := if Enabled(s, steps[0]) then Next(s, steps[0]) else s;
      assert steps[..i][1..] == steps[1..][..i - 1] && steps[1..][i - 1..] == steps[i..];
      RunSplits(t, steps[1..], i - 1);
    }
  }

  /** How many calculations have started before step i. */
  ghost function StartedBefore(s: System, steps: seq<Step>, i: nat): nat
    requires i <= |steps|
  {
    |Run(s, steps[..i]).ranker.calcs|
  }

  lemma {:induction false} AskedAfterOffer(s: System, steps: seq<Step>, i: nat)
    requires Inv(s) && Sequential(s) && (forall k :: 0 <= k < |steps| ==> InTime(steps[k]))
    requires i < |steps| && steps[i].ReactorStep? && steps[i].r.Ingest?
    ensures StartedBefore(s, steps, i) <= Run(s, steps).asked
  {
    SequentialRun(s, steps[..i]);
    var a := Run(s, steps[..i]);
    RunSplits(s, steps, i);
    InvStep(a, steps[i]);
    AskedOnlyGrows(Next(a, steps[i]), steps[i..][1..]);
  }

  lemma {:induction false} KeepsUpFrom(start: System, steps: seq<Step>, i: nat)
    requires Inv(start) && Sequential(start) && R.Settled(Run(start, steps).reactor)
    requires forall k :: 0 <= k < |steps| ==> InTime(steps[k])
    requires i < |steps| && steps[i].ReactorStep? && steps[i].r.Ingest?
    ensures var c, n := Run(start, steps).ranker, StartedBefore(start, steps, i);
            && n < |c.calcs| && (CommittedSince(c, n) <==> SucceededSince(c, n))
            && c.commits != [] && CacheIsRankingOf(c, c.commits[|c.commits| - 1])
  {
    SequentialRun(start, steps);
    AskedAfterOffer(start, steps, i);
    SettledIsUpToDate(Run(start, steps), StartedBefore(start, steps, i));
  }

  /** From end to end: when the reactor has come to rest and no calculation timed out, then for every event that was
      offered on the way, dropped or not, some calculation has started after it; and the cache is the complete ranking
      of a calculation started after it if and only if one of those has succeeded. */
  lemma {:induction false} WatchdogKeepsUp(window: nat, now: int, c: C.State, steps: seq<Step>, i: nat)
    requires Quiet(c)
    requires forall k :: 0 <= k < |steps| ==> InTime(steps[k])
    requires R.Settled(Run(Start(window, now, c), steps).reactor)
    requires i < |steps| && steps[i].ReactorStep? && steps[i].r.Ingest?
    ensures var s, n := Run(Start(window, now, c), steps), StartedBefore(Start(window, now, c), steps, i);
            && n < |s.ranker.calcs|
            && (CommittedSince(s.ranker, n) <==> SucceededSince(s.ranker, n))
            && s.ranker.commits != [] && CacheIsRankingOf(s.ranker, s.ranker.commits[|s.ranker.commits| - 1])
  {
    KeepsUpFrom(Start(window, now, c), steps, i);
  }
}
