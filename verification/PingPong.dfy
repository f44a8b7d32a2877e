/** measureSingleLink over its shared variables. One call of a goroutine method runs that goroutine's next
    statement, in place; the goroutine's own variables are the place it has reached and its loop counter. */
module PingPong {
  import opened PingPongMachine
  import opened Wrappers

  class Link {
    const cpuA: int
    const cpuB: int
    const iter: int
    const okA: bool
    const okB: bool

    // shared by the goroutines
    var signal: int
    var barrier: int
    var group: int
    var mutex: Option<Agent>
    var firstErr: Option<Agent>

    var pcA: Pc
    var kA: nat
    var pcB: Pc
    var kB: nat
    var main: MainPc

    ghost var stores: seq<Agent>

    ghost function State(): State
      reads this
    {
      PingPongMachine.State(iter, okA, okB, Thread(pcA, kA), Thread(pcB, kB), main,
                            Shared(signal, barrier, group, mutex, firstErr, stores))
    }

    /** okA and okB stand for what lockToCPU will answer for the two CPUs. */
    constructor (cpuA: int, cpuB: int, iter: int, okA: bool, okB: bool)
      ensures State() == Init(iter, okA, okB)
      ensures this.cpuA == cpuA && this.cpuB == cpuB
    {
      this.cpuA, this.cpuB, this.iter, this.okA, this.okB := cpuA, cpuB, iter, okA, okB;
      signal, barrier, group, mutex, firstErr := 0, 2, 2, None, None;
      pcA, kA, pcB, kB, main := Pin, 0, Pin, 0, Waiting;
      stores := [];
    }

    method GoroutineA()
      modifies this
      ensures State() == Step(old(State()), A)
    {
      match pcA
      case Pin => pcA := if okA then PinnedDone else LockMutex;
      case LockMutex => if mutex.None? { mutex, pcA := Some(A), CheckFirst; }
      case CheckFirst => pcA := if firstErr.None? then SetFirst else UnlockMutex;
      case SetFirst => firstErr, pcA := Some(A), UnlockMutex;
      case UnlockMutex => mutex, pcA := None, FailDone;
      case FailDone => barrier, pcA := barrier - 1, GroupDone;
      case PinnedDone => barrier, pcA := barrier - 1, BarrierWait;
      case BarrierWait => if barrier == 0 { pcA := ReadErr; }
      case ReadErr => pcA := if firstErr.Some? then GroupDone else LoopHead;
      case LoopHead => pcA := if kA < iter then Load else GroupDone;
      case Load => if signal == 0 { pcA := Store; }
      case Store =>
        signal, stores := 1, stores + [A];
        kA, pcA := kA + 1, LoopHead;
      case GroupDone => group, pcA := group - 1, Finished;
      case Finished =>
    }

    method GoroutineB()
      modifies this
      ensures State() == Step(old(State()), B)
    {
      match pcB
      case Pin => pcB := if okB then PinnedDone else LockMutex;
      case LockMutex => if mutex.None? { mutex, pcB := Some(B), CheckFirst; }
      case CheckFirst => pcB := if firstErr.None? then SetFirst else UnlockMutex;
      case SetFirst => firstErr, pcB := Some(B), UnlockMutex;
      case UnlockMutex => mutex, pcB := None, FailDone;
      case FailDone => barrier, pcB := barrier - 1, GroupDone;
      case PinnedDone => barrier, pcB := barrier - 1, BarrierWait;
      case BarrierWait => if barrier == 0 { pcB := ReadErr; }
      case ReadErr => pcB := if firstErr.Some? then GroupDone else LoopHead;
      case LoopHead => pcB := if kB < iter then Load else GroupDone;
      case Load => if signal == 1 { pcB := Store; }
      case Store =>
        signal, stores := 0, stores + [B];
        kB, pcB := kB + 1, LoopHead;
      case GroupDone => group, pcB := group - 1, Finished;
      case Finished =>
    }

    /** The caller's wg.Wait and the error check after it. */
    method WaitForGroup()
      modifies this
      ensures State() == Step(old(State()), Main)
    {
      if main.Waiting? && group == 0 {
        main := Returned(firstErr);
      }
    }

    /** Runs the goroutines in the order of the schedule, which may be any, for as long as it lasts. When the
        call has come back by then, it has the promised result. */
    method MeasureSingleLink(schedule: seq<Agent>) returns (done: bool, err: Option<Agent>)
      requires State() == Init(iter, okA, okB)
      modifies this
      ensures State() == Run(old(State()), schedule)
      ensures done == main.Returned?
      ensures done ==> (err.Some? <==> !okA || !okB)
      ensures done ==> err == firstErr && (err == Some(A) ==> !okA) && (err == Some(B) ==> !okB) && err != Some(Main)
      ensures done && err.None? ==> |stores| == (if iter < 0 then 0 else 2 * iter) && signal == 0
      ensures forall k :: 0 <= k < |stores| ==> stores[k] == if k % 2 == 0 then A else B
    {
      ghost var start := State();
      for i := 0 to |schedule|
        invariant Run(State(), schedule[i..]) == Run(start, schedule)
      {
        assert schedule[i..][1..] == schedule[i + 1..];
        match schedule[i]
        case A => GoroutineA();
        case B => GoroutineB();
        case Main => WaitForGroup();
      }
      assert Run(State(), []) == Run(start, schedule);
      Outcome(iter, okA, okB, schedule);
      HandoffIsExclusive(iter, okA, okB, schedule);
      done := main.Returned?;
      err := if done then main.err else None;
    }
  }
}
